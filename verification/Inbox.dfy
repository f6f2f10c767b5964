/**
 The receiver inbox as a protocol: any number of concurrent attempts, each one PostgreSQL transaction under READ
 COMMITTED that inserts the delivery key, runs the callback and commits. Attempts fail, hang, swallow SQL errors,
 get cancelled, and lose the answer to their commit. Receipts are never deleted.
 */
module Inbox {
  import opened Basics

  type Key = string

  /**
   What a driver does about a transaction PostgreSQL has already aborted: run a statement before committing, or
   reject a COMMIT that was answered ROLLBACK. pgx does both, database/sql only the first, TypeScript the second.
   */
  datatype Driver = Driver(probes: bool, checksTag: bool)

  const PGX := Driver(true, true)
  const DATABASE_SQL := Driver(true, false)
  const TYPESCRIPT := Driver(false, true)

  predicate Detects(d: Driver) {
    d.probes || d.checksTag
  }

  datatype Failure = Conflict | Inconsistent | Errored

  datatype Result = Processed | Duplicate | Failed(why: Failure)

  /**
   Where an attempt is; `claimed` tells whether its own insert took the key. A failing attempt has decided what it
   reports, and its transaction stays open until it is rolled back. A lingering one sent COMMIT and got no answer:
   it reports an error, and the server may still apply the commit, or not, at any later time.
   */
  datatype Stage =
    | Claiming
    | InCallback
    | Reading
    | Checking(claimed: bool)      // about to test cancellation and, if the driver does, probe
    | Committing(claimed: bool)
    | Lingering(claimed: bool)
    | Failing(why: Failure, claimed: bool)
    | Done(result: Result)

  /** `aborted`: PostgreSQL has rolled the transaction back although the helper has not noticed. */
  datatype Attempt = Attempt(key: Key, digest: Digest, driver: Driver, stage: Stage, aborted: bool)

  /** Committed receipts, committed runs of the callback per key, and uncommitted inserts per key. */
  datatype State = State(receipts: map<Key, Digest>, effects: map<Key, nat>,
                         holders: map<Key, nat>, attempts: seq<Attempt>)

  const START := State(map[], map[], map[], [])

  function Effects(s: State, key: Key): nat {
    if key in s.effects then s.effects[key] else 0
  }

  datatype Event =
    | Insert                    // waits while another attempt holds the key
    | Abort                     // a statement of the callback fails; PostgreSQL aborts the transaction
    | Return(ok: bool)          // the callback returns, or raises
    | Read
    | Check
    | Commit(answered: bool)
    | Settle(applied: bool)     // what became of an unanswered commit
    | Break                     // a statement of the helper fails, or the caller's context is cancelled
    | Rollback

  datatype Step = Arrive(key: Key, digest: Digest, driver: Driver) | At(id: nat, event: Event)

  // ----- Steps -----

  function Set(s: State, a: nat, x: Attempt): State
    requires a < |s.attempts|
  {
    s.(attempts := s.attempts[a := x])
  }

  /** The transaction is over: its insert, if any, no longer blocks the key. */
  function Release(s: State, a: nat): State {
    s.(holders := map k | k in s.holders && s.holders[k] != a :: s.holders[k])
  }

  function Finish(s: State, a: nat, r: Result): State
    requires a < |s.attempts|
  {
    Release(Set(s, a, s.attempts[a].(stage := Done(r))), a)
  }

  predicate Claimed(stage: Stage) {
    stage.InCallback? || ((stage.Checking? || stage.Committing? || stage.Lingering? || stage.Failing?) && stage.claimed)
  }

  /** The helper gives up, keeping the transaction open until it is rolled back. */
  function Fail(s: State, a: nat, why: Failure): State
    requires a < |s.attempts|
  {
    Set(s, a, s.attempts[a].(stage := Failing(why, Claimed(s.attempts[a].stage))))
  }

  function DoInsert(s: State, a: nat): State
    requires a < |s.attempts|
  {
    var x := s.attempts[a];
    if x.key in s.holders then s
    else if x.key in s.receipts then Set(s, a, x.(stage := Reading))
    else Set(s, a, x.(stage := InCallback)).(holders := s.holders[x.key := a])
  }

  function DoAbort(s: State, a: nat): State
    requires a < |s.attempts|
  {
    Release(Set(s, a, s.attempts[a].(aborted := true)), a)
  }

  /** A callback that swallowed the failure of a statement returns normally. */
  function DoReturn(s: State, a: nat, ok: bool): State
    requires a < |s.attempts|
  {
    if ok then Set(s, a, s.attempts[a].(stage := Checking(true))) else Fail(s, a, Errored)
  }

  function DoRead(s: State, a: nat): State
    requires a < |s.attempts|
  {
    var x := s.attempts[a];
    if x.key !in s.receipts then Fail(s, a, Inconsistent)
    else if s.receipts[x.key] != x.digest then Fail(s, a, Conflict)
    else Set(s, a, x.(stage := Checking(false)))
  }

  function DoCheck(s: State, a: nat): State
    requires a < |s.attempts| && s.attempts[a].stage.Checking?
  {
    var x := s.attempts[a];
    if x.driver.probes && x.aborted then Fail(s, a, Errored)
    else Set(s, a, x.(stage := Committing(x.stage.claimed)))
  }

  function Success(claimed: bool): Result {
    if claimed then Processed else Duplicate
  }

  /** COMMIT takes effect: the receipt and the callback's writes become visible together. */
  function Applied(s: State, a: nat): State
    requires a < |s.attempts|
  {
    var x := s.attempts[a];
    if Claimed(x.stage) && !x.aborted then
      s.(receipts := s.receipts[x.key := x.digest], effects := s.effects[x.key := Effects(s, x.key) + 1])
    else s
  }

  /** In an aborted transaction COMMIT is answered ROLLBACK, which only some drivers look at. */
  function DoCommit(s: State, a: nat, answered: bool): State
    requires a < |s.attempts| && s.attempts[a].stage.Committing?
  {
    var x := s.attempts[a];
    if !answered then Set(s, a, x.(stage := Lingering(x.stage.claimed)))
    else Finish(Applied(s, a), a, if x.aborted && x.driver.checksTag then Failed(Errored) else Success(x.stage.claimed))
  }

  function DoSettle(s: State, a: nat, applied: bool): State
    requires a < |s.attempts|
  {
    Finish(if applied then Applied(s, a) else s, a, Failed(Errored))
  }

  /** A step that is not possible changes nothing. */
  function Do(s: State, step: Step): State {
    match step
    case Arrive(key, digest, driver) => s.(attempts := s.attempts + [Attempt(key, digest, driver, Claiming, false)])
    case At(a, event) => if a < |s.attempts| then DoAt(s, a, event) else s
  }

  function DoAt(s: State, a: nat, event: Event): State
    requires a < |s.attempts|
  {
    var stage := s.attempts[a].stage;
    match event
    case Insert => if stage.Claiming? then DoInsert(s, a) else s
    case Abort => if stage.InCallback? then DoAbort(s, a) else s
    case Return(ok) => if stage.InCallback? then DoReturn(s, a, ok) else s
    case Read => if stage.Reading? then DoRead(s, a) else s
    case Check => if stage.Checking? then DoCheck(s, a) else s
    case Commit(answered) => if stage.Committing? then DoCommit(s, a, answered) else s
    case Settle(applied) => if stage.Lingering? then DoSettle(s, a, applied) else s
    case Break => if stage.Claiming? || stage.Reading? || stage.Checking? then Fail(s, a, Errored) else s
    case Rollback => if stage.Failing? then Finish(s, a, Failed(stage.why)) else s
  }

  function Run(s: State, steps: seq<Step>): State {
    if |steps| == 0 then s else Do(Run(s, steps[..|steps| - 1]), steps[|steps| - 1])
  }

  // ----- Invariant -----

  /** The attempt's own uncommitted insert is in the table. */
  predicate Holding(x: Attempt) {
    !x.aborted && Claimed(x.stage)
  }

  ghost predicate Once(s: State) {
    forall k :: Effects(s, k) == if k in s.receipts then 1 else 0
  }

  /** At most one attempt holds a key, and only while the key has no receipt. */
  ghost predicate HoldersOk(s: State) {
    && (forall k | k in s.holders :: k !in s.receipts && s.holders[k] < |s.attempts|
                                     && s.attempts[s.holders[k]].key == k && Holding(s.attempts[s.holders[k]]))
    && (forall a | 0 <= a < |s.attempts| && Holding(s.attempts[a]) ::
           s.attempts[a].key in s.holders && s.holders[s.attempts[a].key] == a)
  }

  ghost predicate FailureOk(s: State, x: Attempt, why: Failure) {
    why != Inconsistent && (why == Conflict ==> x.key in s.receipts && s.receipts[x.key] != x.digest)
  }

  /** What each stage knows. */
  ghost predicate AttemptOk(s: State, x: Attempt) {
    var seen := x.key in s.receipts && s.receipts[x.key] == x.digest;
    match x.stage
    case Claiming => !x.aborted
    case InCallback => true
    case Reading => !x.aborted && x.key in s.receipts
    case Checking(claimed) => !claimed ==> seen && !x.aborted
    case Committing(claimed) => (!claimed ==> seen && !x.aborted) && (x.aborted ==> !x.driver.probes)
    case Lingering(_) => true
    case Failing(why, _) => FailureOk(s, x, why)
    case Done(Processed) => Detects(x.driver) ==> seen
    case Done(Duplicate) => seen
    case Done(Failed(why)) => FailureOk(s, x, why)
  }

  ghost predicate Inv(s: State) {
    Once(s) && HoldersOk(s) && forall a | 0 <= a < |s.attempts| :: AttemptOk(s, s.attempts[a])
  }

  /** Receipts only grow, so what one attempt has seen stays true. */
  ghost predicate Grows(s: State, t: State) {
    && (forall k | k in s.receipts :: k in t.receipts && t.receipts[k] == s.receipts[k])
    && |s.attempts| <= |t.attempts|
  }

  lemma OthersStayOk(s: State, t: State, x: Attempt)
    requires AttemptOk(s, x) && Grows(s, t)
    ensures AttemptOk(t, x)
  {
  }

  /** An attempt that holds nothing moves to another stage in which it holds nothing. */
  lemma MoveKeeps(s: State, a: nat, x: Attempt)
    requires Inv(s) && a < |s.attempts| && x.key == s.attempts[a].key
    requires Holding(x) == Holding(s.attempts[a]) && AttemptOk(s, x)
    ensures Inv(Set(s, a, x))
  {
    var t := Set(s, a, x);
    forall b | 0 <= b < |t.attempts| ensures AttemptOk(t, t.attempts[b]) {
      OthersStayOk(s, t, t.attempts[b]);
    }
    assert forall b | 0 <= b < |t.attempts| ::
      Holding(t.attempts[b]) == Holding(s.attempts[b]) && t.attempts[b].key == s.attempts[b].key;
    assert forall k :: Effects(t, k) == Effects(s, k);
  }

  /** An attempt lets go of the key, if it had it. */
  lemma LetGoKeeps(s: State, a: nat, x: Attempt)
    requires Inv(s) && a < |s.attempts| && x.key == s.attempts[a].key
    requires !Holding(x) && AttemptOk(s, x)
    ensures Inv(Release(Set(s, a, x), a))
  {
    var t := Release(Set(s, a, x), a);
    forall b | 0 <= b < |t.attempts| ensures AttemptOk(t, t.attempts[b]) {
      OthersStayOk(s, t, t.attempts[b]);
    }
    forall b | 0 <= b < |t.attempts| && Holding(t.attempts[b])
      ensures t.attempts[b].key in t.holders && t.holders[t.attempts[b].key] == b
    {
      assert b != a && t.attempts[b] == s.attempts[b];
    }
    assert forall k :: Effects(t, k) == Effects(s, k);
  }

  lemma InsertKeeps(s: State, a: nat)
    requires Inv(s) && a < |s.attempts| && s.attempts[a].stage.Claiming?
    ensures Inv(DoInsert(s, a)) && Grows(s, DoInsert(s, a))
  {
    var x := s.attempts[a];
    assert AttemptOk(s, x);
    if x.key !in s.holders {
      if x.key in s.receipts {
        MoveKeeps(s, a, x.(stage := Reading));
      } else {
        TakeKeeps(s, a);
      }
    }
  }

  lemma TakeKeeps(s: State, a: nat)
    requires Inv(s) && a < |s.attempts| && s.attempts[a].stage.Claiming?
    requires s.attempts[a].key !in s.holders && s.attempts[a].key !in s.receipts
    ensures Inv(Set(s, a, s.attempts[a].(stage := InCallback)).(holders := s.holders[s.attempts[a].key := a]))
  {
    var x := s.attempts[a];
    assert AttemptOk(s, x);
    var t := Set(s, a, x.(stage := InCallback)).(holders := s.holders[x.key := a]);
    forall b | 0 <= b < |t.attempts| ensures AttemptOk(t, t.attempts[b]) {
      if b != a {
        OthersStayOk(s, t, s.attempts[b]);
      }
    }
    assert forall k :: Effects(t, k) == Effects(s, k);
    forall b | 0 <= b < |t.attempts| && Holding(t.attempts[b])
      ensures t.attempts[b].key in t.holders && t.holders[t.attempts[b].key] == b
    {
      if b != a {
        assert t.attempts[b] == s.attempts[b];
      }
    }
  }

  /** A commit that the server acts on. */
  lemma ApplyKeeps(s: State, a: nat, r: Result)
    requires Inv(s) && a < |s.attempts| && (s.attempts[a].stage.Committing? || s.attempts[a].stage.Lingering?)
    requires r == Failed(Errored)
      || (s.attempts[a].stage.Committing? && !s.attempts[a].aborted && r == Success(s.attempts[a].stage.claimed))
    ensures Inv(Finish(Applied(s, a), a, r)) && Grows(s, Finish(Applied(s, a), a, r))
  {
    var x := s.attempts[a];
    assert AttemptOk(s, x);
    if Holding(x) {
      ApplyClaimed(s, a, r);
    } else {
      LetGoKeeps(s, a, x.(stage := Done(r)));
    }
  }

  lemma ApplyClaimed(s: State, a: nat, r: Result)
    requires Inv(s) && a < |s.attempts| && Holding(s.attempts[a])
    requires r == Processed || r == Failed(Errored)
    ensures Inv(Finish(Applied(s, a), a, r)) && Grows(s, Finish(Applied(s, a), a, r))
  {
    var x := s.attempts[a];
    var t := Finish(Applied(s, a), a, r);
    assert x.key in s.holders && s.holders[x.key] == a && x.key !in s.receipts;
    forall k ensures Effects(t, k) == if k in t.receipts then 1 else 0 {
      assert Effects(s, k) == if k in s.receipts then 1 else 0;
    }
    forall b | 0 <= b < |t.attempts| ensures AttemptOk(t, t.attempts[b]) {
      if b != a {
        OthersStayOk(s, t, s.attempts[b]);
      }
    }
    ApplyHolders(s, a, r);
  }

  lemma ApplyHolders(s: State, a: nat, r: Result)
    requires HoldersOk(s) && a < |s.attempts| && Holding(s.attempts[a])
    ensures HoldersOk(Finish(Applied(s, a), a, r))
  {
    var x := s.attempts[a];
    var t := Finish(Applied(s, a), a, r);
    forall k | k in t.holders ensures k !in t.receipts && s.holders[k] != a {
      assert k != x.key;
    }
    forall b | 0 <= b < |t.attempts| && Holding(t.attempts[b])
      ensures t.attempts[b].key in t.holders && t.holders[t.attempts[b].key] == b
    {
      assert b != a && t.attempts[b] == s.attempts[b];
    }
  }

  lemma FailKeeps(s: State, a: nat, why: Failure)
    requires Inv(s) && a < |s.attempts| && !s.attempts[a].stage.Done? && FailureOk(s, s.attempts[a], why)
    ensures Inv(Fail(s, a, why)) && Grows(s, Fail(s, a, why))
  {
    var x := s.attempts[a];
    MoveKeeps(s, a, x.(stage := Failing(why, Claimed(x.stage))));
  }

  lemma AtKeeps(s: State, a: nat, event: Event)
    requires Inv(s) && a < |s.attempts|
    ensures Inv(DoAt(s, a, event)) && Grows(s, DoAt(s, a, event))
  {
    var x := s.attempts[a];
    assert AttemptOk(s, x);
    match event
    case Insert =>
      if x.stage.Claiming? {
        InsertKeeps(s, a);
      }
    case Abort =>
      if x.stage.InCallback? {
        LetGoKeeps(s, a, x.(aborted := true));
      }
    case Return(ok) =>
      if x.stage.InCallback? {
        ReturnKeeps(s, a, ok);
      }
    case Read =>
      if x.stage.Reading? {
        ReadKeeps(s, a);
      }
    case Check =>
      if x.stage.Checking? {
        CheckKeeps(s, a);
      }
    case Commit(answered) =>
      if x.stage.Committing? {
        CommitKeeps(s, a, answered);
      }
    case Settle(applied) =>
      if x.stage.Lingering? {
        SettleKeeps(s, a, applied);
      }
    case Break =>
      if x.stage.Claiming? || x.stage.Reading? || x.stage.Checking? {
        FailKeeps(s, a, Errored);
      }
    case Rollback =>
      if x.stage.Failing? {
        LetGoKeeps(s, a, x.(stage := Done(Failed(x.stage.why))));
      }
  }

  lemma ReturnKeeps(s: State, a: nat, ok: bool)
    requires Inv(s) && a < |s.attempts| && s.attempts[a].stage.InCallback?
    ensures Inv(DoReturn(s, a, ok)) && Grows(s, DoReturn(s, a, ok))
  {
    if ok {
      MoveKeeps(s, a, s.attempts[a].(stage := Checking(true)));
    } else {
      FailKeeps(s, a, Errored);
    }
  }

  lemma ReadKeeps(s: State, a: nat)
    requires Inv(s) && a < |s.attempts| && s.attempts[a].stage.Reading?
    ensures Inv(DoRead(s, a)) && Grows(s, DoRead(s, a))
  {
    var x := s.attempts[a];
    assert AttemptOk(s, x);
    if s.receipts[x.key] != x.digest {
      FailKeeps(s, a, Conflict);
    } else {
      MoveKeeps(s, a, x.(stage := Checking(false)));
    }
  }

  lemma CheckKeeps(s: State, a: nat)
    requires Inv(s) && a < |s.attempts| && s.attempts[a].stage.Checking?
    ensures Inv(DoCheck(s, a)) && Grows(s, DoCheck(s, a))
  {
    var x := s.attempts[a];
    assert AttemptOk(s, x);
    if x.driver.probes && x.aborted {
      FailKeeps(s, a, Errored);
    } else {
      MoveKeeps(s, a, x.(stage := Committing(x.stage.claimed)));
    }
  }

  lemma CommitKeeps(s: State, a: nat, answered: bool)
    requires Inv(s) && a < |s.attempts| && s.attempts[a].stage.Committing?
    ensures Inv(DoCommit(s, a, answered)) && Grows(s, DoCommit(s, a, answered))
  {
    var x := s.attempts[a];
    assert AttemptOk(s, x);
    if !answered {
      MoveKeeps(s, a, x.(stage := Lingering(x.stage.claimed)));
    } else if x.aborted {
      LetGoKeeps(s, a, x.(stage := Done(if x.driver.checksTag then Failed(Errored) else Success(x.stage.claimed))));
    } else {
      ApplyKeeps(s, a, Success(x.stage.claimed));
    }
  }

  lemma SettleKeeps(s: State, a: nat, applied: bool)
    requires Inv(s) && a < |s.attempts| && s.attempts[a].stage.Lingering?
    ensures Inv(DoSettle(s, a, applied)) && Grows(s, DoSettle(s, a, applied))
  {
    if applied {
      ApplyKeeps(s, a, Failed(Errored));
    } else {
      LetGoKeeps(s, a, s.attempts[a].(stage := Done(Failed(Errored))));
    }
  }

  predicate SameDelivery(x: Attempt, y: Attempt) {
    x.key == y.key && x.digest == y.digest && x.driver == y.driver
  }

  /** A step of attempt `a` moves no other attempt and keeps what `a` delivers. */
  lemma OnlyOneMoves(s: State, a: nat, event: Event)
    requires a < |s.attempts|
    ensures var t := DoAt(s, a, event);
      && |t.attempts| == |s.attempts| && SameDelivery(t.attempts[a], s.attempts[a])
      && (forall b | 0 <= b < |s.attempts| && b != a :: t.attempts[b] == s.attempts[b])
  {
    match event
    case Insert =>
    case Abort =>
    case Return(_) =>
    case Read =>
    case Check =>
    case Commit(_) =>
    case Settle(_) =>
    case Break =>
    case Rollback =>
  }

  lemma StepKeeps(s: State, step: Step)
    requires Inv(s)
    ensures Inv(Do(s, step)) && Grows(s, Do(s, step))
  {
    match step
    case Arrive(key, digest, driver) =>
      var t := Do(s, step);
      forall a | 0 <= a < |t.attempts| ensures AttemptOk(t, t.attempts[a]) {
        if a < |s.attempts| {
          OthersStayOk(s, t, s.attempts[a]);
        }
      }
      assert forall k :: Effects(t, k) == Effects(s, k);
    case At(a, event) =>
      if a < |s.attempts| {
        AtKeeps(s, a, event);
      }
  }

  lemma {:induction false} RunKeeps(s: State, steps: seq<Step>)
    requires Inv(s)
    ensures Inv(Run(s, steps)) && Grows(s, Run(s, steps))
  {
    if |steps| != 0 {
      RunKeeps(s, steps[..|steps| - 1]);
      StepKeeps(Run(s, steps[..|steps| - 1]), steps[|steps| - 1]);
    }
  }

  /** What the helper tells its caller, once it knows. */
  function Report(stage: Stage): Option<Result> {
    match stage
    case Done(r) => Some(r)
    case Failing(why, _) => Some(Failed(why))
    case Lingering(_) => Some(Failed(Errored))
    case _ => None
  }

  /** What a caller may conclude from what attempt `a` reported. */
  ghost predicate Truthful(s: State, a: nat)
    requires a < |s.attempts|
  {
    var x := s.attempts[a];
    match Report(x.stage)
    case Some(Processed) => Effects(s, x.key) == 1 && x.key in s.receipts && s.receipts[x.key] == x.digest
    case Some(Duplicate) => Effects(s, x.key) == 1 && x.key in s.receipts && s.receipts[x.key] == x.digest
    case Some(Failed(Conflict)) => Effects(s, x.key) == 1 && x.key in s.receipts && s.receipts[x.key] != x.digest
    case Some(Failed(Inconsistent)) => false
    case _ => Effects(s, x.key) <= 1
  }

  /**
   Atomicity under concurrency: over every interleaving, the callback's writes commit at most once per key, and an
   attempt reports success only if they committed exactly once, for the digest it brought.
   */
  lemma InboxAtomicity(steps: seq<Step>, a: nat)
    requires a < |Run(START, steps).attempts| && Detects(Run(START, steps).attempts[a].driver)
    ensures Truthful(Run(START, steps), a)
  {
    RunKeeps(START, steps);
    var s := Run(START, steps);
    assert AttemptOk(s, s.attempts[a]);
    assert Effects(s, s.attempts[a].key) == if s.attempts[a].key in s.receipts then 1 else 0;
  }

  ghost predicate Trustworthy(d: Driver) {
    forall steps: seq<Step>, a: nat ::
      a < |Run(START, steps).attempts| && Run(START, steps).attempts[a].driver == d ==> Truthful(Run(START, steps), a)
  }

  function SwallowedError(key: Key, digest: Digest, d: Driver): seq<Step> {
    [Arrive(key, digest, d), At(0, Insert), At(0, Abort), At(0, Return(true)), At(0, Check), At(0, Commit(true))]
  }

  /** With neither precaution, a swallowed SQL error is reported as processed, whatever the delivery. */
  lemma UndetectedAbort(key: Key, digest: Digest, d: Driver)
    requires !Detects(d)
    ensures Run(START, SwallowedError(key, digest, d))
      == State(map[], map[], map[], [Attempt(key, digest, d, Done(Processed), true)])
  {
    var steps := SwallowedError(key, digest, d);
    var x := Attempt(key, digest, d, Claiming, false);
    assert steps[..1][..0] == [] && steps[..2][..1] == steps[..1] && steps[..3][..2] == steps[..2];
    assert steps[..4][..3] == steps[..3] && steps[..5][..4] == steps[..4];
    assert Run(START, []) == START;
    assert Run(START, steps[..1]) == State(map[], map[], map[], [x]);
    assert Run(START, steps[..2]) == State(map[], map[], map[key := 0], [x.(stage := InCallback)]);
    assert Run(START, steps[..3]) == State(map[], map[], map[], [x.(stage := InCallback, aborted := true)]);
    assert Run(START, steps[..4]) == State(map[], map[], map[], [x.(stage := Checking(true), aborted := true)]);
    assert Run(START, steps[..5]) == State(map[], map[], map[], [x.(stage := Committing(true), aborted := true)]);
  }

  /** The precautions are exactly what is needed: a driver's reports can be trusted if and only if it takes one. */
  lemma TrustworthyExactly(d: Driver)
    ensures Trustworthy(d) <==> Detects(d)
  {
    if Detects(d) {
      forall steps: seq<Step>, a: nat | a < |Run(START, steps).attempts| && Run(START, steps).attempts[a].driver == d
        ensures Truthful(Run(START, steps), a)
      {
        InboxAtomicity(steps, a);
      }
    } else {
      UndetectedAbort("", [], d);
      assert !Truthful(Run(START, SwallowedError("", [], d)), 0);
    }
  }

  /** All three drivers take one. */
  lemma DriversTrustworthy()
    ensures Trustworthy(PGX) && Trustworthy(DATABASE_SQL) && Trustworthy(TYPESCRIPT)
  {
    TrustworthyExactly(PGX);
    TrustworthyExactly(DATABASE_SQL);
    TrustworthyExactly(TYPESCRIPT);
  }

  /** What may become of a COMMIT that got no answer: all of it or nothing, and either way the key is free again. */
  lemma SettleOutcomes(s: State, a: nat, applied: bool)
    requires Inv(s) && a < |s.attempts| && s.attempts[a].stage.Lingering?
    ensures var x, t := s.attempts[a], Do(s, At(a, Settle(applied)));
      && t.attempts == s.attempts[a := x.(stage := Done(Failed(Errored)))]
      && (forall key | key in t.holders :: t.holders[key] != a)
      && if applied && x.stage.claimed && !x.aborted then
           t.receipts == s.receipts[x.key := x.digest] && Effects(t, x.key) == Effects(s, x.key) + 1
         else t.receipts == s.receipts && t.effects == s.effects
  {
  }

  // ----- A faultless attempt -----

  function Faultless(s: State, key: Key, digest: Digest, d: Driver): seq<Step> {
    var a := |s.attempts|;
    if key !in s.receipts
      then [Arrive(key, digest, d), At(a, Insert), At(a, Return(true)), At(a, Check), At(a, Commit(true))]
    else [Arrive(key, digest, d), At(a, Insert), At(a, Read), At(a, Check), At(a, Commit(true))]
  }

  function Last(s: State): Attempt
    requires |s.attempts| > 0
  {
    s.attempts[|s.attempts| - 1]
  }

  /**
   An attempt that meets no fault decides the key: it processes a new one, and answers for a known one, changing
   nothing. So retrying after a commit of unknown outcome settles it without a second effect.
   */
  lemma FaultlessAttempt(s: State, key: Key, digest: Digest, d: Driver)
    requires Inv(s) && key !in s.holders
    ensures var t := Run(s, Faultless(s, key, digest, d));
      && |t.attempts| == |s.attempts| + 1
      && (key !in s.receipts ==> Last(t).stage == Done(Processed) && t.receipts == s.receipts[key := digest])
      && (key in s.receipts ==> Last(t).stage == (if s.receipts[key] == digest then Done(Duplicate)
             else Failing(Conflict, false)) && t.receipts == s.receipts)
      && (forall k :: Effects(t, k) == if k == key then 1 else Effects(s, k))
  {
    if key in s.receipts {
      FaultlessKnown(s, key, digest, d);
    } else {
      FaultlessNew(s, key, digest, d);
    }
    assert Effects(s, key) == if key in s.receipts then 1 else 0;
  }

  lemma RunOfFour(s: State, a: Step, b: Step, c: Step, d: Step)
    ensures Run(s, [a, b, c, d]) == Do(Do(Do(Do(s, a), b), c), d)
  {
    assert [a, b, c, d][..3] == [a, b, c] && [a, b, c][..2] == [a, b] && [a, b][..1] == [a] && [a][..0] == [];
    assert Run(s, [a]) == Do(s, a);
    assert Run(s, [a, b]) == Do(Do(s, a), b);
  }

  lemma FaultlessNew(s: State, key: Key, digest: Digest, d: Driver)
    requires key !in s.holders && key !in s.receipts
    ensures var t := Run(s, Faultless(s, key, digest, d));
      && |t.attempts| == |s.attempts| + 1 && Last(t).stage == Done(Processed)
      && t.receipts == s.receipts[key := digest] && t.effects == s.effects[key := Effects(s, key) + 1]
  {
    FaultlessCommit(s, key, digest, d);
    CommitTakesEffect(AboutToCommit(s, key, digest, d), |s.attempts|);
  }

  lemma FaultlessCommit(s: State, key: Key, digest: Digest, d: Driver)
    requires key !in s.holders && key !in s.receipts
    ensures Run(s, Faultless(s, key, digest, d)) == DoCommit(AboutToCommit(s, key, digest, d), |s.attempts|, true)
  {
    var a := |s.attempts|;
    var steps := Faultless(s, key, digest, d);
    assert steps[..4] == [Arrive(key, digest, d), At(a, Insert), At(a, Return(true)), At(a, Check)];
    ReachesCommit(s, key, digest, d);
    CommitStep(AboutToCommit(s, key, digest, d), a, true);
  }

  lemma CommitStep(s: State, a: nat, answered: bool)
    requires a < |s.attempts| && s.attempts[a].stage.Committing?
    ensures Do(s, At(a, Commit(answered))) == DoCommit(s, a, answered)
  {
  }

  function AboutToCommit(s: State, key: Key, digest: Digest, d: Driver): State {
    var a := |s.attempts|;
    s.(holders := s.holders[key := a], attempts := s.attempts + [Attempt(key, digest, d, Committing(true), false)])
  }

  lemma ReachesCommit(s: State, key: Key, digest: Digest, d: Driver)
    requires key !in s.holders && key !in s.receipts
    ensures var a := |s.attempts|;
      Run(s, [Arrive(key, digest, d), At(a, Insert), At(a, Return(true)), At(a, Check)])
        == AboutToCommit(s, key, digest, d)
  {
    var a := |s.attempts|;
    RunOfFour(s, Arrive(key, digest, d), At(a, Insert), At(a, Return(true)), At(a, Check));
    StagesOfNew(s, key, digest, d);
  }

  lemma StagesOfNew(s: State, key: Key, digest: Digest, d: Driver)
    requires key !in s.holders && key !in s.receipts
    ensures var a := |s.attempts|;
      Do(Do(Do(Do(s, Arrive(key, digest, d)), At(a, Insert)), At(a, Return(true))), At(a, Check))
        == AboutToCommit(s, key, digest, d)
  {
    var a := |s.attempts|;
    var x := Attempt(key, digest, d, Claiming, false);
    var s1 := Do(s, Arrive(key, digest, d));
    assert (s.attempts + [x])[a := x.(stage := InCallback)] == s.attempts + [x.(stage := InCallback)];
    assert Do(s1, At(a, Insert))
      == s.(holders := s.holders[key := a], attempts := s.attempts + [x.(stage := InCallback)]);
  }

  lemma CommitTakesEffect(s: State, a: nat)
    requires a < |s.attempts| && s.attempts[a].stage == Committing(true) && !s.attempts[a].aborted
    ensures var x := s.attempts[a];
      var t := DoCommit(s, a, true);
      && t.receipts == s.receipts[x.key := x.digest] && t.effects == s.effects[x.key := Effects(s, x.key) + 1]
      && t.attempts == s.attempts[a := x.(stage := Done(Processed))]
  {
  }

  lemma FaultlessKnown(s: State, key: Key, digest: Digest, d: Driver)
    requires key !in s.holders && key in s.receipts
    ensures var t := Run(s, Faultless(s, key, digest, d));
      && |t.attempts| == |s.attempts| + 1 && t.receipts == s.receipts && t.effects == s.effects
      && Last(t).stage == (if s.receipts[key] == digest then Done(Duplicate) else Failing(Conflict, false))
  {
    var a := |s.attempts|;
    var steps := Faultless(s, key, digest, d);
    assert steps[..4] == [Arrive(key, digest, d), At(a, Insert), At(a, Read), At(a, Check)];
    ReachesAnswer(s, key, digest, d);
    AnswerCommits(Run(s, steps[..4]), a);
  }

  /** Committing changes nothing for an attempt that found the key known. */
  lemma AnswerCommits(s: State, a: nat)
    requires a < |s.attempts| && !s.attempts[a].aborted
    requires s.attempts[a].stage == Committing(false) || s.attempts[a].stage.Failing?
    ensures var t := Do(s, At(a, Commit(true)));
      && t.receipts == s.receipts && t.effects == s.effects && |t.attempts| == |s.attempts|
      && t.attempts[a].stage == if s.attempts[a].stage.Failing? then s.attempts[a].stage else Done(Duplicate)
  {
  }

  lemma ReachesAnswer(s: State, key: Key, digest: Digest, d: Driver)
    requires key !in s.holders && key in s.receipts
    ensures var a := |s.attempts|;
      var t := Run(s, [Arrive(key, digest, d), At(a, Insert), At(a, Read), At(a, Check)]);
      && t.receipts == s.receipts && t.effects == s.effects && |t.attempts| == a + 1 && !t.attempts[a].aborted
      && t.attempts[a].stage == if s.receipts[key] == digest then Committing(false) else Failing(Conflict, false)
  {
    var a := |s.attempts|;
    RunOfFour(s, Arrive(key, digest, d), At(a, Insert), At(a, Read), At(a, Check));
    StagesOfKnown(s, key, digest, d);
  }

  lemma StagesOfKnown(s: State, key: Key, digest: Digest, d: Driver)
    requires key !in s.holders && key in s.receipts
    ensures var a := |s.attempts|;
      var t := Do(Do(Do(Do(s, Arrive(key, digest, d)), At(a, Insert)), At(a, Read)), At(a, Check));
      && t.receipts == s.receipts && t.effects == s.effects && |t.attempts| == a + 1 && !t.attempts[a].aborted
      && t.attempts[a].stage == if s.receipts[key] == digest then Committing(false) else Failing(Conflict, false)
  {
    var a := |s.attempts|;
    var s1 := Do(s, Arrive(key, digest, d));
    var s2 := Do(s1, At(a, Insert));
    assert s2.attempts[a] == Attempt(key, digest, d, Reading, false)
      && s2.receipts == s.receipts && s2.effects == s.effects;
  }
}
