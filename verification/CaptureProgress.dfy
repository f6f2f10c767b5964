/**
 How far capture can get: from every state of every run, a transaction of the log can be made durable if and only if
 nothing up to it is refused and nothing up to it conflicts.
 */
module CaptureProgress {
  import opened Basics
  import opened Timestamps
  import opened SpoolState
  import opened SpoolCapture
  import opened StateMachines
  import opened Capture
  import opened CaptureRuns
  import opened SessionRuns

  const RECEIVE := InSession(Receive)

  // ----- Our own steps -----

  /** The session's own steps keep the invariant, the log and the slot. */
  lemma {:induction false} OursKeep(cfg: Config, origin: Lsn, s: System, actions: seq<Action>)
    requires SysInv(cfg, origin, s) && ValidatorOk(cfg) && Ours(actions)
    ensures SysInv(cfg, origin, Steps(cfg, s, actions))
    ensures Steps(cfg, s, actions).log == s.log && Steps(cfg, s, actions).slot == s.slot
  {
    if |actions| != 0 {
      var front, a := actions[..|actions| - 1], actions[|actions| - 1];
      OursKeep(cfg, origin, s, front);
      StepKeeps(cfg, origin, Steps(cfg, s, front), a);
      OursMove(cfg, Steps(cfg, s, front), a);
    }
  }

  lemma OursMove(cfg: Config, s: System, a: Action)
    requires Ours([a])
    ensures Do(cfg, s, a).log == s.log && Do(cfg, s, a).slot == s.slot
  {
    assert [a][0] == a;
  }

  lemma TwoSteps(cfg: Config, s: System, a: Action, b: Action)
    ensures Steps(cfg, s, [a, b]) == Do(cfg, Do(cfg, s, a), b)
  {
    OneStep(cfg, s, a);
    StepsPush(cfg, s, [a], b);
    assert [a] + [b] == [a, b];
  }

  lemma OursThen(first: seq<Action>, second: seq<Action>)
    requires Ours(first) && Ours(second)
    ensures Ours(first + second)
  {
  }

  // ----- One item -----

  /** The session once the whole of a clean item is received. */
  ghost function Taken(cfg: Config, item: Item, x: Session): Session {
    Session(x.cursor + 1, 0, IDLE, x.durable, if item.Transaction? then Holding(BatchOf(cfg, item)) else Streaming)
  }

  /** The session is in the middle of a clean item. */
  ghost predicate Midway(cfg: Config, s: System, x: Session) {
    && s.session == Some(x) && x.phase.Streaming? && x.cursor < |s.log|
    && s.log[x.cursor].WellFormed() && Clean(cfg, s.log[x.cursor])
    && x.offset < |s.log[x.cursor].Wire()| && Fed(cfg, s.log[x.cursor].Wire(), x.offset) == Some(x.machine)
  }

  lemma CleanStep(cfg: Config, item: Item, n: nat)
    requires item.WellFormed() && Clean(cfg, item) && n < |item.Wire()| && Fed(cfg, item.Wire(), n).Some?
    requires ValidatorOk(cfg)
    ensures var step := Consume(cfg, Fed(cfg, item.Wire(), n).value, item.Wire()[n]);
      && !step.Fail? && Fed(cfg, item.Wire(), n + 1) == Some(step.machine)
      && (step.Emit? <==> item.Transaction? && n == |item.Wire()| - 1)
      && (step.Emit? ==> step.machine == IDLE && step.batch == BatchOf(cfg, item))
      && (n == |item.Wire()| - 1 ==> step.machine == IDLE)
  {
    StreamTracked(cfg, item.Wire(), n);
    TracksStep(cfg, item.Wire(), n, Fed(cfg, item.Wire(), n).value);
    WireEmits(cfg, item, n);
    if item.Loose? {
      LooseInert(cfg, item);
    }
  }

  lemma ReceiveOne(cfg: Config, s: System, x: Session)
    requires Midway(cfg, s, x) && ValidatorOk(cfg)
    ensures var item := s.log[x.cursor];
      if x.offset + 1 < |item.Wire()| then
        && Fed(cfg, item.Wire(), x.offset + 1).Some?
        && Do(cfg, s, RECEIVE)
           == s.(session := Some(x.(offset := x.offset + 1, machine := Fed(cfg, item.Wire(), x.offset + 1).value)))
      else Do(cfg, s, RECEIVE) == s.(session := Some(Taken(cfg, item, x)))
  {
    CleanStep(cfg, s.log[x.cursor], x.offset);
  }

  /** One message further into the same item. */
  lemma ReceiveMore(cfg: Config, s: System, x: Session) returns (y: Session)
    requires Midway(cfg, s, x) && ValidatorOk(cfg) && x.offset + 1 < |s.log[x.cursor].Wire()|
    ensures Do(cfg, s, RECEIVE) == s.(session := Some(y)) && Midway(cfg, s.(session := Some(y)), y)
    ensures y.cursor == x.cursor && y.offset == x.offset + 1
    ensures Taken(cfg, s.log[x.cursor], y) == Taken(cfg, s.log[x.cursor], x)
  {
    ReceiveOne(cfg, s, x);
    y := x.(offset := x.offset + 1, machine := Fed(cfg, s.log[x.cursor].Wire(), x.offset + 1).value);
  }

  lemma {:induction false} ReceiveRest(cfg: Config, s: System, x: Session) returns (actions: seq<Action>)
    requires Midway(cfg, s, x) && ValidatorOk(cfg)
    ensures Ours(actions) && Steps(cfg, s, actions) == s.(session := Some(Taken(cfg, s.log[x.cursor], x)))
    decreases |s.log[x.cursor].Wire()| - x.offset
  {
    OneStep(cfg, s, RECEIVE);
    if x.offset + 1 < |s.log[x.cursor].Wire()| {
      var y := ReceiveMore(cfg, s, x);
      var rest := ReceiveRest(cfg, s.(session := Some(y)), y);
      StepsThen(cfg, s, [RECEIVE], rest);
      actions := [RECEIVE] + rest;
    } else {
      ReceiveOne(cfg, s, x);
      actions := [RECEIVE];
    }
  }

  // ----- Persisting what is held -----

  /** If adding events to a history makes no conflict, the rows that represent it accept them. */
  lemma CompatibleSplit(rows: seq<EventRow>, past: seq<CapturedEvent>, es: seq<CapturedEvent>)
    requires Represents(rows, past) && Compatible([], past + es, |past + es|)
    ensures Compatible(rows, es, |es|)
  {
    var all := past + es;
    forall j: nat | j < |es| ensures NoConflict(rows, es, j) {
      assert NoConflict([], all, |past| + j) && all[|past| + j] == es[j];
      forall i: nat | i < |rows| && rows[i].Ident() == es[j].Ident() ensures rows[i].event.digest == es[j].digest {
        var m := FirstFrom(past, |past|, i);
        assert SpoolCapture.Holds(rows[i], past[m]) && all[m] == past[m];
      }
      forall i: nat | i < j && es[i].Ident() == es[j].Ident() ensures es[i].digest == es[j].digest {
        assert all[|past| + i] == es[i];
      }
    }
  }

  lemma BatchValid(cfg: Config, item: Item)
    requires item.Transaction? && item.WellFormed() && Clean(cfg, item) && ValidatorOk(cfg)
    ensures AllValid(cfg.hash, BatchOf(cfg, item), |BatchOf(cfg, item).events|)
  {
    var n := |item.Wire()| - 1;
    StreamTracked(cfg, item.Wire(), n);
    CleanStep(cfg, item, n);
    WireEmits(cfg, item, n);
  }

  /** The spool accepts the held transaction. */
  lemma HeldAccepted(cfg: Config, origin: Lsn, s: System, x: Session, clock: nat -> Time)
    requires SysInv(cfg, origin, s) && ValidatorOk(cfg) && s.session == Some(x) && x.phase.Holding?
    requires Conflictless(cfg, s.log, origin, s.log[x.cursor - 1].endLsn)
    ensures var p := Persist(cfg.hash, s.spool, x.phase.batch, clock);
      p.Ok? && p.value.spool.checkpoint == p.value.result.durable == s.log[x.cursor - 1].endLsn
  {
    var item, batch := s.log[x.cursor - 1], x.phase.batch;
    HeldHistory(cfg, origin, s, x);
    CompatibleSplit(s.spool.events, History(cfg, s.log, origin, s.spool.checkpoint, |s.log|), batch.events);
    BatchValid(cfg, item);
    PersistVerdict(cfg.hash, s.spool, batch, clock);
  }

  /** No identity is used for two contents by the transactions that end in (lo, hi]. */
  ghost predicate Conflictless(cfg: Config, log: seq<Item>, lo: Lsn, hi: Lsn) {
    var past := History(cfg, log, lo, hi, |log|);
    Compatible([], past, |past|)
  }

  function Keeping(clock: nat -> Time): seq<Action> {
    [InSession(PersistBatch(clock, true)), InSession(Acknowledge)]
  }

  /** It is persisted and acknowledged. */
  lemma PersistHeld(cfg: Config, origin: Lsn, s: System, x: Session, clock: nat -> Time)
    requires SysInv(cfg, origin, s) && ValidatorOk(cfg) && s.session == Some(x) && x.phase.Holding?
    requires Conflictless(cfg, s.log, origin, s.log[x.cursor - 1].endLsn)
    ensures var t := Steps(cfg, s, Keeping(clock));
      && t.spool.checkpoint == s.log[x.cursor - 1].endLsn
      && t.session == Some(Session(x.cursor, 0, IDLE, t.spool.checkpoint, Streaming))
  {
    HeldAccepted(cfg, origin, s, x, clock);
    TwoSteps(cfg, s, InSession(PersistBatch(clock, true)), InSession(Acknowledge));
    assert x.offset == 0 && x.machine == IDLE;
  }

  // ----- Histories and their beginnings -----

  lemma {:induction false} GatherLonger(parts: seq<seq<CapturedEvent>>, m: nat, n: nat)
    requires m <= n <= |parts|
    ensures Gather(parts, m) <= Gather(parts, n)
    decreases n
  {
    if m < n {
      GatherLonger(parts, m, n - 1);
    }
  }

  /** A lower bound gives a beginning of the history. */
  lemma HistoryBegins(cfg: Config, log: seq<Item>, lo: Lsn, hi: Lsn, hi': Lsn)
    requires LogOk(log) && hi <= hi'
    ensures History(cfg, log, lo, hi, |log|) <= History(cfg, log, lo, hi', |log|)
  {
    var n := FirstPast(log, hi);
    var xs, ys := Shares(cfg, log, lo, hi), Shares(cfg, log, lo, hi');
    forall i | n <= i < |log| ensures xs[i] == [] {
      assert n < i ==> log[n].Position() < log[i].Position();
    }
    assert forall i | 0 <= i < n :: xs[i] == ys[i];
    GatherStops(xs, n, |xs|);
    GatherSame(xs, ys, n);
    GatherLonger(ys, n, |ys|);
  }

  lemma CompatibleBegins(es: seq<CapturedEvent>, all: seq<CapturedEvent>)
    requires es <= all && Compatible([], all, |all|)
    ensures Compatible([], es, |es|)
  {
    forall j: nat | j < |es| ensures NoConflict([], es, j) {
      assert NoConflict([], all, j);
      assert forall i: nat | i <= j :: all[i] == es[i];
    }
  }

  lemma ConflictlessBelow(cfg: Config, log: seq<Item>, lo: Lsn, hi: Lsn, hi': Lsn)
    requires LogOk(log) && hi <= hi' && Conflictless(cfg, log, lo, hi')
    ensures Conflictless(cfg, log, lo, hi)
  {
    HistoryBegins(cfg, log, lo, hi, hi');
    CompatibleBegins(History(cfg, log, lo, hi, |log|), History(cfg, log, lo, hi', |log|));
  }

  // ----- Item by item -----

  /** The session stands at the beginning of item k. */
  ghost predicate AtItem(s: System, k: nat) {
    s.session.Some? && s.session.value.phase.Streaming? && s.session.value.cursor == k && s.session.value.offset == 0
  }

  lemma ReceiveItem(cfg: Config, origin: Lsn, s: System, k: nat) returns (actions: seq<Action>)
    requires SysInv(cfg, origin, s) && ValidatorOk(cfg) && AtItem(s, k) && k < |s.log| && Clean(cfg, s.log[k])
    ensures Ours(actions)
    ensures Steps(cfg, s, actions) == s.(session := Some(Taken(cfg, s.log[k], s.session.value)))
  {
    actions := ReceiveRest(cfg, s, s.session.value);
  }

  lemma TakeItem(cfg: Config, origin: Lsn, s: System, k: nat, clock: nat -> Time) returns (actions: seq<Action>)
    requires SysInv(cfg, origin, s) && ValidatorOk(cfg) && AtItem(s, k) && k < |s.log| && Clean(cfg, s.log[k])
    requires s.log[k].Transaction? ==> Conflictless(cfg, s.log, origin, s.log[k].endLsn)
    ensures Ours(actions) && AtItem(Steps(cfg, s, actions), k + 1)
    ensures s.log[k].Transaction? ==> Steps(cfg, s, actions).spool.checkpoint == s.log[k].endLsn
  {
    actions := ReceiveItem(cfg, origin, s, k);
    if s.log[k].Transaction? {
      var t := Steps(cfg, s, actions);
      OursKeep(cfg, origin, s, actions);
      PersistHeld(cfg, origin, t, t.session.value, clock);
      StepsThen(cfg, s, actions, Keeping(clock));
      OursThen(actions, Keeping(clock));
      actions := actions + Keeping(clock);
    }
  }

  /** Everything from item k to item j can be taken, one after the other. */
  lemma {:induction false} TakeItems(cfg: Config, origin: Lsn, s: System, k: nat, j: nat, clock: nat -> Time)
    returns (actions: seq<Action>)
    requires SysInv(cfg, origin, s) && ValidatorOk(cfg) && AtItem(s, k) && k <= j < |s.log| && s.log[j].Transaction?
    requires (forall i | k <= i <= j :: Clean(cfg, s.log[i])) && Conflictless(cfg, s.log, origin, s.log[j].endLsn)
    ensures Ours(actions) && Steps(cfg, s, actions).spool.checkpoint == s.log[j].endLsn
    decreases j - k
  {
    assert k < j ==> s.log[k].Position() < s.log[j].Position();
    ConflictlessBelow(cfg, s.log, origin, s.log[k].Position(), s.log[j].endLsn);
    actions := TakeItem(cfg, origin, s, k, clock);
    if k < j {
      OursKeep(cfg, origin, s, actions);
      var rest := TakeItems(cfg, origin, Steps(cfg, s, actions), k + 1, j, clock);
      StepsThen(cfg, s, actions, rest);
      OursThen(actions, rest);
      actions := actions + rest;
    }
  }

  // ----- How far -----

  /** The session's own steps can bring the checkpoint to the end of item j. */
  ghost predicate CanReach(cfg: Config, s: System, j: nat)
    requires j < |s.log|
  {
    exists actions :: Ours(actions) && Steps(cfg, s, actions).spool.checkpoint >= s.log[j].Position()
  }

  /** Nothing that ends in (origin, end of item j] is refused, and nothing conflicts. */
  ghost predicate Sound(cfg: Config, log: seq<Item>, origin: Lsn, j: nat)
    requires j < |log|
  {
    && (forall i | 0 <= i <= j && origin < log[i].Position() :: Clean(cfg, log[i]))
    && Conflictless(cfg, log, origin, log[j].Position())
  }

  lemma ReachedIsSound(cfg: Config, origin: Lsn, s: System, j: nat, actions: seq<Action>)
    requires SysInv(cfg, origin, s) && ValidatorOk(cfg) && j < |s.log| && Ours(actions)
    requires Steps(cfg, s, actions).spool.checkpoint >= s.log[j].Position()
    ensures Sound(cfg, s.log, origin, j)
  {
    OursKeep(cfg, origin, s, actions);
    SoundBelow(cfg, origin, Steps(cfg, s, actions), j);
  }

  lemma SoundBelow(cfg: Config, origin: Lsn, s: System, j: nat)
    requires LogOk(s.log) && SpoolOk(cfg, origin, s) && j < |s.log| && s.spool.checkpoint >= s.log[j].Position()
    ensures Sound(cfg, s.log, origin, j)
  {
    CleanBelow(cfg, origin, s.log, s.spool.checkpoint, j);
    assert Conflictless(cfg, s.log, origin, s.spool.checkpoint);
    ConflictlessBelow(cfg, s.log, origin, s.log[j].Position(), s.spool.checkpoint);
  }

  lemma CleanBelow(cfg: Config, origin: Lsn, log: seq<Item>, checkpoint: Lsn, j: nat)
    requires LogOk(log) && LogFits(cfg, origin, log, checkpoint) && j < |log| && checkpoint >= log[j].Position()
    ensures forall i | 0 <= i <= j && origin < log[i].Position() :: Clean(cfg, log[i])
  {
    forall i | 0 <= i <= j && origin < log[i].Position() ensures Clean(cfg, log[i]) {
      assert i < j ==> log[i].Position() < log[j].Position();
    }
  }

  /** A new session starts at the first item that is not durable. */
  lemma StartsAtEdge(cfg: Config, origin: Lsn, s: System)
    requires SysInv(cfg, origin, s) && ValidatorOk(cfg) && StartLsn(s.spool.checkpoint, s.slot).Some?
    ensures var t := Steps(cfg, s, [EndSession, Connect]);
      && t.session.Some? && AtItem(t, t.session.value.cursor) && t.spool == s.spool
      && forall i | 0 <= i < |s.log| :: s.log[i].Position() > Edge(origin, s) <==> t.session.value.cursor <= i
  {
    TwoSteps(cfg, s, EndSession, Connect);
    ConnectAtEdge(cfg, origin, s.(session := None));
  }

  lemma SoundIsReached(cfg: Config, origin: Lsn, s: System, j: nat, clock: nat -> Time) returns (actions: seq<Action>)
    requires SysInv(cfg, origin, s) && ValidatorOk(cfg) && StartLsn(s.spool.checkpoint, s.slot).Some?
    requires j < |s.log| && s.log[j].Transaction? && origin < s.log[j].endLsn && Sound(cfg, s.log, origin, j)
    ensures Ours(actions) && Steps(cfg, s, actions).spool.checkpoint >= s.log[j].Position()
  {
    if s.log[j].endLsn <= s.spool.checkpoint {
      actions := [];
    } else {
      actions := [EndSession, Connect];
      StartsAtEdge(cfg, origin, s);
      OursKeep(cfg, origin, s, actions);
      var t := Steps(cfg, s, actions);
      var rest := TakeItems(cfg, origin, t, t.session.value.cursor, j, clock);
      StepsThen(cfg, s, actions, rest);
      OursThen(actions, rest);
      actions := actions + rest;
    }
  }

  /**
   Capture gets as far as it may and no further: after any run, with a slot to start from, the session can bring the
   checkpoint to the end of a transaction past the initial position if and only if no message up to there is refused
   (invalid, misplaced or over a limit) and no identity up to there is used for two contents.
   */
  lemma ReachExactly(cfg: Config, states: seq<System>, actions: seq<Action>, n: nat, j: nat)
    requires IsRun(cfg, states, actions) && SlotsBehind(states, actions) && ValidatorOk(cfg) && n <= |actions|
    requires StartLsn(states[n].spool.checkpoint, states[n].slot).Some? && j < |states[n].log|
    requires states[n].log[j].Transaction? && OriginAt(states, actions, n) < states[n].log[j].endLsn
    ensures CanReach(cfg, states[n], j) <==> Sound(cfg, states[n].log, OriginAt(states, actions, n), j)
  {
    RunKeeps(cfg, states, actions, n);
    var s, origin := states[n], OriginAt(states, actions, n);
    if more :| Ours(more) && Steps(cfg, s, more).spool.checkpoint >= s.log[j].Position() {
      ReachedIsSound(cfg, origin, s, j, more);
    }
    if Sound(cfg, s.log, origin, j) {
      var _ := SoundIsReached(cfg, origin, s, j, (i: nat) => 0);
    }
  }
}
