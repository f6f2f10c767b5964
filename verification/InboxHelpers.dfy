/**
 The two receiver helpers as imperative code: the Go one with its `committed` flag and deferred rollback, and the
 TypeScript one with its `committing` and `discard` flags. Both drive a shared database whose every state is a state
 of the inbox protocol; other attempts take any steps in between.
 */
module InboxHelpers {
  import opened Basics
  import opened Inbox

  /** What surrounds one attempt: the steps of others at each point, and what fails. */
  datatype World = World(
    beforeInsert: seq<Step>, insertOk: bool,
    inCallback: seq<Step>, aborts: bool, callbackOk: bool,
    beforeRead: seq<Step>, readOk: bool,
    beforeCheck: seq<Step>, cancelled: bool, probeOk: bool,
    beforeCommit: seq<Step>, answered: bool,
    beforeRollback: seq<Step>, rollbackOk: bool)

  predicate NoFault(w: World) {
    w.insertOk && !w.aborts && w.callbackOk && w.readOk && !w.cancelled && w.probeOk && w.answered
  }

  /** The key was locked by another attempt at some point of the log past `from`. */
  ghost predicate Blocked(log: seq<Step>, from: nat, key: Key) {
    exists n: nat :: from <= n <= |log| && key in Run(START, log[..n]).holders
  }

  lemma BlockedStays(log: seq<Step>, later: seq<Step>, from: nat, key: Key)
    requires log <= later && Blocked(log, from, key)
    ensures Blocked(later, from, key)
  {
    var n: nat :| from <= n <= |log| && key in Run(START, log[..n]).holders;
    assert later[..n] == log[..n];
  }

  /** The step made something visible to others. */
  ghost predicate Commits(s: State, step: Step) {
    Do(s, step).receipts != s.receipts || Do(s, step).effects != s.effects
  }

  /** How many steps of attempt `me` did. */
  ghost function CommitsOf(log: seq<Step>, me: nat): nat {
    if |log| == 0 then 0
    else
      var front, step := log[..|log| - 1], log[|log| - 1];
      CommitsOf(front, me) + if step.At? && step.id == me && Commits(Run(START, front), step) then 1 else 0
  }

  lemma CommitsPush(log: seq<Step>, step: Step, me: nat)
    ensures CommitsOf(log + [step], me)
      == CommitsOf(log, me) + if step.At? && step.id == me && Commits(Run(START, log), step) then 1 else 0
  {
    assert (log + [step])[..|log|] == log;
  }

  predicate OfOther(step: Step, me: nat) {
    step.At? ==> step.id != me
  }

  lemma OthersLeaveAlone(s: State, step: Step, me: nat)
    requires me < |s.attempts| && OfOther(step, me)
    ensures |s.attempts| <= |Do(s, step).attempts| && Do(s, step).attempts[me] == s.attempts[me]
  {
    match step
    case Arrive(_, _, _) =>
    case At(a, event) =>
      if a < |s.attempts| {
        OnlyOneMoves(s, a, event);
      }
  }

  lemma BreakStep(s: State, me: nat)
    requires me < |s.attempts| && s.attempts[me].stage.Claiming?
    ensures Do(s, At(me, Break)) == s.(attempts := s.attempts[me := s.attempts[me].(stage := Failing(Errored, false))])
  {
  }

  lemma InsertStep(s: State, me: nat)
    requires me < |s.attempts| && s.attempts[me].stage.Claiming? && s.attempts[me].key !in s.holders
    ensures var t, x := Do(s, At(me, Insert)), s.attempts[me];
      && t.receipts == s.receipts && t.effects == s.effects
      && t.attempts == s.attempts[me := x.(stage := if x.key in s.receipts then Reading else InCallback)]
  {
  }

  class Database {
    var state: State
    ghost var log: seq<Step>

    ghost predicate Valid()
      reads this
    {
      state == Run(START, log)
    }

    constructor ()
      ensures Valid() && log == []
    {
      state := START;
      log := [];
    }

    method Perform(step: Step)
      requires Valid()
      modifies this
      ensures Valid() && log == old(log) + [step] && state == Do(old(state), step)
      ensures forall me: nat ::
        CommitsOf(log, me)
          == CommitsOf(old(log), me) + if step.At? && step.id == me && Commits(old(state), step) then 1 else 0
    {
      state := Do(state, step);
      log := log + [step];
      assert log[..|log| - 1] == old(log);
      forall me: nat {
        CommitsPush(old(log), step, me);
      }
    }

    /** Other attempts run for a while. */
    method Interleave(me: nat, steps: seq<Step>)
      requires Valid() && me < |state.attempts|
      modifies this
      ensures Valid() && old(log) <= log && CommitsOf(log, me) == CommitsOf(old(log), me)
      ensures me < |state.attempts| && state.attempts[me] == old(state.attempts[me])
    {
      for i := 0 to |steps|
        invariant Valid() && old(log) <= log && CommitsOf(log, me) == CommitsOf(old(log), me)
        invariant me < |state.attempts| && state.attempts[me] == old(state.attempts[me])
      {
        if OfOther(steps[i], me) {
          OthersLeaveAlone(state, steps[i], me);
          Perform(steps[i]);
        }
      }
    }

    /** Inserts the receipt unless the key has one: rows inserted, or -1 when the statement failed or waited in vain. */
    method Insert(me: nat, ok: bool) returns (n: int)
      requires Valid() && me < |state.attempts| && state.attempts[me].stage.Claiming?
      modifies this
      ensures Valid() && old(log) <= log && me < |state.attempts| && CommitsOf(log, me) == CommitsOf(old(log), me)
      ensures SameDelivery(state.attempts[me], old(state.attempts[me]))
      ensures state.attempts[me].aborted == old(state.attempts[me].aborted)
      ensures n == -1 ==>
        state.attempts[me].stage == Failing(Errored, false) && (ok ==> old(state.attempts[me].key in state.holders))
      ensures n != -1 ==>
        ok && (n == 0 || n == 1) && state.attempts[me].stage == (if n == 1 then InCallback else Reading)
    {
      var key := state.attempts[me].key;
      if !ok || key in state.holders {
        BreakStep(state, me);
        Perform(At(me, Break));
        return -1;
      }
      InsertStep(state, me);
      Perform(At(me, Event.Insert));
      return if state.attempts[me].stage.InCallback? then 1 else 0;
    }

    /** The callback ends, perhaps after one of its statements failed. */
    method EndCallback(me: nat, aborts: bool, ok: bool)
      requires Valid() && me < |state.attempts| && state.attempts[me].stage.InCallback?
      modifies this
      ensures Valid() && old(log) <= log && me < |state.attempts| && CommitsOf(log, me) == CommitsOf(old(log), me)
      ensures state.attempts[me] == old(state.attempts[me]).(
        stage := if ok then Checking(true) else Failing(Errored, true),
        aborted := aborts || old(state.attempts[me].aborted))
    {
      if aborts {
        Perform(At(me, Abort));
      }
      Perform(At(me, Return(ok)));
    }

    /** Reads the receipt under a shared lock and compares the digests. */
    method Compare(me: nat, ok: bool) returns (failure: Option<Failure>)
      requires Valid() && me < |state.attempts| && state.attempts[me].stage.Reading?
      modifies this
      ensures Valid() && old(log) <= log && me < |state.attempts| && CommitsOf(log, me) == CommitsOf(old(log), me)
      ensures state.attempts[me] == old(state.attempts[me]).(
        stage := if failure == None then Checking(false) else Failing(failure.value, false))
      ensures ok <==> failure != Some(Errored)
    {
      Perform(At(me, if ok then Read else Break));
      return if state.attempts[me].stage.Failing? then Some(state.attempts[me].stage.why) else None;
    }

    /** The last test before COMMIT: it fails if it cannot be made, or the driver probes an aborted transaction. */
    method Probe(me: nat, ok: bool) returns (passed: bool)
      requires Valid() && me < |state.attempts| && state.attempts[me].stage.Checking?
      modifies this
      ensures Valid() && old(log) <= log && me < |state.attempts| && CommitsOf(log, me) == CommitsOf(old(log), me)
      ensures passed == (ok && !(state.attempts[me].driver.probes && state.attempts[me].aborted))
      ensures var claimed := old(state.attempts[me]).stage.claimed;
        state.attempts[me]
          == old(state.attempts[me]).(stage := if passed then Committing(claimed) else Failing(Errored, claimed))
    {
      Perform(At(me, if ok then Check else Break));
      return state.attempts[me].stage.Committing?;
    }

    /** COMMIT; `accepted` is what the driver makes of the answer. */
    method SendCommit(me: nat, answered: bool) returns (accepted: bool)
      requires Valid() && me < |state.attempts| && state.attempts[me].stage.Committing?
      modifies this
      ensures Valid() && old(log) <= log && me < |state.attempts|
      ensures CommitsOf(log, me) == CommitsOf(old(log), me)
        + if answered && old(state.attempts[me].stage.claimed && !state.attempts[me].aborted) then 1 else 0
      ensures accepted == (answered && !(state.attempts[me].aborted && state.attempts[me].driver.checksTag))
      ensures var claimed := old(state.attempts[me]).stage.claimed;
        state.attempts[me] == old(state.attempts[me]).(
          stage := if accepted then Done(Success(claimed))
            else if answered then Done(Failed(Errored)) else Lingering(claimed))
    {
      Perform(At(me, Commit(answered)));
      return state.attempts[me].stage.Done? && !state.attempts[me].stage.result.Failed?;
    }

    method RollBack(me: nat, ok: bool)
      requires Valid() && me < |state.attempts|
      modifies this
      ensures Valid() && old(log) <= log && me < |state.attempts| && CommitsOf(log, me) == CommitsOf(old(log), me)
      ensures state.attempts[me] ==
        if ok && old(state.attempts[me]).stage.Failing?
          then old(state.attempts[me]).(stage := Done(Failed(old(state.attempts[me]).stage.why)))
        else old(state.attempts[me])
    {
      if ok {
        Perform(At(me, Rollback));
      }
    }
  }

  /**
   The statements both helpers start with: insert, then either the callback or the comparison. Returns whether the
   insert took the key, or why the helper gives up.
   */
  method Claim(db: Database, me: nat, w: World) returns (claimed: bool, failure: Option<Failure>)
    requires db.Valid() && me < |db.state.attempts|
    requires db.state.attempts[me].stage.Claiming? && !db.state.attempts[me].aborted
    modifies db
    ensures db.Valid() && old(db.log) <= db.log && me < |db.state.attempts|
    ensures CommitsOf(db.log, me) == CommitsOf(old(db.log), me)
    ensures SameDelivery(db.state.attempts[me], old(db.state.attempts[me]))
    ensures db.state.attempts[me].stage == if failure == None then Checking(claimed)
      else Failing(failure.value, claimed)
    ensures db.state.attempts[me].aborted == (claimed && w.aborts)
    ensures failure == None ==> w.insertOk && if claimed then w.callbackOk else w.readOk
    ensures failure == Some(Errored) ==> !NoFault(w) || Blocked(db.log, |old(db.log)|, db.state.attempts[me].key)
  {
    db.Interleave(me, w.beforeInsert);
    ghost var atInsert := db.log;
    var n := db.Insert(me, w.insertOk);
    claimed := n == 1;
    if n == -1 {
      assert w.insertOk ==> db.log[..|atInsert|] == atInsert;
      return false, Some(Errored);
    }
    if n == 1 {
      failure := RunCallback(db, me, w);
    } else {
      failure := ReadReceipt(db, me, w);
    }
  }

  /** The new delivery: the callback runs, and an error it returns is the helper's. */
  method RunCallback(db: Database, me: nat, w: World) returns (failure: Option<Failure>)
    requires db.Valid() && me < |db.state.attempts| && db.state.attempts[me].stage.InCallback?
    modifies db
    ensures db.Valid() && old(db.log) <= db.log && me < |db.state.attempts|
    ensures CommitsOf(db.log, me) == CommitsOf(old(db.log), me)
    ensures failure == if w.callbackOk then None else Some(Errored)
    ensures db.state.attempts[me] == old(db.state.attempts[me]).(
      stage := if w.callbackOk then Checking(true) else Failing(Errored, true),
      aborted := w.aborts || old(db.state.attempts[me].aborted))
  {
    db.Interleave(me, w.inCallback);
    db.EndCallback(me, w.aborts, w.callbackOk);
    failure := if w.callbackOk then None else Some(Errored);
  }

  /** The known key: its receipt is read and compared. */
  method ReadReceipt(db: Database, me: nat, w: World) returns (failure: Option<Failure>)
    requires db.Valid() && me < |db.state.attempts| && db.state.attempts[me].stage.Reading?
    modifies db
    ensures db.Valid() && old(db.log) <= db.log && me < |db.state.attempts|
    ensures CommitsOf(db.log, me) == CommitsOf(old(db.log), me)
    ensures w.readOk <==> failure != Some(Errored)
    ensures db.state.attempts[me] == old(db.state.attempts[me]).(
      stage := if failure == None then Checking(false) else Failing(failure.value, false))
  {
    db.Interleave(me, w.beforeRead);
    failure := db.Compare(me, w.readOk);
  }

  /** The statements both helpers end with, when nothing failed: the last test and COMMIT. */
  method Conclude(db: Database, me: nat, ok: bool, w: World) returns (sent: bool, accepted: bool)
    requires db.Valid() && me < |db.state.attempts| && db.state.attempts[me].stage.Checking?
    modifies db
    ensures db.Valid() && old(db.log) <= db.log && me < |db.state.attempts|
    ensures var x := old(db.state.attempts[me]);
      && CommitsOf(db.log, me) == CommitsOf(old(db.log), me)
           + (if sent && w.answered && x.stage.claimed && !x.aborted then 1 else 0)
      && db.state.attempts[me]
          == x.(stage := if accepted then Done(Success(x.stage.claimed)) else db.state.attempts[me].stage)
      && sent == (ok && !(x.driver.probes && x.aborted))
      && accepted == (sent && w.answered && !(x.driver.checksTag && x.aborted))
      && (!sent ==> db.state.attempts[me].stage == Failing(Errored, x.stage.claimed))
      && (sent && !accepted ==> db.state.attempts[me].stage == if w.answered then Done(Failed(Errored))
             else Lingering(x.stage.claimed))
  {
    accepted := false;
    db.Interleave(me, w.beforeCheck);
    sent := db.Probe(me, ok);
    if sent {
      db.Interleave(me, w.beforeCommit);
      accepted := db.SendCommit(me, w.answered);
    }
  }

  /** The rollback of an attempt that did not commit. */
  method CleanUp(db: Database, me: nat, w: World)
    requires db.Valid() && me < |db.state.attempts|
    modifies db
    ensures db.Valid() && old(db.log) <= db.log && me < |db.state.attempts|
    ensures CommitsOf(db.log, me) == CommitsOf(old(db.log), me)
    ensures db.state.attempts[me].stage.Lingering? <==> old(db.state.attempts[me].stage.Lingering?)
    ensures SameDelivery(db.state.attempts[me], old(db.state.attempts[me]))
    ensures Report(db.state.attempts[me].stage) == Report(old(db.state.attempts[me].stage))
    ensures w.rollbackOk && !old(db.state.attempts[me].stage.Lingering?) ==>
      (Report(db.state.attempts[me].stage) != None ==> db.state.attempts[me].stage.Done?)
  {
    db.Interleave(me, w.beforeRollback);
    db.RollBack(me, w.rollbackOk);
  }

  /**
   What both helpers promise: `r` is what attempt `me` reports, and an error has a reason. The attempt has committed
   something exactly if it reports that it processed the delivery, for which the callback must have succeeded; only a
   COMMIT without an answer may still do so later.
   */
  twostate predicate Answered(db: Database, me: nat, w: World, r: Result)
    requires me < |old(db.state.attempts)|
    reads db
  {
    && db.Valid() && old(db.log) <= db.log && me < |db.state.attempts|
    && SameDelivery(db.state.attempts[me], old(db.state.attempts[me]))
    && Report(db.state.attempts[me].stage) == Some(r)
    && (r == Failed(Errored) ==> !NoFault(w) || Blocked(db.log, |old(db.log)|, db.state.attempts[me].key))
    && CommitsOf(db.log, me) == CommitsOf(old(db.log), me) + (if r == Processed then 1 else 0)
    && (db.state.attempts[me].stage.Lingering? ==> !w.answered)
    && (r == Processed ==> w.insertOk && w.callbackOk && !w.aborts && w.answered)
    && (r == Duplicate ==> w.insertOk && w.readOk && w.answered)
  }

  /**
   The Go helper after BEGIN. What it returns is what attempt `me` of the protocol reports, so it is truthful, and
   without a fault or a lock it does not return an error of its own.
   */
  method RunInbox(db: Database, me: nat, w: World) returns (r: Result)
    requires db.Valid() && me < |db.state.attempts|
    requires db.state.attempts[me].stage.Claiming?
    requires !db.state.attempts[me].aborted && db.state.attempts[me].driver.probes
    modifies db
    ensures Answered(db, me, w, r) && Truthful(db.state, me)
    ensures w.rollbackOk && w.answered ==> db.state.attempts[me].stage == Done(r)
    ensures !r.Failed? ==> !w.cancelled && w.probeOk
  {
    var committed := false;
    var claimed, failure := Claim(db, me, w);
    ghost var log := db.log;
    if failure == None {
      var _, accepted := Conclude(db, me, !w.cancelled && w.probeOk, w);
      committed := accepted;
    }
    if !committed {
      CleanUp(db, me, w);
    }
    r := if committed then Success(claimed) else if failure == None then Failed(Errored) else Failed(failure.value);
    if failure == Some(Errored) && NoFault(w) {
      BlockedStays(log, db.log, |old(db.log)|, db.state.attempts[me].key);
    }
    InboxAtomicity(db.log, me);
  }

  /**
   The TypeScript helper after checkout. Besides being truthful, it hands the connection back for reuse only when
   its transaction is over on the server.
   */
  method WithInbox(db: Database, me: nat, w: World) returns (r: Result, discard: bool)
    requires db.Valid() && me < |db.state.attempts|
    requires db.state.attempts[me].stage.Claiming? && !db.state.attempts[me].aborted
    requires db.state.attempts[me].driver == TYPESCRIPT
    modifies db
    ensures Answered(db, me, w, r) && Truthful(db.state, me)
    ensures !discard ==> db.state.attempts[me].stage == Done(r)
    ensures discard ==> r.Failed? && !(w.rollbackOk && w.answered && !w.aborts)
  {
    discard := false;
    var committing, committed := false, false;
    var claimed, failure := Claim(db, me, w);
    ghost var log := db.log;
    if failure == None {
      committing := true;
      var _, accepted := Conclude(db, me, true, w);
      committed := accepted;
    }
    if !committed {
      discard := committing;
      CleanUp(db, me, w);
      if !w.rollbackOk {
        discard := true;
      }
    }
    r := if committed then Success(claimed) else if failure == None then Failed(Errored) else Failed(failure.value);
    if failure == Some(Errored) && NoFault(w) {
      BlockedStays(log, db.log, |old(db.log)|, db.state.attempts[me].key);
    }
    InboxAtomicity(db.log, me);
  }
}
