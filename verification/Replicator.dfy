/** The replicator: one replication session, from the start position to the error that ends it. */
module Replication {
  import opened Basics
  import opened Timestamps
  import opened SpoolState
  import opened SpoolCapture
  import opened SpoolRuns
  import opened SqliteStore
  import opened StateMachines
  import opened DiskGuard
  import Capture

  /** What one receive returns. */
  datatype Incoming =
    | Timeout
    | Keepalive(replyRequested: bool, serverWalEnd: Lsn)
    | Data(msg: Message)
    | BadFrame         // a frame that does not parse
    | Undecodable      // WAL data that is not pgoutput
    | Irrelevant       // not copy data, or empty
    | Disconnected     // a receive error, or cancellation

  /**
   One turn of the session loop with everything the environment decides in it. `others` is what other parts of the
   system do to the spool since the last turn, at the latest before this one persists a batch.
   */
  datatype Turn = Turn(
    others: seq<Op>, check: Call, incoming: Incoming, forced: Call, clock: nat -> Time, commitOk: bool, sendOk: bool)

  /** Why a session ended. */
  datatype SessionEnd =
    | Paused
    | NoStart
    | Interrupted
    | SendFailed
    | Refused(error: CaptureError)
    | Rejected(cause: Error)
    | OutOfInput

  // ----- Messages received and batches they complete -----

  function Received(turns: seq<Turn>, n: nat): seq<Message>
    requires n <= |turns|
  {
    if n == 0 then []
    else Received(turns, n - 1) + if turns[n - 1].incoming.Data? then [turns[n - 1].incoming.msg] else []
  }

  /** The batches completed by the first n messages. */
  ghost function Completed(cfg: Config, msgs: seq<Message>, n: nat): seq<CommittedBatch>
    requires n <= |msgs|
  {
    if n == 0 then []
    else
      var before := Fed(cfg, msgs, n - 1);
      Completed(cfg, msgs, n - 1) +
      if before.Some? && Consume(cfg, before.value, msgs[n - 1]).Emit?
      then [Consume(cfg, before.value, msgs[n - 1]).batch] else []
  }

  /** The batches completed in the first n turns. */
  ghost function CompletedIn(cfg: Config, turns: seq<Turn>, n: nat): seq<CommittedBatch>
    requires n <= |turns|
  {
    Completed(cfg, Received(turns, n), |Received(turns, n)|)
  }

  lemma {:induction false} FedPrefix(cfg: Config, msgs: seq<Message>, msg: Message, n: nat)
    requires n <= |msgs|
    ensures Fed(cfg, msgs + [msg], n) == Fed(cfg, msgs, n) && Completed(cfg, msgs + [msg], n) == Completed(cfg, msgs, n)
  {
    if n != 0 {
      FedPrefix(cfg, msgs, msg, n - 1);
    }
  }

  /** One more message: what the machine becomes and which batch it completes. */
  lemma FedAppend(cfg: Config, msgs: seq<Message>, msg: Message)
    requires Fed(cfg, msgs, |msgs|).Some?
    ensures var m := Fed(cfg, msgs, |msgs|).value;
      var all, step := msgs + [msg], Consume(cfg, m, msg);
      && Fed(cfg, all, |all|) == (if step.Fail? then None else Some(step.machine))
      && Completed(cfg, all, |all|) == Completed(cfg, msgs, |msgs|) + if step.Emit? then [step.batch] else []
  {
    FedPrefix(cfg, msgs, msg, |msgs|);
  }

  class Replicator {
    const cfg: Config
    const store: Store
    const disk: Guard
    /** Every position sent to the server, in order. */
    var acks: seq<Lsn>

    constructor (cfg: Config, store: Store, disk: Guard)
      ensures this.cfg == cfg && this.store == store && this.disk == disk && acks == []
    {
      this.cfg, this.store, this.disk, acks := cfg, store, disk, [];
    }

    ghost predicate Valid()
      reads this, store, disk
    {
      store.Valid() && store.hash == cfg.hash && disk.Valid()
    }

    /** sendStandbyStatus: write, flush and apply all report the same position. */
    method SendStandbyStatus(durable: Lsn, sendOk: bool) returns (ok: bool)
      modifies this
      ensures ok == sendOk && acks == if sendOk then old(acks) + [durable] else old(acks)
    {
      if sendOk {
        acks := acks + [durable];
      }
      ok := sendOk;
    }

    /** persistThenAcknowledge: nothing is sent unless the batch is durable, and then exactly the checkpoint is. */
    method PersistThenAcknowledge(batch: CommittedBatch, clock: nat -> Time, commitOk: bool, sendOk: bool)
      returns (result: Outcome<PersistResult>, sent: bool)
      requires Valid()
      modifies this, store
      ensures Valid()
      ensures var spec := Persist(cfg.hash, old(store.View()), batch, clock);
        if spec.Ok? && commitOk then
          && store.View() == spec.value.spool && result == Ok(spec.value.result)
          && sent == sendOk
          && acks == (if sendOk then old(acks) + [store.checkpoint] else old(acks))
          && batch.commit.commitEndLsn <= store.checkpoint
        else
          && store.View() == old(store.View()) && acks == old(acks) && !sent
          && result == Err(if spec.Ok? then Durability else spec.error)
    {
      PersistVerdict(cfg.hash, store.View(), batch, clock);
      result := store.PersistCommittedBatch(batch, clock, commitOk);
      if result.Err? {
        return result, false;
      }
      if result.value.durable < batch.commit.commitEndLsn {
        assert false;
      }
      sent := SendStandbyStatus(result.value.durable, sendOk);
    }

    /** The final, forced disk check comes after the commit is decoded and before any write or acknowledgment. */
    method PersistBatch(batch: CommittedBatch, turn: Turn)
      returns (result: Outcome<PersistResult>, sent: bool, paused: bool)
      requires Valid() && turn.forced.force
      modifies this, store, disk
      ensures Valid()
      ensures paused == !Admits(disk.cfg, old(disk.status), turn.forced)
      ensures paused ==> disk.status.paused
      ensures disk.calls == old(disk.calls) + [turn.forced]
      ensures !paused ==> AdmittedAt(disk.cfg, disk.calls, |old(disk.calls)|)
      ensures !paused ==> EnoughSpace(disk.cfg, turn)
      ensures paused ==> store.View() == old(store.View()) && acks == old(acks)
      ensures var spec := Persist(cfg.hash, old(store.View()), batch, turn.clock);
        !paused ==>
          if spec.Ok? && turn.commitOk then
            && store.View() == spec.value.spool && result == Ok(spec.value.result) && sent == turn.sendOk
            && acks == (if sent then old(acks) + [store.checkpoint] else old(acks))
          else
            && store.View() == old(store.View()) && acks == old(acks)
            && result == Err(if spec.Ok? then Durability else spec.error)
    {
      var ok := disk.Check(turn.forced);
      if !ok {
        return Err(Durability), false, true;
      }
      result, sent := PersistThenAcknowledge(batch, turn.clock, turn.commitOk, turn.sendOk);
      paused := false;
    }

    /** One decoded message: feed the machine and, on a commit, persist and acknowledge. */
    method HandleData(machine: StateMachine, msg: Message, turn: Turn)
      returns (end: Option<SessionEnd>, done: Option<CommittedBatch>)
      requires Valid() && turn.forced.force && machine.cfg == cfg
      modifies this, store, disk, machine
      ensures Valid()
      ensures DataPost(cfg, old(machine.View()), msg, turn, old(store.View()), old(acks),
                       machine.View(), store.View(), acks, end, done)
      ensures done.Some? ==> EnoughSpace(disk.cfg, turn)
      ensures end == Some(Paused) ==> disk.status.paused
      ensures end == Some(Paused) <==>
        Consume(cfg, old(machine.View()), msg).Emit? && !Admits(disk.cfg, old(disk.status), turn.forced)
      ensures Calling(disk.cfg, old(disk.calls), disk.calls, done)
    {
      var batch, err := machine.ConsumeMessage(msg);
      if err.Some? {
        return Some(Refused(err.value)), None;
      }
      if batch.None? {
        return None, None;
      }
      var result, sent, paused := PersistBatch(batch.value, turn);
      if paused {
        return Some(Paused), None;
      }
      if result.Err? {
        return Some(Rejected(result.error)), None;
      }
      return if sent then None else Some(SendFailed), batch;
    }

    /** One turn of the loop: the routine disk check, then whatever was received. */
    method TakeTurn(machine: StateMachine, turn: Turn, durable: Lsn)
      returns (end: Option<SessionEnd>, done: Option<CommittedBatch>)
      requires Valid() && turn.forced.force && machine.cfg == cfg
      modifies this, store, disk, machine
      ensures Valid()
      ensures TurnPost(cfg, disk.cfg, turn, durable,
                       old(machine.View()), RunOps(cfg.hash, old(store.View()), turn.others), old(acks),
                       machine.View(), store.View(), acks, end, done)
      ensures end == Some(Paused) ==> disk.status.paused
      ensures end == Some(Paused) <==> Pauses(cfg, disk.cfg, old(disk.status), turn, old(machine.View()))
      ensures end != Some(OutOfInput) && end != Some(NoStart)
      ensures Calling(disk.cfg, old(disk.calls), disk.calls, done)
    {
      store.OthersWork(turn.others);
      var ok := disk.Check(turn.check);
      if !ok {
        machine.Reset();
        return Some(Paused), None;
      }
      match turn.incoming {
        case Timeout =>
          ok := SendStandbyStatus(durable, turn.sendOk);
          if !ok {
            machine.Reset();
            return Some(SendFailed), None;
          }
        case Keepalive(replyRequested, _) =>
          if replyRequested {
            ok := SendStandbyStatus(durable, turn.sendOk);
            if !ok {
              return Some(SendFailed), None;
            }
          }
        case Data(msg) =>
          end, done := HandleData(machine, msg, turn);
          return;
        case BadFrame => return Some(Interrupted), None;
        case Undecodable => return Some(Refused(ProtocolState)), None;
        case Irrelevant =>
        case Disconnected =>
          machine.Reset();
          return Some(Interrupted), None;
      }
      return None, None;
    }

    /** The receive loop, until something ends the session. `trail` records how each turn left things. */
    method Stream(slot: Capture.Slot, start: Lsn, turns: seq<Turn>)
      returns (end: SessionEnd, persisted: seq<CommittedBatch>, ghost admitted: seq<nat>, ghost trail: seq<Snapshot>)
      requires Valid() && forall i | 0 <= i < |turns| :: turns[i].forced.force
      requires Capture.StartLsn(store.checkpoint, slot) == Some(start)
      modifies this, store, disk
      ensures Valid()
      ensures IsSession(cfg, disk.cfg, turns, old(store.View()), old(acks), start, trail, end)
      ensures persisted == Dones(trail, |trail| - 1) && store.View() == Last(trail).spool && acks == Last(trail).acks
      ensures end == Paused ==> disk.status.paused
      ensures old(disk.calls) <= disk.calls
      ensures Admissions(disk.cfg, disk.calls, |old(disk.calls)|, admitted, |persisted|)
    {
      ghost var calls0, opening := disk.calls, Opening(store.View(), acks, start);
      var durable: Lsn := if store.checkpoint != 0 then store.checkpoint else start;
      persisted, admitted, trail := [], [], [opening];
      var machine := new StateMachine(cfg);
      for i := 0 to |turns|
        invariant Valid() && fresh(machine) && machine.cfg == cfg && |trail| > 0
        invariant Turned(cfg, disk.cfg, turns, opening, trail, i, persisted)
        invariant Last(trail) == Snapshot(machine.View(), store.View(), acks, durable, None, Last(trail).done)
        invariant calls0 <= disk.calls && Admissions(disk.cfg, disk.calls, |calls0|, admitted, |persisted|)
      {
        var stop;
        stop, persisted, durable, admitted, trail :=
          TakeNextTurn(machine, turns, i, persisted, durable, opening, |calls0|, admitted, trail);
        if stop.Some? {
          return stop.value, persisted, admitted, trail;
        }
      }
      end := OutOfInput;
    }

    /** One turn, and the record of it. */
    method TakeNextTurn(machine: StateMachine, turns: seq<Turn>, i: nat, persisted: seq<CommittedBatch>, durable: Lsn,
                        ghost opening: Snapshot, ghost first: nat, ghost admitted: seq<nat>, ghost trail: seq<Snapshot>)
      returns (stop: Option<SessionEnd>, persisted': seq<CommittedBatch>, durable': Lsn,
               ghost admitted': seq<nat>, ghost trail': seq<Snapshot>)
      requires Valid() && machine.cfg == cfg && i < |turns| && turns[i].forced.force
      requires |trail| > 0 && Turned(cfg, disk.cfg, turns, opening, trail, i, persisted)
      requires Last(trail) == Snapshot(machine.View(), store.View(), acks, durable, None, Last(trail).done)
      requires first <= |disk.calls| && Admissions(disk.cfg, disk.calls, first, admitted, |persisted|)
      modifies this, store, disk, machine
      ensures Valid() && |trail'| > 0
      ensures Turned(cfg, disk.cfg, turns, opening, trail', i + 1, persisted')
      ensures Last(trail') == Snapshot(machine.View(), store.View(), acks, durable', stop, Last(trail').done)
      ensures old(disk.calls) <= disk.calls && Admissions(disk.cfg, disk.calls, first, admitted', |persisted'|)
      ensures stop == Some(Paused) ==> disk.status.paused
      ensures stop != Some(OutOfInput) && stop != Some(NoStart)
    {
      ghost var calls, before := disk.calls, Last(trail);
      var done;
      stop, done := TakeTurn(machine, turns[i], durable);
      admitted' := Admitting(disk.cfg, first, calls, disk.calls, admitted, |persisted|, done);
      persisted' := if done.Some? then persisted + [done.value] else persisted;
      durable' := if done.Some? then store.checkpoint else durable;
      ghost var next := Snapshot(machine.View(), store.View(), acks, durable', stop, done);
      assert Follows(cfg, disk.cfg, turns[i], before, next);
      TurnedMore(cfg, disk.cfg, turns, opening, trail, i, persisted, next);
      trail' := trail + [next];
    }

    /** runOnce. `initial` is the disk check before connecting; the slot is what the server reports. */
    method RunOnce(slot: Capture.Slot, initial: Call, turns: seq<Turn>)
      returns (end: SessionEnd, persisted: seq<CommittedBatch>, ghost admitted: seq<nat>, ghost trail: seq<Snapshot>)
      requires Valid() && initial.force && forall i | 0 <= i < |turns| :: turns[i].forced.force
      modifies this, store, disk
      ensures Valid()
      ensures Ran(Setup(cfg, disk.cfg, slot, turns, old(store.View()), old(acks)),
                  store.View(), acks, persisted, trail, end)
      ensures SessionPost(Setup(cfg, disk.cfg, slot, turns, old(store.View()), old(acks)),
                          store.View(), acks, persisted, trail, end)
      ensures end == Paused ==> disk.status.paused
      ensures old(disk.calls) <= disk.calls
      ensures Admissions(disk.cfg, disk.calls, |old(disk.calls)|, admitted, |persisted|)
      ensures var admits := Admits(disk.cfg, old(disk.status), initial);
        && (trail == [] <==> !admits || Capture.StartLsn(old(store.checkpoint), slot) == None)
        && (trail == [] ==> end == if admits then NoStart else Paused)
      ensures old(disk.status.paused) && disk.cfg.pauseBelow > 0 && persisted != [] ==>
        initial.probe.Some? && initial.probe.value >= Max(disk.cfg.pauseBelow, disk.cfg.resumeAt)
    {
      persisted, admitted, trail := [], [], [];
      var ok := disk.Check(initial);
      ghost var u := Setup(cfg, disk.cfg, slot, turns, store.View(), acks);
      if !ok {
        SessionIdle(u, Paused);
        return Paused, [], [], [];
      }
      var start := Capture.StartLsn(store.checkpoint, slot);
      if start.None? {
        SessionIdle(u, NoStart);
        return NoStart, [], [], [];
      }
      end, persisted, admitted, trail := Stream(slot, start.value, turns);
      SessionRecorded(u, start.value, trail, end);
      assert Admissions(disk.cfg, disk.calls, |old(disk.calls)|, admitted, |persisted|);
    }
  }

  // ----- Sessions as trails -----

  /** How a turn left the machine, the spool, the acknowledgments and the position to report, and what it did. */
  datatype Snapshot = Snapshot(machine: Machine, spool: Spool, acks: seq<Lsn>, durable: Lsn,
                               end: Option<SessionEnd>, done: Option<CommittedBatch>)

  function Opening(s: Spool, acks: seq<Lsn>, start: Lsn): Snapshot {
    Snapshot(IDLE, s, acks, if s.checkpoint != 0 then s.checkpoint else start, None, None)
  }

  /** The spool after what others did to it. */
  function Worked(cfg: Config, turn: Turn, a: Snapshot): Snapshot {
    a.(spool := RunOps(cfg.hash, a.spool, turn.others))
  }

  ghost predicate Follows(cfg: Config, disk: GuardConfig, turn: Turn, a: Snapshot, b: Snapshot) {
    Turns(cfg, disk, turn, Worked(cfg, turn, a), b)
  }

  /** What the turn itself did. */
  ghost predicate Turns(cfg: Config, disk: GuardConfig, turn: Turn, a: Snapshot, b: Snapshot) {
    && a.end.None?
    && TurnPost(cfg, disk, turn, a.durable, a.machine, a.spool, a.acks, b.machine, b.spool, b.acks, b.end, b.done)
    && b.durable == if b.done.Some? then b.spool.checkpoint else a.durable
  }

  ghost predicate IsTrail(cfg: Config, disk: GuardConfig, turns: seq<Turn>, trail: seq<Snapshot>) {
    0 < |trail| <= |turns| + 1 && forall i: nat | i < |trail| - 1 :: FollowsAt(cfg, disk, turns, trail, i)
  }

  ghost predicate FollowsAt(cfg: Config, disk: GuardConfig, turns: seq<Turn>, trail: seq<Snapshot>, i: nat)
    requires i < |turns| && i + 1 < |trail|
  {
    Follows(cfg, disk, turns[i], trail[i], trail[i + 1])
  }

  function Last(trail: seq<Snapshot>): Snapshot
    requires |trail| > 0
  {
    trail[|trail| - 1]
  }

  /** The trail of the first n turns, and what they persisted. */
  ghost predicate Turned(cfg: Config, disk: GuardConfig, turns: seq<Turn>, opening: Snapshot, trail: seq<Snapshot>,
                         n: nat, persisted: seq<CommittedBatch>) {
    |trail| == n + 1 && IsTrail(cfg, disk, turns, trail) && trail[0] == opening && persisted == Dones(trail, n)
  }

  lemma TurnedMore(cfg: Config, disk: GuardConfig, turns: seq<Turn>, opening: Snapshot, trail: seq<Snapshot>, n: nat,
                   persisted: seq<CommittedBatch>, next: Snapshot)
    requires Turned(cfg, disk, turns, opening, trail, n, persisted) && n < |turns|
    requires Follows(cfg, disk, turns[n], trail[n], next)
    ensures Turned(cfg, disk, turns, opening, trail + [next], n + 1, persisted + Finished(next))
    ensures next.done.None? ==> persisted + Finished(next) == persisted
  {
    FollowsLast(cfg, disk, turns, trail, next);
    TrailGrows(cfg, disk, turns, trail, next);
    DonesGrow(trail, next);
  }

  lemma FollowsPrefix(cfg: Config, disk: GuardConfig, turns: seq<Turn>, trail: seq<Snapshot>, next: Snapshot, i: nat)
    requires i < |turns| && i + 1 < |trail| && FollowsAt(cfg, disk, turns, trail, i)
    ensures FollowsAt(cfg, disk, turns, trail + [next], i)
  {
    assert (trail + [next])[i] == trail[i] && (trail + [next])[i + 1] == trail[i + 1];
  }

  lemma FollowsLast(cfg: Config, disk: GuardConfig, turns: seq<Turn>, trail: seq<Snapshot>, next: Snapshot)
    requires 0 < |trail| <= |turns| && Follows(cfg, disk, turns[|trail| - 1], Last(trail), next)
    ensures FollowsAt(cfg, disk, turns, trail + [next], |trail| - 1)
  {
    assert (trail + [next])[|trail| - 1] == Last(trail) && (trail + [next])[|trail|] == next;
  }

  lemma TrailGrows(cfg: Config, disk: GuardConfig, turns: seq<Turn>, trail: seq<Snapshot>, next: Snapshot)
    requires IsTrail(cfg, disk, turns, trail) && |trail| <= |turns|
    requires FollowsAt(cfg, disk, turns, trail + [next], |trail| - 1)
    ensures IsTrail(cfg, disk, turns, trail + [next])
  {
    var all := trail + [next];
    forall i: nat | i < |all| - 1 ensures FollowsAt(cfg, disk, turns, all, i) {
      if i < |trail| - 1 {
        FollowsPrefix(cfg, disk, turns, trail, next, i);
      }
    }
  }

  lemma DonesGrow(trail: seq<Snapshot>, next: Snapshot)
    requires |trail| > 0
    ensures Dones(trail + [next], |trail|) == Dones(trail, |trail| - 1) + Finished(next)
  {
    var all, n := trail + [next], |trail|;
    DonesPrefix(trail, next, n - 1);
    assert all[n] == next;
    assert Dones(all, n) == Dones(all, n - 1) + Finished(all[n]);
  }

  function Finished(b: Snapshot): seq<CommittedBatch> {
    if b.done.Some? then [b.done.value] else []
  }

  /** The batches persisted in the first n turns. */
  function Dones(trail: seq<Snapshot>, n: nat): seq<CommittedBatch>
    requires n < |trail|
  {
    if n == 0 then [] else Dones(trail, n - 1) + Finished(trail[n])
  }

  /** What was done to the spool in the first n turns, by the session and by others. */
  ghost function WorkOf(turns: seq<Turn>, trail: seq<Snapshot>, n: nat): seq<Op>
    requires n < |trail| && n <= |turns|
  {
    if n == 0 then [] else WorkOf(turns, trail, n - 1) + turns[n - 1].others + Persisting(turns[n - 1], trail[n])
  }

  ghost function Persisting(turn: Turn, b: Snapshot): seq<Op> {
    if b.done.Some? then [PersistOp(b.done.value, turn.clock)] else []
  }

  lemma {:induction false} DonesPrefix(trail: seq<Snapshot>, next: Snapshot, n: nat)
    requires n < |trail|
    ensures Dones(trail + [next], n) == Dones(trail, n)
  {
    if n != 0 {
      DonesPrefix(trail, next, n - 1);
    }
  }

  /** The trail of a session that starts at `start` and ends for the reason given. */
  ghost predicate IsSession(cfg: Config, disk: GuardConfig, turns: seq<Turn>, s0: Spool, acks0: seq<Lsn>, start: Lsn,
                            trail: seq<Snapshot>, end: SessionEnd) {
    && IsTrail(cfg, disk, turns, trail) && trail[0] == Opening(s0, acks0, start)
    && if Last(trail).end.Some? then end == Last(trail).end.value && end != OutOfInput && end != NoStart
       else end == OutOfInput && |trail| == |turns| + 1
  }

  /** Everything a session starts from. */
  datatype Setup = Setup(
    cfg: Config, disk: GuardConfig, slot: Capture.Slot, turns: seq<Turn>, spool: Spool, acks: seq<Lsn>)

  /** A run of the session code: paused or without a start, it did nothing; otherwise its trail accounts for it. */
  ghost predicate Ran(u: Setup, s: Spool, acks: seq<Lsn>, persisted: seq<CommittedBatch>, trail: seq<Snapshot>,
                      end: SessionEnd) {
    var start := Capture.StartLsn(u.spool.checkpoint, u.slot);
    if trail == [] then
      s == u.spool && acks == u.acks && persisted == [] && (end == Paused || (end == NoStart && start.None?))
    else
      && start.Some? && IsSession(u.cfg, u.disk, u.turns, u.spool, u.acks, start.value, trail, end)
      && s == Last(trail).spool && acks == Last(trail).acks && persisted == Dones(trail, |trail| - 1)
  }

  /** A turn adds to the guard's calls; a batch was admitted by the last of them. */
  ghost predicate Calling(cfg: GuardConfig, before: seq<Call>, after: seq<Call>, done: Option<CommittedBatch>) {
    before <= after && (done.Some? ==> |before| < |after| && AdmittedAt(cfg, after, |after| - 1))
  }

  ghost function Admitting(cfg: GuardConfig, first: nat, before: seq<Call>, after: seq<Call>, admitted: seq<nat>,
                           n: nat, done: Option<CommittedBatch>): (r: seq<nat>)
    requires first <= |before| && Calling(cfg, before, after, done)
    requires Admissions(cfg, before, first, admitted, n)
    ensures Admissions(cfg, after, first, r, if done.Some? then n + 1 else n)
  {
    AdmissionsStay(cfg, before, after, first, admitted, n);
    if done.Some? then admitted + [|after| - 1] else admitted
  }

  // ----- What a session comes to -----

  /** The spool, the acknowledgments and the admission of a session, given the work done so far. */
  ghost predicate Recorded(u: Setup, b: Snapshot, persisted: seq<CommittedBatch>, work: seq<Op>) {
    && Inv(u.cfg.hash, b.spool) && b.spool == RunOps(u.cfg.hash, u.spool, work)
    && AcksSafe(u.slot, u.spool.checkpoint, u.acks, b.spool.checkpoint, b.acks)
    && (NeverAdmitted(u.disk, u.turns) ==> persisted == [])
  }

  /** While the session goes on, the machine is in step, no batch is missing and the position it reports is durable. */
  ghost predicate GoesOn(u: Setup, n: nat, b: Snapshot, persisted: seq<CommittedBatch>)
    requires n <= |u.turns|
  {
    && Fed(u.cfg, Received(u.turns, n), |Received(u.turns, n)|) == Some(b.machine)
    && persisted == CompletedIn(u.cfg, u.turns, n)
    && Reportable(u.slot, u.spool.checkpoint, b.spool.checkpoint, b.durable)
  }

  /** What the trail of a session says about its first n turns. */
  ghost predicate SoFar(u: Setup, n: nat, b: Snapshot, persisted: seq<CommittedBatch>, work: seq<Op>)
    requires n <= |u.turns|
  {
    && Recorded(u, b, persisted, work)
    && persisted <= CompletedIn(u.cfg, u.turns, n)
    && (b.end.None? ==> GoesOn(u, n, b, persisted))
  }

  lemma SoFarBegins(u: Setup, start: Lsn)
    requires Inv(u.cfg.hash, u.spool) && Capture.StartLsn(u.spool.checkpoint, u.slot) == Some(start)
    ensures SoFar(u, 0, Opening(u.spool, u.acks, start), [], [])
  {
    assert Received(u.turns, 0) == [];
  }

  /** Others at work undo nothing and never lower the checkpoint. */
  lemma OthersRecorded(u: Setup, n: nat, a: Snapshot, persisted: seq<CommittedBatch>, work: seq<Op>, turn: Turn)
    requires n <= |u.turns| && SoFar(u, n, a, persisted, work) && a.end.None?
    ensures SoFar(u, n, Worked(u.cfg, turn, a), persisted, work + turn.others)
  {
    var b := Worked(u.cfg, turn, a);
    RunsEvolve(u.cfg.hash, a.spool, turn.others);
    RunOpsThen(u.cfg.hash, u.spool, work, turn.others);
    AcksStay(u.slot, u.spool.checkpoint, u.acks, a.spool.checkpoint, a.acks, b.spool.checkpoint, []);
    assert a.acks + [] == a.acks;
  }

  /** A turn that handles no message. */
  lemma QuietProgress(u: Setup, n: nat, a: Snapshot, persisted: seq<CommittedBatch>, work: seq<Op>, b: Snapshot)
    requires n < |u.turns| && SoFar(u, n, a, persisted, work) && Turns(u.cfg, u.disk, u.turns[n], a, b)
    requires u.turns[n].incoming.Data? ==> b.end == Some(Paused)
    ensures SoFar(u, n + 1, b, persisted, work)
  {
    var turn := u.turns[n];
    var more := if b.end.None? && Replies(turn.incoming) then [a.durable] else [];
    assert b.acks == a.acks + more;
    AcksStay(u.slot, u.spool.checkpoint, u.acks, a.spool.checkpoint, a.acks, a.spool.checkpoint, more);
    if turn.incoming.Data? {
      FedAppend(u.cfg, Received(u.turns, n), turn.incoming.msg);
      assert Received(u.turns, n + 1) == Received(u.turns, n) + [turn.incoming.msg];
    } else {
      assert Received(u.turns, n + 1) == Received(u.turns, n);
    }
  }

  /** A message that completes no batch, or one that is not persisted. */
  lemma MessageProgress(u: Setup, n: nat, a: Snapshot, persisted: seq<CommittedBatch>, work: seq<Op>, b: Snapshot)
    requires n < |u.turns| && SoFar(u, n, a, persisted, work) && Turns(u.cfg, u.disk, u.turns[n], a, b)
    requires u.turns[n].incoming.Data? && b.end != Some(Paused) && b.done.None?
    ensures SoFar(u, n + 1, b, persisted, work)
  {
    var msg, msgs := u.turns[n].incoming.msg, Received(u.turns, n);
    FedAppend(u.cfg, msgs, msg);
    assert Received(u.turns, n + 1) == msgs + [msg];
  }

  /** A message that completes a batch, which is persisted. */
  lemma BatchProgress(u: Setup, n: nat, a: Snapshot, persisted: seq<CommittedBatch>, work: seq<Op>, b: Snapshot)
    requires n < |u.turns| && SoFar(u, n, a, persisted, work) && Turns(u.cfg, u.disk, u.turns[n], a, b)
    requires u.turns[n].incoming.Data? && b.end != Some(Paused) && b.done.Some?
    ensures SoFar(u, n + 1, b, persisted + [b.done.value], work + [PersistOp(b.done.value, u.turns[n].clock)])
  {
    var turn, msgs := u.turns[n], Received(u.turns, n);
    FedAppend(u.cfg, msgs, turn.incoming.msg);
    assert Received(u.turns, n + 1) == msgs + [turn.incoming.msg];
    RunOpsPush(u.cfg.hash, u.spool, work, PersistOp(b.done.value, turn.clock));
    PersistVerdict(u.cfg.hash, a.spool, b.done.value, turn.clock);
    var more := if b.end.None? then [b.spool.checkpoint] else [];
    assert b.acks == a.acks + more;
    AcksStay(u.slot, u.spool.checkpoint, u.acks, a.spool.checkpoint, a.acks, b.spool.checkpoint, more);
  }

  lemma TurnProgress(u: Setup, n: nat, a: Snapshot, persisted: seq<CommittedBatch>, work: seq<Op>, b: Snapshot)
    requires n < |u.turns| && SoFar(u, n, a, persisted, work) && Turns(u.cfg, u.disk, u.turns[n], a, b)
    ensures SoFar(u, n + 1, b, persisted + Finished(b), work + Persisting(u.turns[n], b))
  {
    assert persisted + [] == persisted && work + [] == work;
    if u.turns[n].incoming.Data? && b.end != Some(Paused) {
      if b.done.Some? {
        BatchProgress(u, n, a, persisted, work, b);
      } else {
        MessageProgress(u, n, a, persisted, work, b);
      }
    } else {
      QuietProgress(u, n, a, persisted, work, b);
    }
  }

  lemma SoFarNext(u: Setup, n: nat, a: Snapshot, persisted: seq<CommittedBatch>, work: seq<Op>, b: Snapshot)
    requires n < |u.turns| && SoFar(u, n, a, persisted, work) && Follows(u.cfg, u.disk, u.turns[n], a, b)
    ensures SoFar(u, n + 1, b, persisted + Finished(b), work + u.turns[n].others + Persisting(u.turns[n], b))
  {
    OthersRecorded(u, n, a, persisted, work, u.turns[n]);
    TurnProgress(u, n, Worked(u.cfg, u.turns[n], a), persisted, work + u.turns[n].others, b);
  }

  ghost predicate SoFarAt(u: Setup, trail: seq<Snapshot>, n: nat)
    requires n <= |u.turns| && n < |trail|
  {
    SoFar(u, n, trail[n], Dones(trail, n), WorkOf(u.turns, trail, n))
  }

  lemma SoFarMore(u: Setup, trail: seq<Snapshot>, n: nat)
    requires IsTrail(u.cfg, u.disk, u.turns, trail) && n + 1 < |trail| && SoFarAt(u, trail, n)
    ensures SoFarAt(u, trail, n + 1)
  {
    assert FollowsAt(u.cfg, u.disk, u.turns, trail, n);
    SoFarNext(u, n, trail[n], Dones(trail, n), WorkOf(u.turns, trail, n), trail[n + 1]);
  }

  lemma {:induction false} TrailProgress(u: Setup, start: Lsn, trail: seq<Snapshot>, n: nat)
    requires Inv(u.cfg.hash, u.spool) && Capture.StartLsn(u.spool.checkpoint, u.slot) == Some(start)
    requires IsTrail(u.cfg, u.disk, u.turns, trail) && trail[0] == Opening(u.spool, u.acks, start) && n < |trail|
    ensures SoFarAt(u, trail, n)
  {
    if n == 0 {
      SoFarBegins(u, start);
    } else {
      var m: nat := n - 1;
      TrailProgress(u, start, trail, m);
      SoFarMore(u, trail, m);
      assert m + 1 == n;
    }
  }

  /**
   What a whole session did. The spool changed by exactly the work of others and the batches persisted, in between,
   each batch completed by the messages received, in order and with no gap; a session that nothing ended persisted
   every batch completed. Nothing beyond the durable checkpoint was sent, except the slot's own position while the
   spool was empty. While no forced probe finds enough space, nothing is persisted.
   */
  ghost predicate SessionPost(u: Setup, s: Spool, acks: seq<Lsn>, persisted: seq<CommittedBatch>, trail: seq<Snapshot>,
                              end: SessionEnd) {
    && |trail| <= |u.turns| + 1
    && if trail == [] then SessionSum(u, 0, s, acks, persisted, [], end)
       else SessionSum(u, |trail| - 1, s, acks, persisted, WorkOf(u.turns, trail, |trail| - 1), end)
  }

  ghost predicate SessionSum(u: Setup, n: nat, s: Spool, acks: seq<Lsn>, persisted: seq<CommittedBatch>, work: seq<Op>,
                             end: SessionEnd)
    requires n <= |u.turns|
  {
    && s == RunOps(u.cfg.hash, u.spool, work)
    && AcksSafe(u.slot, u.spool.checkpoint, u.acks, s.checkpoint, acks)
    && (NeverAdmitted(u.disk, u.turns) ==> persisted == [])
    && persisted <= CompletedIn(u.cfg, u.turns, n)
    && (end == OutOfInput ==> persisted == CompletedIn(u.cfg, u.turns, |u.turns|))
  }

  lemma SoFarEnds(u: Setup, n: nat, b: Snapshot, persisted: seq<CommittedBatch>, work: seq<Op>, end: SessionEnd)
    requires n <= |u.turns| && SoFar(u, n, b, persisted, work) && (end == OutOfInput ==> b.end.None? && n == |u.turns|)
    ensures SessionSum(u, n, b.spool, b.acks, persisted, work, end)
  {
  }

  lemma SessionRecorded(u: Setup, start: Lsn, trail: seq<Snapshot>, end: SessionEnd)
    requires Inv(u.cfg.hash, u.spool) && Capture.StartLsn(u.spool.checkpoint, u.slot) == Some(start)
    requires IsSession(u.cfg, u.disk, u.turns, u.spool, u.acks, start, trail, end)
    ensures SessionPost(u, Last(trail).spool, Last(trail).acks, Dones(trail, |trail| - 1), trail, end)
  {
    var n := |trail| - 1;
    TrailProgress(u, start, trail, n);
    SoFarEnds(u, n, trail[n], Dones(trail, n), WorkOf(u.turns, trail, n), end);
  }

  lemma SessionIdle(u: Setup, end: SessionEnd)
    requires end != OutOfInput
    ensures SessionPost(u, u.spool, u.acks, [], [], end)
  {
  }

  /** So a session, whatever others do meanwhile, never loses, rewrites or reorders anything in the spool. */
  lemma SessionEvolves(u: Setup, s: Spool, acks: seq<Lsn>, persisted: seq<CommittedBatch>, trail: seq<Snapshot>,
                       end: SessionEnd)
    requires Inv(u.cfg.hash, u.spool) && SessionPost(u, s, acks, persisted, trail, end)
    ensures Inv(u.cfg.hash, s) && Evolves(u.spool, s)
  {
    RunsEvolve(u.cfg.hash, u.spool, if trail == [] then [] else WorkOf(u.turns, trail, |trail| - 1));
  }

  // ----- Vocabulary of the contracts -----

  /** What handling one message may do, by cases of the state machine's answer. */
  ghost predicate DataPost(cfg: Config, m: Machine, msg: Message, turn: Turn, s: Spool, acks: seq<Lsn>,
                           m': Machine, s': Spool, acks': seq<Lsn>,
                           end: Option<SessionEnd>, done: Option<CommittedBatch>) {
    match Consume(cfg, m, msg)
    case Fail(e) => end == Some(Refused(e)) && done == None && s' == s && acks' == acks
    case Next(n) => end == None && done == None && m' == n && s' == s && acks' == acks
    case Emit(n, batch) =>
      && m' == n
      && var p := Persist(cfg.hash, s, batch, turn.clock);
      if end == Some(Paused) then done == None && s' == s && acks' == acks
      else if p.Err? || !turn.commitOk then
        done == None && s' == s && acks' == acks && end == Some(Rejected(if p.Err? then p.error else Durability))
      else
        && done == Some(batch) && s' == p.value.spool
        && end == (if turn.sendOk then None else Some(SendFailed))
        && acks' == if turn.sendOk then acks + [s'.checkpoint] else acks
  }

  /** A position that may be sent: durable, or the slot's own start while the spool was empty. */
  ghost predicate Reportable(slot: Capture.Slot, first: Lsn, checkpoint: Lsn, l: Lsn) {
    l <= checkpoint || (first == 0 && Capture.StartLsn(0, slot) == Some(l))
  }

  ghost predicate AcksSafe(slot: Capture.Slot, first: Lsn, before: seq<Lsn>, checkpoint: Lsn, after: seq<Lsn>) {
    && before <= after
    && forall i | |before| <= i < |after| :: Reportable(slot, first, checkpoint, after[i])
  }

  /** The forced check of this turn, if made, sees a successful probe at or above the pause threshold. */
  ghost predicate EnoughSpace(cfg: GuardConfig, turn: Turn) {
    cfg.pauseBelow == 0 || (turn.forced.probe.Some? && turn.forced.probe.value >= cfg.pauseBelow)
  }

  ghost predicate NeverAdmitted(cfg: GuardConfig, turns: seq<Turn>) {
    forall i | 0 <= i < |turns| :: !EnoughSpace(cfg, turns[i])
  }

  /** A timeout and a keepalive that asks for it are answered with the durable position. */
  predicate Replies(incoming: Incoming) {
    incoming.Timeout? || (incoming.Keepalive? && incoming.replyRequested)
  }

  /** How a turn that handles no message ends the session, if it does. */
  function QuietEnd(turn: Turn): Option<SessionEnd> {
    if turn.incoming.BadFrame? || turn.incoming.Disconnected? then Some(Interrupted)
    else if turn.incoming.Undecodable? then Some(Refused(ProtocolState))
    else if Replies(turn.incoming) && !turn.sendOk then Some(SendFailed)
    else None
  }

  /** The guard stops the turn: at the routine check, or at the forced one before a batch is persisted. */
  ghost predicate Pauses(cfg: Config, disk: GuardConfig, status: Status, turn: Turn, m: Machine) {
    || !Admits(disk, status, turn.check)
    || (turn.incoming.Data? && Consume(cfg, m, turn.incoming.msg).Emit?
        && !Admits(disk, Checked(disk, status, turn.check), turn.forced))
  }

  /** What one turn does. */
  ghost predicate TurnPost(cfg: Config, disk: GuardConfig, turn: Turn, durable: Lsn, m: Machine, s: Spool,
                           acks: seq<Lsn>, m': Machine, s': Spool, acks': seq<Lsn>,
                           end: Option<SessionEnd>, done: Option<CommittedBatch>) {
    && (done.Some? ==> EnoughSpace(disk, turn))
    && if turn.incoming.Data? && end != Some(Paused) then
         DataPost(cfg, m, turn.incoming.msg, turn, s, acks, m', s', acks', end, done)
       else
         && done == None && s' == s && (end == Some(Paused) || end == QuietEnd(turn))
         && (end.Some? ==> acks' == acks)
         && (end.None? ==> m' == m && acks' == acks + if Replies(turn.incoming) then [durable] else [])
  }

  lemma AcksStay(slot: Capture.Slot, first: Lsn, before: seq<Lsn>, c: Lsn, acks: seq<Lsn>, c': Lsn, more: seq<Lsn>)
    requires AcksSafe(slot, first, before, c, acks) && c <= c'
    requires forall i | 0 <= i < |more| :: Reportable(slot, first, c', more[i])
    ensures AcksSafe(slot, first, before, c', acks + more)
  {
  }
}
