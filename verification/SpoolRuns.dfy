/** Whole runs of the spool: any sequence of store operations, crashes included. */
module SpoolRuns {
  import opened Basics
  import opened Timestamps
  import opened SpoolState
  import opened SpoolCapture
  import opened SpoolSinks
  import opened SpoolDelivery
  import opened SpoolPrune

  datatype Op =
    | PersistOp(batch: CommittedBatch, clock: nat -> Time)
    | ConfigureOp(regs: seq<Registration>, now: Time)
    | DeliveredOp(item: Delivery, attempt: nat, status: int, at: Time)
    | FailedOp(item: Delivery, attempt: nat, permanent: bool, retryAt: Time, failure: string, status: int, at: Time)
    | RedriveOp(sink: string, who: Identity, at: Time)
    | PruneOp(options: PruneOptions, now: Time)
    | Crash  // whatever transaction was open is dropped

  function Attempt(h: Hash, s: Spool, op: Op): Outcome<Spool> {
    match op
    case PersistOp(b, clock) =>
      (match Persist(h, s, b, clock) case Ok(p) => Ok(p.spool) case Err(x) => Err(x))
    case ConfigureOp(regs, now) => Configure(s, regs, now)
    case DeliveredOp(item, attempt, status, at) => MarkDelivered(s, item, attempt, status, at)
    case FailedOp(item, attempt, permanent, retryAt, failure, status, at) =>
      MarkFailed(s, item, attempt, permanent, retryAt, failure, status, at)
    case RedriveOp(sink, who, at) => Redrive(s, sink, who, at)
    case PruneOp(o, now) =>
      (match Prune(s, o, now) case Ok(p) => Ok(p.spool) case Err(x) => Err(x))
    case Crash => Ok(s)
  }

  /** A failed transaction leaves the spool as it was. */
  function Apply(h: Hash, s: Spool, op: Op): Spool {
    match Attempt(h, s, op)
    case Ok(t) => t
    case Err(_) => s
  }

  function RunOps(h: Hash, s: Spool, ops: seq<Op>): Spool {
    if |ops| == 0 then s else Apply(h, RunOps(h, s, ops[..|ops| - 1]), ops[|ops| - 1])
  }

  lemma {:induction false} RunOpsThen(h: Hash, s: Spool, first: seq<Op>, second: seq<Op>)
    ensures RunOps(h, s, first + second) == RunOps(h, RunOps(h, s, first), second)
  {
    if |second| == 0 {
      assert first + second == first;
    } else {
      var front, op := second[..|second| - 1], second[|second| - 1];
      RunOpsThen(h, s, first, front);
      RunOpsPush(h, s, first + front, op);
      RunOpsPush(h, RunOps(h, s, first), front, op);
      assert second == front + [op];
      assert first + second == first + front + [op];
    }
  }

  lemma RunOpsPush(h: Hash, s: Spool, ops: seq<Op>, op: Op)
    ensures RunOps(h, s, ops + [op]) == Apply(h, RunOps(h, s, ops), op)
  {
    assert (ops + [op])[..|ops|] == ops;
  }

  // ----- The invariant holds, and no trigger ever fires -----

  lemma AttemptKeeps(h: Hash, s: Spool, op: Op)
    requires Inv(h, s)
    ensures Inv(h, Apply(h, s, op))
    ensures Attempt(h, s, op) != Err(TriggerAbort)
  {
    match op
    case PersistOp(b, clock) => PersistVerdict(h, s, b, clock);
    case ConfigureOp(regs, now) => ConfigureVerdict(h, s, regs, now);
    case DeliveredOp(item, attempt, status, at) => MarkDeliveredKeeps(h, s, item, attempt, status, at);
    case FailedOp(item, attempt, permanent, retryAt, failure, status, at) =>
      MarkFailedKeeps(h, s, item, attempt, permanent, retryAt, failure, status, at);
    case RedriveOp(sink, who, at) => RedriveKeeps(h, s, sink, who, at);
    case PruneOp(o, now) => PruneVerdict(h, s, o, now);
    case Crash =>
  }

  /** From an empty spool every run keeps the invariant, and the next operation never trips a schema trigger. */
  lemma {:induction false} RunsKeepInvariant(h: Hash, ops: seq<Op>, next: Op)
    ensures Inv(h, RunOps(h, EMPTY, ops))
    ensures Attempt(h, RunOps(h, EMPTY, ops), next) != Err(TriggerAbort)
  {
    if |ops| == 0 {
      InvEmpty(h);
    } else {
      RunsKeepInvariant(h, ops[..|ops| - 1], ops[|ops| - 1]);
      AttemptKeeps(h, RunOps(h, EMPTY, ops[..|ops| - 1]), ops[|ops| - 1]);
    }
    AttemptKeeps(h, RunOps(h, EMPTY, ops), next);
  }

  // ----- What no run can undo -----

  /** An event row never changes, except that its payload may be pruned once. */
  ghost predicate RowEvolves(a: EventRow, b: EventRow) {
    b == a || (a.Retained() && !b.Retained() && b.event == a.event.(payload := []))
  }

  ghost predicate EventsEvolve(s: Spool, t: Spool) {
    |s.events| <= |t.events| && forall i | 0 <= i < |s.events| :: RowEvolves(s.events[i], t.events[i])
  }

  /** Delivery rows are never deleted, success is final, and a pruned event gains no rows. */
  ghost predicate DeliveriesEvolve(s: Spool, t: Spool) {
    && (forall r | r in s.deliveries :: r in t.deliveries)
    && (forall r | r in s.deliveries && s.deliveries[r].state == Delivered :: t.deliveries[r] == s.deliveries[r])
    && (forall r | r in t.deliveries && r !in s.deliveries :: !s.Pruned(r.event))
  }

  ghost predicate Evolves(s: Spool, t: Spool) {
    EventsEvolve(s, t) && SinksKept(s, t) && DeliveriesEvolve(s, t) && s.checkpoint <= t.checkpoint
  }

  lemma EvolvesThen(s: Spool, t: Spool, u: Spool)
    requires Evolves(s, t) && Evolves(t, u)
    ensures Evolves(s, u)
  {
    assert forall e: nat | s.Pruned(e) :: t.Pruned(e) by {
      assert forall i | 0 <= i < |s.events| :: RowEvolves(s.events[i], t.events[i]);
    }
    forall i | 0 <= i < |s.events| ensures RowEvolves(s.events[i], u.events[i]) {
      assert RowEvolves(s.events[i], t.events[i]) && RowEvolves(t.events[i], u.events[i]);
    }
  }

  lemma PersistEvolves(h: Hash, s: Spool, b: CommittedBatch, clock: nat -> Time)
    requires Inv(h, s)
    ensures Evolves(s, Apply(h, s, PersistOp(b, clock)))
  {
    PersistVerdict(h, s, b, clock);
    AddAllLonger(s.events, b.events, |b.events|);
    var t := Apply(h, s, PersistOp(b, clock));
    assert forall i | 0 <= i < |s.events| :: t.events[i] == s.events[i];
  }

  lemma ConfigureEvolves(h: Hash, s: Spool, regs: seq<Registration>, now: Time)
    requires Inv(h, s)
    ensures Evolves(s, Apply(h, s, ConfigureOp(regs, now)))
  {
    ConfigureVerdict(h, s, regs, now);
  }

  lemma BlankedEvolves(s: Spool, es: set<nat>, now: Time)
    requires forall e | e in es :: Done(s, e)
    ensures Evolves(s, Blanked(s, es, now))
  {
    var t := Blanked(s, es, now);
    forall i | 0 <= i < |s.events| ensures RowEvolves(s.events[i], t.events[i]) {
      if i in es {
        assert Done(s, i);
      }
    }
  }

  /** A prune, successful or not, is a blanking of events that were delivered everywhere. */
  lemma PruneBlanks(h: Hash, s: Spool, o: PruneOptions, now: Time) returns (es: set<nat>)
    requires Inv(h, s)
    ensures Apply(h, s, PruneOp(o, now)) == Blanked(s, es, now)
    ensures forall e | e in es :: Done(s, e)
  {
    if Prune(s, o, now).Ok? {
      es := PruneShape(h, s, o, now);
    } else {
      es := {};
      assert Blanked(s, es, now).events == s.events;
    }
  }

  lemma SetRowEvolves(s: Spool, r: Ref, row: DeliveryRow)
    requires r in s.deliveries && s.deliveries[r].state != Delivered
    ensures Evolves(s, SetRow(s, r, row))
  {
  }

  lemma RowOpEvolves(h: Hash, s: Spool, op: Op)
    requires op.DeliveredOp? || op.FailedOp? || op.RedriveOp?
    ensures Evolves(s, Apply(h, s, op))
  {
    var t := Apply(h, s, op);
    if Attempt(h, s, op).Ok? {
      var r := if op.RedriveOp? then RedriveTarget(s, op.sink, op.who).value else op.item.ref;
      assert t == SetRow(s, r, t.deliveries[r]);
      SetRowEvolves(s, r, t.deliveries[r]);
    }
  }

  lemma StepEvolves(h: Hash, s: Spool, op: Op)
    requires Inv(h, s)
    ensures Evolves(s, Apply(h, s, op))
  {
    match op
    case PersistOp(b, clock) => PersistEvolves(h, s, b, clock);
    case ConfigureOp(regs, now) => ConfigureEvolves(h, s, regs, now);
    case PruneOp(o, now) =>
      var es := PruneBlanks(h, s, o, now);
      BlankedEvolves(s, es, now);
    case DeliveredOp(item, attempt, status, at) => RowOpEvolves(h, s, op);
    case FailedOp(item, attempt, permanent, retryAt, failure, status, at) => RowOpEvolves(h, s, op);
    case RedriveOp(sink, who, at) => RowOpEvolves(h, s, op);
    case Crash =>
  }

  /** Nothing but a persist adds events or moves the checkpoint. */
  lemma OtherOpEvents(h: Hash, s: Spool, op: Op)
    requires Inv(h, s) && !op.PersistOp?
    ensures var t := Apply(h, s, op);
      Inv(h, t) && |t.events| == |s.events| && EventsEvolve(s, t) && t.checkpoint == s.checkpoint
  {
    AttemptKeeps(h, s, op);
    StepEvolves(h, s, op);
    match op
    case ConfigureOp(regs, now) => ConfigureVerdict(h, s, regs, now);
    case PruneOp(o, now) => var _ := PruneBlanks(h, s, o, now);
    case DeliveredOp(item, attempt, status, at) =>
    case FailedOp(item, attempt, permanent, retryAt, failure, status, at) =>
    case RedriveOp(sink, who, at) =>
    case Crash =>
  }

  /**
   Over any run: events are never lost, reordered or rewritten (only pruned), sinks keep their identity,
   delivered rows stay as they are, and the checkpoint never decreases.
   */
  lemma {:induction false} RunsEvolve(h: Hash, s: Spool, ops: seq<Op>)
    requires Inv(h, s)
    ensures Inv(h, RunOps(h, s, ops)) && Evolves(s, RunOps(h, s, ops))
  {
    if |ops| != 0 {
      var front := ops[..|ops| - 1];
      RunsEvolve(h, s, front);
      AttemptKeeps(h, RunOps(h, s, front), ops[|ops| - 1]);
      StepEvolves(h, RunOps(h, s, front), ops[|ops| - 1]);
      EvolvesThen(s, RunOps(h, s, front), RunOps(h, s, ops));
    }
  }

  // ----- A send in flight is undisturbed -----

  /** Everything other parts of the system do to the spool while the one worker is sending. */
  predicate ByOthers(op: Op) {
    op.PersistOp? || op.ConfigureOp? || op.RedriveOp? || op.PruneOp? || op.Crash?
  }

  ghost predicate Undisturbed(s: Spool, t: Spool, r: Ref) {
    && r in s.deliveries && r in t.deliveries && t.deliveries[r] == s.deliveries[r]
    && s.Active(r.sink) && t.Active(r.sink) && t.sinks[r.sink] == s.sinks[r.sink]
    && r.event < |s.events| && r.event < |t.events| && t.events[r.event] == s.events[r.event]
  }

  lemma PersistUndisturbed(h: Hash, s: Spool, b: CommittedBatch, clock: nat -> Time, r: Ref)
    requires Inv(h, s) && s.OpenAt(r) && Undisturbed(s, s, r)
    ensures Undisturbed(s, Apply(h, s, PersistOp(b, clock)), r)
  {
    PersistVerdict(h, s, b, clock);
    AddAllLonger(s.events, b.events, |b.events|);
  }

  lemma ConfigureUndisturbed(h: Hash, s: Spool, regs: seq<Registration>, now: Time, r: Ref)
    requires Inv(h, s) && s.OpenAt(r) && Undisturbed(s, s, r)
    ensures Undisturbed(s, Apply(h, s, ConfigureOp(regs, now)), r)
  {
    ConfigureVerdict(h, s, regs, now);
    var t := Apply(h, s, ConfigureOp(regs, now));
    if Configure(s, regs, now).Ok? {
      assert Busy(s, r.sink);
      assert t.sinks[r.sink].name == s.sinks[r.sink].name;
    }
  }

  lemma BlankedUndisturbed(s: Spool, es: set<nat>, now: Time, r: Ref)
    requires s.OpenAt(r) && Undisturbed(s, s, r) && forall e | e in es :: Done(s, e)
    ensures Undisturbed(s, Blanked(s, es, now), r)
  {
    assert r.event in es ==> Done(s, r.event);
  }

  lemma StepUndisturbed(h: Hash, s: Spool, op: Op, r: Ref)
    requires Inv(h, s) && s.OpenAt(r) && ByOthers(op)
    ensures Undisturbed(s, Apply(h, s, op), r)
  {
    OpenIsLive(h, s, r);
    match op
    case PersistOp(b, clock) => PersistUndisturbed(h, s, b, clock, r);
    case ConfigureOp(regs, now) => ConfigureUndisturbed(h, s, regs, now, r);
    case PruneOp(o, now) =>
      var es := PruneBlanks(h, s, o, now);
      BlankedUndisturbed(s, es, now, r);
    case RedriveOp(sink, who, at) =>
    case Crash =>
  }

  lemma {:induction false} OthersLeaveOpenRows(h: Hash, s: Spool, ops: seq<Op>, r: Ref)
    requires Inv(h, s) && s.OpenAt(r) && forall i | 0 <= i < |ops| :: ByOthers(ops[i])
    ensures Undisturbed(s, RunOps(h, s, ops), r) && Inv(h, RunOps(h, s, ops))
  {
    OpenIsLive(h, s, r);
    if |ops| != 0 {
      var front := ops[..|ops| - 1];
      OthersLeaveOpenRows(h, s, front, r);
      var t := RunOps(h, s, front);
      AttemptKeeps(h, t, ops[|ops| - 1]);
      StepUndisturbed(h, t, ops[|ops| - 1], r);
    }
  }

  /**
   Between selecting a delivery and recording its result, no run of the rest of the system changes the item,
   so the guarded update finds its row and either result can be recorded.
   */
  lemma SendIsUndisturbed(h: Hash, s: Spool, due: Time -> bool, r: Ref, ops: seq<Op>,
                          attempt: nat, permanent: bool, retryAt: Time, failure: string, status: int, at: Time)
    requires Inv(h, s) && NextDue(s, due) == Some(r) && forall i | 0 <= i < |ops| :: ByOthers(ops[i])
    ensures r in s.deliveries && r.event < |s.events| && r.sink < |s.sinks|
    ensures var t, item := RunOps(h, s, ops), ItemAt(s, r);
      && Undisturbed(s, t, r) && ItemAt(t, r) == item
      && MarkDelivered(t, item, attempt, status, at).Ok?
      && MarkFailed(t, item, attempt, permanent, retryAt, failure, status, at).Ok?
  {
    SelectedPayload(h, s, due, r);
    OthersLeaveOpenRows(h, s, ops, r);
    var t, item := RunOps(h, s, ops), ItemAt(s, r);
    MarkDeliveredKeeps(h, t, item, attempt, status, at);
    MarkFailedKeeps(h, t, item, attempt, permanent, retryAt, failure, status, at);
  }

  // ----- New deliveries become due -----

  /** A fresh row of an active sink is eligible from its time on, once everything before it is finished. */
  lemma FreshBecomesDue(h: Hash, t: Spool, r: Ref, at: Time, ops: seq<Op>, now: Time)
    requires Inv(h, t) && r in t.deliveries && IsFresh(t.deliveries[r], at) && at <= now
    requires (forall i | 0 <= i < |ops| :: ByOthers(ops[i]))
    requires forall e: nat | e < r.event :: !RunOps(h, t, ops).OpenAt(Ref(e, r.sink))
    ensures Eligible(RunOps(h, t, ops), By(now), r)
  {
    assert t.OpenAt(r);
    OthersLeaveOpenRows(h, t, ops, r);
  }

  /** Every event a persist adds will be offered to every active sink, from the moment it was ingested. */
  lemma PersistedBecomesDue(h: Hash, s: Spool, b: CommittedBatch, clock: nat -> Time, t: Spool, r: Ref,
                            ops: seq<Op>, now: Time)
    requires Inv(h, s) && Attempt(h, s, PersistOp(b, clock)) == Ok(t)
    requires |s.events| <= r.event < |t.events| && s.Active(r.sink)
    requires clock(t.events[r.event].event.messageIndex) <= now && (forall i | 0 <= i < |ops| :: ByOthers(ops[i]))
    requires forall e: nat | e < r.event :: !RunOps(h, t, ops).OpenAt(Ref(e, r.sink))
    ensures Eligible(RunOps(h, t, ops), By(now), r)
  {
    PersistVerdict(h, s, b, clock);
    FreshBecomesDue(h, t, r, clock(t.events[r.event].event.messageIndex), ops, now);
  }

  /** And every retained event will be offered to a sink that is registered, from the registration on. */
  lemma RegisteredBecomesDue(h: Hash, s: Spool, regs: seq<Registration>, at: Time, t: Spool, r: Ref,
                             ops: seq<Op>, now: Time)
    requires Inv(h, s) && Attempt(h, s, ConfigureOp(regs, at)) == Ok(t)
    requires r.event < |s.events| && !s.Pruned(r.event) && t.Active(r.sink) && r !in s.deliveries
    requires at <= now && (forall i | 0 <= i < |ops| :: ByOthers(ops[i]))
    requires forall e: nat | e < r.event :: !RunOps(h, t, ops).OpenAt(Ref(e, r.sink))
    ensures Eligible(RunOps(h, t, ops), By(now), r)
  {
    ConfigureVerdict(h, s, regs, at);
    assert Ref(r.event, r.sink) == r;
    FreshBecomesDue(h, t, r, at, ops, now);
  }
}
