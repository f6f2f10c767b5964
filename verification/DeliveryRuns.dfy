/** Whole delivery runs: per-sink order, and why a backlog drains. */
module DeliveryRuns {
  import opened Basics
  import opened Timestamps
  import opened SpoolState
  import opened SpoolCapture
  import opened SpoolSinks
  import opened SpoolDelivery
  import opened SpoolRuns
  import opened Webhooks
  import opened DeliveryWorker

  // ----- Order -----

  /** What an observer sees: the attempts made, and the redrives requested. */
  datatype Trace = Attempted(ref: Ref) | Redriven(ref: Ref)

  /** The spool, the one delivery being sent, and everything observed so far. */
  datatype Delivering = Delivering(spool: Spool, sending: Option<Delivery>, trace: seq<Trace>)

  datatype Action =
    | Other(op: Op)                                        // persist, configure, redrive, prune
    | Select(now: Time)
    | Record(policy: RetryPolicy, result: AttemptResult, now: Time)
    | Drop                                                 // crash, or a cancelled send

  ghost predicate Possible(a: Action) {
    && (a.Other? ==> ByOthers(a.op))
    && (a.Record? ==> ClockOk(a.policy, a.now))
  }

  function DoOther(h: Hash, s: Delivering, op: Op): Delivering {
    s.(spool := Apply(h, s.spool, op), trace := s.trace + Redrives(h, s.spool, op))
  }

  /** The redrive an operation performs, if it does. */
  function Redrives(h: Hash, s: Spool, op: Op): seq<Trace> {
    if op.RedriveOp? && RedriveTarget(s, op.sink, op.who).Some? && Attempt(h, s, op).Ok?
    then [Redriven(RedriveTarget(s, op.sink, op.who).value)] else []
  }

  function DoSelect(s: Delivering, now: Time): Delivering {
    var r := NextDue(s.spool, TextDue(now));
    if s.sending.None? && r.Some? && r.value in s.spool.deliveries
      && r.value.event < |s.spool.events| && r.value.sink < |s.spool.sinks|
    then s.(sending := Some(ItemAt(s.spool, r.value)), trace := s.trace + [Attempted(r.value)]) else s
  }

  function DoRecord(h: Hash, s: Delivering, p: RetryPolicy, result: AttemptResult, now: Time): Delivering
    requires ClockOk(p, now)
  {
    if s.sending.None? then s
    else s.(spool := Apply(h, s.spool, RecordAsOp(p, s.sending.value, result, now)), sending := None)
  }

  function Do(h: Hash, s: Delivering, a: Action): Delivering
    requires a.Record? ==> ClockOk(a.policy, a.now)
  {
    match a
    case Other(op) => DoOther(h, s, op)
    case Select(now) => DoSelect(s, now)
    case Record(p, result, now) => DoRecord(h, s, p, result, now)
    case Drop => s.(sending := None)
  }

  /** Recording a result, as the worker does it, is one of the store's operations. */
  function RecordAsOp(p: RetryPolicy, item: Delivery, result: AttemptResult, now: Time): (op: Op)
    requires ClockOk(p, now)
    ensures (if result.success then op.DeliveredOp? else op.FailedOp?) && op.item == item
  {
    if result.success then DeliveredOp(item, item.attempts + 1, result.status, now)
    else
      var plan := Plan(p, item.attempts, result);
      FailedOp(item, item.attempts + 1, plan.permanent, now + plan.delay, Truncate(result.failure), result.status, now)
  }

  lemma RecordIsOp(h: Hash, p: RetryPolicy, s: Spool, item: Delivery, result: AttemptResult, now: Time)
    requires ClockOk(p, now)
    ensures Attempt(h, s, RecordAsOp(p, item, result, now)) == RecordOf(p, s, item, result, now)
  {
  }

  ghost predicate IsRun(h: Hash, states: seq<Delivering>, actions: seq<Action>) {
    && |states| == |actions| + 1
    && states[0] == Delivering(EMPTY, None, [])
    && forall i | 0 <= i < |actions| :: Possible(actions[i]) && states[i + 1] == Do(h, states[i], actions[i])
  }

  /** A delivery that nothing but a redrive can bring back: finished, or never to be created. */
  ghost predicate Finished(s: Spool, r: Ref) {
    r.event < |s.events| && !s.OpenAt(r) && (r in s.deliveries || s.Pruned(r.event))
  }

  ghost predicate RedrivenAfter(trace: seq<Trace>, i: nat, r: Ref) {
    exists m :: i < m < |trace| && trace[m] == Redriven(r)
  }

  /** Everything before an attempted event is finished for that sink, or was redriven after the attempt. */
  ghost predicate Behind(s: Spool, trace: seq<Trace>) {
    forall i, e: nat | 0 <= i < |trace| && trace[i].Attempted? && e < trace[i].ref.event ::
      Finished(s, Ref(e, trace[i].ref.sink)) || RedrivenAfter(trace, i, Ref(e, trace[i].ref.sink))
  }

  /** Attempts of one sink only go back to an event that was redriven in between. */
  ghost predicate InOrder(trace: seq<Trace>) {
    forall i, j | 0 <= i < j < |trace| && trace[i].Attempted? && trace[j].Attempted?
      && trace[j].ref.sink == trace[i].ref.sink && trace[j].ref.event < trace[i].ref.event ::
      exists m :: i < m < j && trace[m] == Redriven(trace[j].ref)
  }

  /** The only operation that reopens a finished delivery is a redrive of that delivery. */
  lemma FinishedStays(h: Hash, s: Spool, op: Op, r: Ref)
    requires Inv(h, s) && Finished(s, r)
    ensures Finished(Apply(h, s, op), r)
      || (op.RedriveOp? && Attempt(h, s, op).Ok? && RedriveTarget(s, op.sink, op.who) == Some(r))
  {
    StepEvolves(h, s, op);
    AttemptKeeps(h, s, op);
    var t := Apply(h, s, op);
    assert RowEvolves(s.events[r.event], t.events[r.event]);
    if r in s.deliveries {
      RowsReopened(h, s, op, r);
    }
  }

  lemma RowsReopened(h: Hash, s: Spool, op: Op, r: Ref)
    requires Inv(h, s) && r in s.deliveries && !s.OpenAt(r)
    ensures var t := Apply(h, s, op);
      !t.OpenAt(r) || (op.RedriveOp? && Attempt(h, s, op).Ok? && RedriveTarget(s, op.sink, op.who) == Some(r))
  {
    match op
    case PersistOp(b, clock) => PersistVerdict(h, s, b, clock);
    case ConfigureOp(regs, now) => ConfigureVerdict(h, s, regs, now);
    case PruneOp(o, now) => var _ := PruneBlanks(h, s, o, now);
    case DeliveredOp(item, attempt, status, at) =>
    case FailedOp(item, attempt, permanent, retryAt, failure, status, at) =>
    case RedriveOp(sink, who, at) =>
    case Crash =>
  }

  lemma BehindSpool(h: Hash, s: Spool, op: Op, trace: seq<Trace>)
    requires Inv(h, s) && Behind(s, trace)
    ensures Behind(Apply(h, s, op), trace + Redrives(h, s, op))
  {
    var t, more := Apply(h, s, op), trace + Redrives(h, s, op);
    forall i, e: nat | 0 <= i < |more| && more[i].Attempted? && e < more[i].ref.event
      ensures Finished(t, Ref(e, more[i].ref.sink)) || RedrivenAfter(more, i, Ref(e, more[i].ref.sink))
    {
      var r := Ref(e, more[i].ref.sink);
      assert more[i] == trace[i];
      if RedrivenAfter(trace, i, r) {
        var m :| i < m < |trace| && trace[m] == Redriven(r);
        assert more[m] == Redriven(r);
      } else {
        FinishedStays(h, s, op, r);
        if !Finished(t, r) {
          assert more[|trace|] == Redriven(r);
        }
      }
    }
  }

  /** Selecting a head is consistent with everything attempted before, and leaves everything before it finished. */
  lemma SelectKeepsOrder(h: Hash, s: Spool, due: Time -> bool, r: Ref, trace: seq<Trace>)
    requires Inv(h, s) && NextDue(s, due) == Some(r) && Behind(s, trace) && InOrder(trace)
    ensures Behind(s, trace + [Attempted(r)]) && InOrder(trace + [Attempted(r)])
  {
    NextDueIsLeast(s, due);
    SelectedPayload(h, s, due, r);
    var more := trace + [Attempted(r)];
    BehindAppend(s, trace, r);
    forall i | 0 <= i < |trace| && trace[i].Attempted? && trace[i].ref.sink == r.sink && r.event < trace[i].ref.event
      ensures exists m :: i < m < |trace| && more[m] == Redriven(r)
    {
      assert s.OpenAt(Ref(r.event, r.sink)) && Ref(r.event, r.sink) == r;
      assert RedrivenAfter(trace, i, r);
      var m :| i < m < |trace| && trace[m] == Redriven(r);
      assert more[m] == Redriven(r);
    }
    InOrderAppend(trace, r);
  }

  lemma BehindAppend(s: Spool, trace: seq<Trace>, r: Ref)
    requires Behind(s, trace) && Covered(s) && r.event < |s.events| && s.Active(r.sink)
    requires forall e: nat | e < r.event :: !s.OpenAt(Ref(e, r.sink))
    ensures Behind(s, trace + [Attempted(r)])
  {
    var more := trace + [Attempted(r)];
    forall i, e: nat | 0 <= i < |more| && more[i].Attempted? && e < more[i].ref.event
      ensures Finished(s, Ref(e, more[i].ref.sink)) || RedrivenAfter(more, i, Ref(e, more[i].ref.sink))
    {
      if i < |trace| {
        assert more[i] == trace[i];
        if RedrivenAfter(trace, i, Ref(e, trace[i].ref.sink)) {
          var m :| i < m < |trace| && trace[m] == Redriven(Ref(e, trace[i].ref.sink));
          assert more[m] == trace[m];
        }
      } else {
        assert !s.OpenAt(Ref(e, r.sink));
      }
    }
  }

  lemma InOrderAppend(trace: seq<Trace>, r: Ref)
    requires InOrder(trace)
    requires forall i | 0 <= i < |trace| && trace[i].Attempted?
      && trace[i].ref.sink == r.sink && r.event < trace[i].ref.event ::
      exists m :: i < m < |trace| && (trace + [Attempted(r)])[m] == Redriven(r)
    ensures InOrder(trace + [Attempted(r)])
  {
    var more := trace + [Attempted(r)];
    forall i, j | 0 <= i < j < |more| && more[i].Attempted? && more[j].Attempted?
      && more[j].ref.sink == more[i].ref.sink && more[j].ref.event < more[i].ref.event
      ensures exists m :: i < m < j && more[m] == Redriven(more[j].ref)
    {
      assert more[i] == trace[i];
      if j < |trace| {
        assert more[j] == trace[j];
        var m :| i < m < j && trace[m] == Redriven(trace[j].ref);
        assert more[m] == trace[m];
      }
    }
  }

  lemma InOrderRedriven(h: Hash, s: Spool, op: Op, trace: seq<Trace>)
    requires InOrder(trace)
    ensures InOrder(trace + Redrives(h, s, op))
  {
    var more := trace + Redrives(h, s, op);
    forall i, j | 0 <= i < j < |more| && more[i].Attempted? && more[j].Attempted?
      && more[j].ref.sink == more[i].ref.sink && more[j].ref.event < more[i].ref.event
      ensures exists m :: i < m < j && more[m] == Redriven(more[j].ref)
    {
      assert more[i] == trace[i] && more[j] == trace[j];
      var m :| i < m < j && trace[m] == Redriven(trace[j].ref);
      assert more[m] == trace[m];
    }
  }

  ghost predicate OrderInv(h: Hash, s: Delivering) {
    Inv(h, s.spool) && Behind(s.spool, s.trace) && InOrder(s.trace)
  }

  lemma OtherKeepsOrder(h: Hash, s: Delivering, op: Op)
    requires OrderInv(h, s)
    ensures OrderInv(h, DoOther(h, s, op))
  {
    AttemptKeeps(h, s.spool, op);
    BehindSpool(h, s.spool, op, s.trace);
    InOrderRedriven(h, s.spool, op, s.trace);
  }

  lemma StepKeepsOrder(h: Hash, s: Delivering, a: Action)
    requires OrderInv(h, s) && Possible(a)
    ensures OrderInv(h, Do(h, s, a))
  {
    match a
    case Other(op) => OtherKeepsOrder(h, s, op);
    case Select(now) =>
      var r := NextDue(s.spool, TextDue(now));
      if r.Some? {
        SelectKeepsOrder(h, s.spool, TextDue(now), r.value, s.trace);
      }
    case Record(p, result, now) =>
      if s.sending.Some? {
        var op := RecordAsOp(p, s.sending.value, result, now);
        OtherKeepsOrder(h, s, op);
        assert s.trace + Redrives(h, s.spool, op) == s.trace;
      }
    case Drop =>
  }

  /**
   Per-sink order over whole runs: across crashes, new captures, sink removal and reactivation, backfill and
   pruning, the events attempted for one sink never go back except to one redriven in between.
   */
  lemma {:induction false} AttemptsInOrder(h: Hash, states: seq<Delivering>, actions: seq<Action>, n: nat)
    requires IsRun(h, states, actions) && n <= |actions|
    ensures OrderInv(h, states[n]) && InOrder(states[n].trace)
  {
    if n == 0 {
      InvEmpty(h);
    } else {
      AttemptsInOrder(h, states, actions, n - 1);
      StepKeepsOrder(h, states[n - 1], actions[n - 1]);
    }
  }

  /**
   What is observed is what happens: the trace gains an attempt exactly when the idle relay picks a row, which is then
   the least eligible one, and a redrive exactly when one succeeds; a send ends by being recorded or dropped.
   */
  lemma TraceTells(h: Hash, s: Delivering, a: Action)
    requires Inv(h, s.spool) && Possible(a)
    ensures var t := Do(h, s, a);
      match a
      case Other(op) => t.sending == s.sending && t.spool == Apply(h, s.spool, op)
        && (if op.RedriveOp? && exists r :: IsDeadLetter(s.spool, op.sink, op.who, r)
            then |t.trace| == |s.trace| + 1 && s.trace <= t.trace && t.trace[|s.trace|].Redriven?
                 && IsDeadLetter(s.spool, op.sink, op.who, t.trace[|s.trace|].ref)
            else t.trace == s.trace)
      case Select(now) => t.spool == s.spool
        && (if s.sending == None && exists r :: Eligible(s.spool, By(now), r)
            then t.sending.Some? && Least(s.spool, By(now), t.sending.value.ref)
                 && t.trace == s.trace + [Attempted(t.sending.value.ref)]
            else t == s)
      case Record(p, result, now) => t.sending == None && t.trace == s.trace
        && (s.sending.Some? && Awaits(s.spool, s.sending.value) ==>
              RecordOf(p, s.spool, s.sending.value, result, now) == Ok(t.spool))
      case Drop => t == s.(sending := None)
  {
    match a
    case Other(op) =>
      if op.RedriveOp? {
        RedriveTells(h, s, op);
      }
    case Select(now) => SelectTells(h, s, now);
    case Record(p, result, now) =>
      if s.sending.Some? {
        RecordIsOp(h, p, s.spool, s.sending.value, result, now);
        RecordVerdict(h, p, s.spool, s.sending.value, result, now);
      }
    case Drop =>
  }

  lemma RedriveTells(h: Hash, s: Delivering, op: Op)
    requires Inv(h, s.spool) && op.RedriveOp?
    ensures var t := DoOther(h, s, op);
      if exists r :: IsDeadLetter(s.spool, op.sink, op.who, r)
      then |t.trace| == |s.trace| + 1 && s.trace <= t.trace && t.trace[|s.trace|].Redriven?
           && IsDeadLetter(s.spool, op.sink, op.who, t.trace[|s.trace|].ref)
      else t.trace == s.trace
  {
    RedriveKeeps(h, s.spool, op.sink, op.who, op.at);
    if r :| IsDeadLetter(s.spool, op.sink, op.who, r) {
      assert RedriveTarget(s.spool, op.sink, op.who) == Some(r);
    }
  }

  lemma SelectTells(h: Hash, s: Delivering, now: Time)
    requires Inv(h, s.spool)
    ensures var t := DoSelect(s, now);
      && t.spool == s.spool
      && if s.sending == None && exists r :: Eligible(s.spool, By(now), r)
         then t.sending.Some? && Least(s.spool, By(now), t.sending.value.ref)
              && t.trace == s.trace + [Attempted(t.sending.value.ref)]
         else t == s
  {
    SchedulerRefinement(s.spool, now);
    var r := NextDue(s.spool, TextDue(now));
    if r.Some? {
      SelectedPayload(h, s.spool, TextDue(now), r.value);
    }
  }

  // ----- Draining -----

  /** How many more attempts a row can take: at least one while it is unfinished. */
  function Weight(s: Spool, max: nat, r: Ref): nat {
    if s.OpenAt(r) then Max(1, max - s.deliveries[r].attempts) else 0
  }

  function EventWork(s: Spool, max: nat, e: nat, k: nat): nat {
    if k == 0 then 0 else EventWork(s, max, e, k - 1) + Weight(s, max, Ref(e, k - 1))
  }

  function WorkUpTo(s: Spool, max: nat, e: nat): nat {
    if e == 0 then 0 else WorkUpTo(s, max, e - 1) + EventWork(s, max, e - 1, |s.sinks|)
  }

  /** The attempts left in the whole backlog. */
  function Work(s: Spool, max: nat): nat {
    WorkUpTo(s, max, |s.events|)
  }

  lemma {:induction false} EventWorkSet(s: Spool, max: nat, r: Ref, row: DeliveryRow, e: nat, k: nat)
    ensures EventWork(SetRow(s, r, row), max, e, k) + (if e == r.event && r.sink < k then Weight(s, max, r) else 0)
         == EventWork(s, max, e, k) + (if e == r.event && r.sink < k then Weight(SetRow(s, r, row), max, r) else 0)
  {
    if k != 0 {
      EventWorkSet(s, max, r, row, e, k - 1);
    }
  }

  lemma {:induction false} WorkSet(s: Spool, max: nat, r: Ref, row: DeliveryRow, e: nat)
    requires r.sink < |s.sinks|
    ensures WorkUpTo(SetRow(s, r, row), max, e) + (if r.event < e then Weight(s, max, r) else 0)
         == WorkUpTo(s, max, e) + (if r.event < e then Weight(SetRow(s, r, row), max, r) else 0)
  {
    if e != 0 {
      WorkSet(s, max, r, row, e - 1);
      EventWorkSet(s, max, r, row, e - 1, |s.sinks|);
    }
  }

  /**
   Recording replaces one unfinished row: by a finished one, or by one with an attempt more and one still to spare.
   */
  lemma RecordShape(p: RetryPolicy, s: Spool, item: Delivery, result: AttemptResult, now: Time, t: Spool)
    requires ClockOk(p, now) && RecordOf(p, s, item, result, now) == Ok(t)
    ensures StillOpen(s, item) && item.ref in t.deliveries && t == SetRow(s, item.ref, t.deliveries[item.ref])
    ensures t.OpenAt(item.ref) ==> t.deliveries[item.ref].attempts == item.attempts + 1 < p.maxAttempts
  {
  }

  /** Recording any result, success or failure, uses up work. */
  lemma RecordingUsesWork(h: Hash, p: RetryPolicy, s: Spool, item: Delivery, result: AttemptResult, now: Time, t: Spool)
    requires Inv(h, s) && ClockOk(p, now) && RecordOf(p, s, item, result, now) == Ok(t)
    ensures Work(t, p.maxAttempts) < Work(s, p.maxAttempts)
  {
    RecordShape(p, s, item, result, now, t);
    assert item.ref.event < |s.events| && item.ref.sink < |s.sinks|;
    WorkSet(s, p.maxAttempts, item.ref, t.deliveries[item.ref], |s.events|);
  }

  lemma RecordingKeepsInv(h: Hash, p: RetryPolicy, s: Spool, item: Delivery, result: AttemptResult, now: Time, t: Spool)
    requires Inv(h, s) && ClockOk(p, now) && RecordOf(p, s, item, result, now) == Ok(t)
    ensures Inv(h, t)
  {
    AttemptKeeps(h, s, RecordAsOp(p, item, result, now));
    RecordIsOp(h, p, s, item, result, now);
    assert Apply(h, s, RecordAsOp(p, item, result, now)) == t;
  }

  /** Operations that bring no new work. */
  predicate Quiet(op: Op) {
    op.PruneOp? || op.Crash?
  }

  lemma {:induction false} EventWorkSame(s: Spool, t: Spool, max: nat, e: nat, k: nat)
    requires t.deliveries == s.deliveries
    ensures EventWork(t, max, e, k) == EventWork(s, max, e, k)
  {
    if k != 0 {
      EventWorkSame(s, t, max, e, k - 1);
    }
  }

  lemma {:induction false} WorkSame(s: Spool, t: Spool, max: nat, e: nat)
    requires t.deliveries == s.deliveries && |t.sinks| == |s.sinks|
    ensures WorkUpTo(t, max, e) == WorkUpTo(s, max, e)
  {
    if e != 0 {
      WorkSame(s, t, max, e - 1);
      EventWorkSame(s, t, max, e - 1, |s.sinks|);
    }
  }

  lemma QuietKeepsWork(h: Hash, s: Spool, op: Op, max: nat)
    requires Inv(h, s) && Quiet(op)
    ensures Inv(h, Apply(h, s, op)) && Work(Apply(h, s, op), max) == Work(s, max)
  {
    AttemptKeeps(h, s, op);
    if op.PruneOp? {
      var _ := PruneBlanks(h, s, op.options, op.now);
    }
    WorkSame(s, Apply(h, s, op), max, |s.events|);
  }

  lemma {:induction false} QuietRunKeepsWork(h: Hash, s: Spool, ops: seq<Op>, max: nat)
    requires Inv(h, s) && forall i | 0 <= i < |ops| :: Quiet(ops[i])
    ensures Inv(h, RunOps(h, s, ops)) && Work(RunOps(h, s, ops), max) == Work(s, max)
  {
    if |ops| != 0 {
      var front := ops[..|ops| - 1];
      QuietRunKeepsWork(h, s, front, max);
      QuietKeepsWork(h, RunOps(h, s, front), ops[|ops| - 1], max);
    }
  }

  /** What a ProcessOne that returns true leaves behind, with `others` happening during its send. */
  ghost predicate Processes(h: Hash, p: RetryPolicy, s: Spool, t: Spool) {
    exists now, r, others, result, later :: ProcessesBy(h, p, s, now, r, others, result, later, t)
  }

  ghost predicate ProcessesBy(h: Hash, p: RetryPolicy, s: Spool, now: Time, r: Ref, others: seq<Op>,
                              result: AttemptResult, later: Time, t: Spool) {
    && ClockOk(p, later) && (forall i | 0 <= i < |others| :: Quiet(others[i]))
    && NextDue(s, TextDue(now)) == Some(r)
    && r in s.deliveries && r.event < |s.events| && r.sink < |s.sinks|
    && RecordOf(p, RunOps(h, s, others), ItemAt(s, r), result, later) == Ok(t)
  }

  lemma ProcessingUsesWork(h: Hash, p: RetryPolicy, s: Spool, t: Spool)
    requires Inv(h, s) && Processes(h, p, s, t)
    ensures Inv(h, t) && Work(t, p.maxAttempts) < Work(s, p.maxAttempts)
  {
    var now, r, others, result, later :| ProcessesBy(h, p, s, now, r, others, result, later, t);
    QuietRunKeepsWork(h, s, others, p.maxAttempts);
    RecordingUsesWork(h, p, RunOps(h, s, others), ItemAt(s, r), result, later, t);
    RecordingKeepsInv(h, p, RunOps(h, s, others), ItemAt(s, r), result, later, t);
  }

  /** One step of a run without captures, redrives or registrations: a processed delivery, or a quiet operation. */
  ghost predicate DrainStep(h: Hash, p: RetryPolicy, s: Spool, step: Option<Op>, t: Spool) {
    if step.None? then Processes(h, p, s, t) else Quiet(step.value) && t == Apply(h, s, step.value)
  }

  ghost predicate IsDrain(h: Hash, p: RetryPolicy, spools: seq<Spool>, steps: seq<Option<Op>>) {
    |spools| == |steps| + 1 && forall i | 0 <= i < |steps| :: DrainStep(h, p, spools[i], steps[i], spools[i + 1])
  }

  lemma DrainStepUsesWork(h: Hash, p: RetryPolicy, s: Spool, step: Option<Op>, t: Spool)
    requires Inv(h, s) && DrainStep(h, p, s, step, t)
    ensures Inv(h, t)
    ensures Work(t, p.maxAttempts) + (if step.None? then 1 else 0) <= Work(s, p.maxAttempts)
  {
    if step.None? {
      ProcessingUsesWork(h, p, s, t);
    } else {
      QuietKeepsWork(h, s, step.value, p.maxAttempts);
    }
  }

  ghost function ProcessedIn(steps: seq<Option<Op>>, n: nat): nat
    requires n <= |steps|
  {
    if n == 0 then 0 else ProcessedIn(steps, n - 1) + if steps[n - 1].None? then 1 else 0
  }

  lemma DrainStepAt(h: Hash, p: RetryPolicy, spools: seq<Spool>, steps: seq<Option<Op>>, i: nat)
    requires IsDrain(h, p, spools, steps) && i < |steps| && Inv(h, spools[i])
    ensures Inv(h, spools[i + 1])
    ensures Work(spools[i + 1], p.maxAttempts) + (if steps[i].None? then 1 else 0) <= Work(spools[i], p.maxAttempts)
  {
    DrainStepUsesWork(h, p, spools[i], steps[i], spools[i + 1]);
  }

  lemma {:induction false} DrainKeepsInv(h: Hash, p: RetryPolicy, spools: seq<Spool>, steps: seq<Option<Op>>, n: nat)
    requires IsDrain(h, p, spools, steps) && n <= |steps| && Inv(h, spools[0])
    ensures Inv(h, spools[n])
  {
    if n != 0 {
      DrainKeepsInv(h, p, spools, steps, n - 1);
      DrainStepAt(h, p, spools, steps, n - 1);
    }
  }

  /** Measures that drop at every processed step bound the number of processed steps. */
  lemma {:induction false} Telescope(measures: seq<nat>, steps: seq<Option<Op>>, n: nat)
    requires |measures| == |steps| + 1 && n <= |steps|
    requires forall i | 0 <= i < |steps| :: measures[i + 1] + (if steps[i].None? then 1 else 0) <= measures[i]
    ensures ProcessedIn(steps, n) + measures[n] <= measures[0]
  {
    if n != 0 {
      Telescope(measures, steps, n - 1);
    }
  }

  /** The backlog drains: such a run records at most `Work` attempts, whatever the sinks answer. */
  lemma BacklogDrains(h: Hash, p: RetryPolicy, spools: seq<Spool>, steps: seq<Option<Op>>)
    requires IsDrain(h, p, spools, steps) && Inv(h, spools[0])
    ensures ProcessedIn(steps, |steps|) + Work(spools[|steps|], p.maxAttempts) <= Work(spools[0], p.maxAttempts)
  {
    var measures := seq(|spools|, i requires 0 <= i < |spools| => Work(spools[i], p.maxAttempts));
    forall i | 0 <= i < |steps|
      ensures measures[i + 1] + (if steps[i].None? then 1 else 0) <= measures[i]
    {
      DrainKeepsInv(h, p, spools, steps, i);
      DrainStepAt(h, p, spools, steps, i);
    }
    Telescope(measures, steps, |steps|);
  }

  lemma {:induction false} EventWorkCovers(s: Spool, max: nat, e: nat, k: nat, j: nat)
    requires j < k
    ensures Weight(s, max, Ref(e, j)) <= EventWork(s, max, e, k)
  {
    if j < k - 1 {
      EventWorkCovers(s, max, e, k - 1, j);
    }
  }

  lemma {:induction false} WorkCovers(s: Spool, max: nat, n: nat, r: Ref)
    requires r.event < n && r.sink < |s.sinks|
    ensures Weight(s, max, r) <= WorkUpTo(s, max, n)
  {
    if r.event < n - 1 {
      WorkCovers(s, max, n - 1, r);
    } else {
      EventWorkCovers(s, max, r.event, |s.sinks|, r.sink);
      assert Ref(r.event, r.sink) == r;
    }
  }

  lemma {:induction false} NoEventWork(s: Spool, max: nat, e: nat, k: nat)
    requires forall r :: !s.OpenAt(r)
    ensures EventWork(s, max, e, k) == 0
  {
    if k != 0 {
      NoEventWork(s, max, e, k - 1);
    }
  }

  lemma {:induction false} NoWork(s: Spool, max: nat, n: nat)
    requires forall r :: !s.OpenAt(r)
    ensures WorkUpTo(s, max, n) == 0
  {
    if n != 0 {
      NoWork(s, max, n - 1);
      NoEventWork(s, max, n - 1, |s.sinks|);
    }
  }

  /** No work is left exactly when every delivery is terminal. */
  lemma NoWorkMeansTerminal(h: Hash, s: Spool, max: nat)
    requires Inv(h, s)
    ensures Work(s, max) == 0 <==> forall r :: !s.OpenAt(r)
  {
    if r :| s.OpenAt(r) {
      WorkCovers(s, max, |s.events|, r);
    } else {
      NoWork(s, max, |s.events|);
    }
  }

  /** So once that many attempts are recorded, every delivery is terminal. */
  lemma BacklogEnds(h: Hash, p: RetryPolicy, spools: seq<Spool>, steps: seq<Option<Op>>)
    requires IsDrain(h, p, spools, steps) && Inv(h, spools[0])
    requires ProcessedIn(steps, |steps|) >= Work(spools[0], p.maxAttempts)
    ensures forall r :: !spools[|steps|].OpenAt(r)
  {
    BacklogDrains(h, p, spools, steps);
    DrainKeepsInv(h, p, spools, steps, |steps|);
    NoWorkMeansTerminal(h, spools[|steps|], p.maxAttempts);
  }

  /** And it never stalls: while anything is unfinished, something is due once the deadlines have passed. */
  lemma BacklogNeverStalls(h: Hash, s: Spool, now: Time)
    requires Inv(h, s) && (exists r :: s.OpenAt(r))
    requires forall r | s.OpenAt(r) :: s.deliveries[r].nextAttemptAt <= now
    ensures NextDue(s, TextDue(now)).Some?
  {
    var r :| s.OpenAt(r);
    OpenIsLive(h, s, r);
    assert Ref(r.event, r.sink) == r;
    var head := Head(s, r.sink);
    assert head.Some?;
    var x := Ref(head.value, r.sink);
    assert s.OpenAt(x) && Eligible(s, By(now), x);
    SchedulerRefinement(s, now);
  }
}
