/** The delivery worker: one delivery at a time, retries with bounded backoff, dead letters. */
module DeliveryWorker {
  import opened Basics
  import opened Timestamps
  import opened SpoolState
  import opened SpoolDelivery
  import opened SpoolRuns
  import opened SqliteStore
  import opened Webhooks

  const MAX_STORED_ERROR := 2048

  function Truncate(s: string): (r: string)
    ensures r <= s && |r| == Min(|s|, MAX_STORED_ERROR)
  {
    if |s| <= MAX_STORED_ERROR then s else s[..MAX_STORED_ERROR]
  }

  function Pow2(n: nat): (p: nat)
    ensures p >= 1
  {
    if n == 0 then 1 else 2 * Pow2(n - 1)
  }

  lemma {:induction false} Pow2Monotone(m: nat, n: nat)
    requires m <= n
    ensures Pow2(m) <= Pow2(n)
    decreases n
  {
    if m < n {
      Pow2Monotone(m, n - 1);
    }
  }

  /** The delay after k failed attempts: doubled each time, capped. */
  function Backoff(initial: nat, max: nat, k: nat): nat {
    Min(max, initial * Pow2(k))
  }

  lemma BackoffCapped(initial: nat, max: nat, i: nat, k: nat)
    requires i <= k && max <= initial * Pow2(i)
    ensures Backoff(initial, max, k) == max
  {
    Pow2Monotone(i, k);
    ScaleMonotone(initial, Pow2(i), Pow2(k));
  }

  lemma ScaleMonotone(a: nat, b: nat, c: nat)
    requires b <= c
    ensures a * b <= a * c
  {
    assert a * c - a * b == a * (c - b);
  }

  /** Delays in nanoseconds, within what the configuration admits. */
  datatype RetryPolicy = RetryPolicy(initialDelay: nat, maxDelay: nat, maxAttempts: nat)

  predicate PolicyOk(p: RetryPolicy) {
    p.maxDelay <= MAX_INT64 && p.initialDelay <= MAX_INT64
  }

  /** The doubling loop computes the capped power without leaving 64 bits. */
  method RetryDelay(p: RetryPolicy, previousAttempts: nat) returns (delay: nat)
    requires PolicyOk(p)
    ensures delay == Backoff(p.initialDelay, p.maxDelay, previousAttempts)
    ensures delay <= p.maxDelay
  {
    delay := p.initialDelay;
    var i := 0;
    while i < previousAttempts && delay < p.maxDelay
      invariant i <= previousAttempts
      invariant delay == p.initialDelay * Pow2(i) <= MAX_INT64
    {
      if delay > p.maxDelay / 2 {
        assert p.initialDelay * Pow2(i + 1) == delay * 2;
        BackoffCapped(p.initialDelay, p.maxDelay, i + 1, previousAttempts);
        return p.maxDelay;
      }
      assert p.initialDelay * Pow2(i + 1) == delay * 2;
      delay := delay * 2;
      i := i + 1;
    }
    if i < previousAttempts {
      BackoffCapped(p.initialDelay, p.maxDelay, i, previousAttempts);
    }
    if delay > p.maxDelay {
      return p.maxDelay;
    }
  }

  /** What a failed attempt is recorded as. */
  datatype FailurePlan = FailurePlan(permanent: bool, delay: nat)

  /** Dead-letter or retry, and when: Retry-After can lengthen the backoff but not past the maximum. */
  function Plan(p: RetryPolicy, attempts: nat, result: AttemptResult): (plan: FailurePlan)
    ensures plan.delay <= p.maxDelay
    ensures !plan.permanent ==> Backoff(p.initialDelay, p.maxDelay, attempts) <= plan.delay
  {
    if !result.retryable || attempts + 1 >= p.maxAttempts then FailurePlan(true, 0)
    else FailurePlan(false, Max(Backoff(p.initialDelay, p.maxDelay, attempts), Min(result.retryAfter, p.maxDelay)))
  }

  /**
   A refused response: it is retried exactly for the retryable statuses while attempts are left, and the 64-bit
   saturation of a huge Retry-After never shows, because the maximum delay caps it anyway.
   */
  lemma ResponsePlan(p: RetryPolicy, attempts: nat, status: int, seconds: int)
    requires PolicyOk(p) && -0x8000_0000_0000_0000 <= seconds <= MAX_INT64 && !(200 <= status < 300)
    ensures var plan := Plan(p, attempts, Classify(status, RetryAfterSeconds(seconds)));
      && (plan.permanent <==> attempts + 1 >= p.maxAttempts || !(status in {408, 425, 429} || status >= 500))
      && (!plan.permanent ==>
             plan.delay == Max(Backoff(p.initialDelay, p.maxDelay, attempts), Min(p.maxDelay, seconds * SECOND)))
  {
  }

  method PlanFailure(p: RetryPolicy, attempts: nat, result: AttemptResult) returns (plan: FailurePlan)
    requires PolicyOk(p)
    ensures plan == Plan(p, attempts, result)
  {
    if !result.retryable || attempts + 1 >= p.maxAttempts {
      return FailurePlan(true, 0);
    }
    var delay := RetryDelay(p, attempts);
    if result.retryAfter > delay {
      delay := result.retryAfter;
      if delay > p.maxDelay {
        delay := p.maxDelay;
      }
    }
    plan := FailurePlan(false, delay);
  }

  datatype WorkerError = UnknownSink | RecordFailed(cause: Error)

  /** The clock is far enough from the year 10000 to schedule a retry. */
  predicate ClockOk(p: RetryPolicy, now: Time) {
    now + p.maxDelay < DAY_LIMIT * SECONDS_PER_DAY * NANOS_PER_SECOND
  }

  /** How an attempt is recorded, given the item, the sink's answer and the time. */
  function RecordOf(p: RetryPolicy, t: Spool, item: Delivery, result: AttemptResult, now: Time): Outcome<Spool>
    requires ClockOk(p, now)
  {
    if result.success then MarkDelivered(t, item, item.attempts + 1, result.status, now)
    else RecordPlan(p, t, item, Plan(p, item.attempts, result), Truncate(result.failure), result.status, now)
  }

  /** How a failure is recorded once it is decided what to do about it. */
  function RecordPlan(p: RetryPolicy, t: Spool, item: Delivery, plan: FailurePlan, failure: string, status: int,
                      now: Time): Outcome<Spool>
    requires ClockOk(p, now) && plan.delay <= p.maxDelay
  {
    MarkFailed(t, item, item.attempts + 1, plan.permanent, RetryAt(p, plan, now), failure, status, now)
  }

  function RetryAt(p: RetryPolicy, plan: FailurePlan, now: Time): (at: Time)
    requires ClockOk(p, now) && plan.delay <= p.maxDelay
    ensures now <= at <= now + p.maxDelay
  {
    now + plan.delay
  }

  /** A failure that is not worth another attempt, or has had its last. */
  predicate Final(p: RetryPolicy, item: Delivery, result: AttemptResult) {
    !result.retryable || item.attempts + 1 >= p.maxAttempts
  }

  /** What recording leaves in the spool, for every result: the delivery's row is finished, or due again in time. */
  lemma RecordVerdict(h: Hash, p: RetryPolicy, s: Spool, item: Delivery, result: AttemptResult, now: Time)
    requires Inv(h, s) && ClockOk(p, now)
    ensures var r, attempt := RecordOf(p, s, item, result, now), item.attempts + 1;
      && (r.Ok? <==> Awaits(s, item))
      && (r.Ok? && result.success ==> DeliveryNoted(s, item.ref, attempt, result.status, now, r.value))
      && (r.Ok? && !result.success ==>
            var delay := Max(Backoff(p.initialDelay, p.maxDelay, item.attempts), Min(result.retryAfter, p.maxDelay));
            && 0 <= delay <= p.maxDelay
            && FailureNoted(s, item.ref, attempt, Final(p, item, result),
                            if Final(p, item, result) then now else now + delay,
                            result.failure[..Min(|result.failure|, 2048)], result.status, now, r.value))
  {
    var failure := result.failure[..Min(|result.failure|, 2048)];
    assert Truncate(result.failure) == failure;
    if result.success {
      MarkDeliveredKeeps(h, s, item, item.attempts + 1, result.status, now);
    } else {
      var plan := Plan(p, item.attempts, result);
      var at := RetryAt(p, plan, now);
      MarkFailedKeeps(h, s, item, item.attempts + 1, plan.permanent, at, failure, result.status, now);
    }
  }

  /**
   What a response does to the row it answers for: delivered exactly on 200 to 299, waiting exactly on a transient
   status with attempts left, a dead letter otherwise.
   */
  lemma ResponseRecorded(h: Hash, p: RetryPolicy, s: Spool, item: Delivery, status: int, seconds: int, now: Time)
    requires Inv(h, s) && PolicyOk(p) && ClockOk(p, now) && Awaits(s, item)
    requires -0x8000_0000_0000_0000 <= seconds <= MAX_INT64
    ensures var r := RecordOf(p, s, item, Classify(status, RetryAfterSeconds(seconds)), now);
      && r.Ok? && OneRowSet(s, item.ref, r.value) && item.ref in r.value.deliveries
      && var row := r.value.deliveries[item.ref];
      && AttemptNoted(row, item.attempts + 1, status, now)
      && row.state == (if 200 <= status <= 299 then Delivered
                       else if Transient(status) && item.attempts + 1 < p.maxAttempts then RetryWait else DeadLetter)
      && row.deliveredAt == (if row.state == Delivered then Some(now) else None)
      && row.deadLetteredAt == (if row.state == DeadLetter then Some(now) else None)
      && (row.lastError == None <==> row.state == Delivered)
      && (row.state == RetryWait ==>
            row.nextAttemptAt
              == now + Max(Backoff(p.initialDelay, p.maxDelay, item.attempts),
                           Min(p.maxDelay, seconds * NANOS_PER_SECOND)))
  {
    ClassifyVerdict(status, RetryAfterSeconds(seconds));
    RecordVerdict(h, p, s, item, Classify(status, RetryAfterSeconds(seconds)), now);
  }

  class Worker {
    const store: Store
    const sinks: set<string>
    const policy: RetryPolicy

    constructor (store: Store, sinks: set<string>, policy: RetryPolicy)
      ensures this.store == store && this.sinks == sinks && this.policy == policy
    {
      this.store, this.sinks, this.policy := store, sinks, policy;
    }

    /**
     ProcessOne: select, send, record. `others` is what the rest of the system does during the send, `result` the
     sink's answer, `cancelled` whether the worker was shut down meanwhile and `commitOk` whether SQLite can make the
     update. Only that makes recording fail: the row is always still there.
     */
    method ProcessOne(now: Time, others: seq<Op>, result: AttemptResult, cancelled: bool, later: Time, commitOk: bool)
      returns (processed: bool, err: Option<WorkerError>)
      requires store.Valid() && PolicyOk(policy)
      requires forall i | 0 <= i < |others| :: ByOthers(others[i])
      requires ClockOk(policy, later)
      modifies store
      ensures store.Valid()
      ensures var s := old(store.View());
        match NextDue(s, TextDue(now))
        case None => !processed && err == None && store.View() == s
        case Some(r) =>
          && r in s.deliveries && r.event < |s.events| && r.sink < |s.sinks|
          && var item, t := ItemAt(s, r), RunOps(store.hash, s, others);
          if item.sinkName !in sinks then !processed && err == Some(UnknownSink) && store.View() == s
          else if cancelled && !result.success then !processed && err == None && store.View() == t
          else if !commitOk then !processed && err == Some(RecordFailed(Durability)) && store.View() == t
          else processed && err == None && RecordOf(policy, t, item, result, later) == Ok(store.View())
    {
      ghost var s := store.View();
      var next := NextDue(store.View(), TextDue(now));
      if next.None? {
        return false, None;
      }
      SelectedPayload(store.hash, s, TextDue(now), next.value);
      var item := ItemAt(store.View(), next.value);
      if item.sinkName !in sinks {
        return false, Some(UnknownSink);
      }
      store.OthersWork(others);
      if cancelled && !result.success {
        return false, None;
      }
      SendIsUndisturbed(store.hash, s, TextDue(now), next.value, others, 0, true, later, "", 0, later);
      var done := Record(item, result, later, commitOk);
      if done.Err? {
        return false, Some(RecordFailed(done.error));
      }
      return true, None;
    }

    /** The guarded update: its row is still there, so it fails only when SQLite does. */
    method Record(item: Delivery, result: AttemptResult, later: Time, commitOk: bool) returns (done: Outcome<()>)
      requires store.Valid() && PolicyOk(policy) && ClockOk(policy, later) && StillOpen(store.View(), item)
      modifies store
      ensures store.Valid() && done == if commitOk then Ok(()) else Err(Durability)
      ensures if commitOk then RecordOf(policy, old(store.View()), item, result, later) == Ok(store.View())
        else store.View() == old(store.View())
    {
      if result.success {
        done := RecordSuccess(item, result, later, commitOk);
      } else {
        done := RecordFailure(item, result, later, commitOk);
      }
    }

    method RecordSuccess(item: Delivery, result: AttemptResult, later: Time, commitOk: bool) returns (done: Outcome<()>)
      requires store.Valid() && ClockOk(policy, later) && StillOpen(store.View(), item) && result.success
      modifies store
      ensures store.Valid() && done == if commitOk then Ok(()) else Err(Durability)
      ensures if commitOk then RecordOf(policy, old(store.View()), item, result, later) == Ok(store.View())
        else store.View() == old(store.View())
    {
      done := store.RecordDelivered(item, item.attempts + 1, result.status, later, commitOk);
    }

    method RecordFailure(item: Delivery, result: AttemptResult, later: Time, commitOk: bool) returns (done: Outcome<()>)
      requires store.Valid() && PolicyOk(policy) && ClockOk(policy, later)
      requires StillOpen(store.View(), item) && !result.success
      modifies store
      ensures store.Valid() && done == if commitOk then Ok(()) else Err(Durability)
      ensures if commitOk then RecordOf(policy, old(store.View()), item, result, later) == Ok(store.View())
        else store.View() == old(store.View())
    {
      var plan := PlanFailure(policy, item.attempts, result);
      done := RecordPlanned(item, plan, Truncate(result.failure), result.status, later, commitOk);
    }

    method RecordPlanned(item: Delivery, plan: FailurePlan, failure: string, status: int, later: Time, commitOk: bool)
      returns (done: Outcome<()>)
      requires store.Valid() && ClockOk(policy, later) && plan.delay <= policy.maxDelay && StillOpen(store.View(), item)
      modifies store
      ensures store.Valid() && done == if commitOk then Ok(()) else Err(Durability)
      ensures !commitOk ==> store.View() == old(store.View())
      ensures commitOk ==> RecordPlan(policy, old(store.View()), item, plan, failure, status, later) == Ok(store.View())
    {
      var at := RetryAt(policy, plan, later);
      done := store.RecordFailed(item, item.attempts + 1, plan.permanent, at, failure, status, later, commitOk);
    }
  }
}
