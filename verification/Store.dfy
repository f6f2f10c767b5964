/**
 The Store: the spool's operations as the source runs them. A SQLite transaction is a local copy of the
 tables, changed statement by statement and assigned back at commit; an error or a crash drops the copy.
 */
module SqliteStore {
  import opened Basics
  import opened Timestamps
  import opened SpoolState
  import opened SpoolCapture
  import opened SpoolSinks
  import opened SpoolDelivery
  import opened SpoolPrune
  import opened SpoolRuns

  class Store {
    const hash: Hash
    var events: seq<EventRow>
    var sinks: seq<SinkRow>
    var deliveries: map<Ref, DeliveryRow>
    var checkpoint: Lsn

    function View(): Spool
      reads this
    {
      Spool(events, sinks, deliveries, checkpoint)
    }

    ghost predicate Valid()
      reads this
    {
      Inv(hash, View())
    }

    constructor (h: Hash)
      ensures hash == h && View() == EMPTY && Valid()
    {
      hash := h;
      events, sinks, deliveries, checkpoint := [], [], map[], 0;
      new;
      InvEmpty(h);
    }

    /** The transaction takes effect as a whole. */
    method Commit(tx: Spool)
      modifies this
      ensures View() == tx
    {
      events, sinks, deliveries, checkpoint := tx.events, tx.sinks, tx.deliveries, tx.checkpoint;
    }

    /** Other parts of the system at work on the same spool. */
    method OthersWork(ops: seq<Op>)
      requires Valid()
      modifies this
      ensures Valid() && View() == RunOps(hash, old(View()), ops)
    {
      RunsEvolve(hash, View(), ops);
      Commit(RunOps(hash, View(), ops));
    }

    /** `commitOk` is false when SQLite cannot commit; `clock` supplies time.Now() for each event. */
    method PersistCommittedBatch(batch: CommittedBatch, clock: nat -> Time, commitOk: bool)
      returns (r: Outcome<PersistResult>)
      requires Valid()
      modifies this
      ensures Valid()
      ensures var spec := Persist(hash, old(View()), batch, clock);
        if spec.Ok? && commitOk then r == Ok(spec.value.result) && View() == spec.value.spool
        else View() == old(View()) && r == Err(if spec.Ok? then Durability else spec.error)
      ensures r.Ok? ==> View() == Apply(hash, old(View()), PersistOp(batch, clock))
      ensures r.Ok? ==> PersistPost(hash, old(View()), batch, clock, View(), r.value)
    {
      PersistKeepsValid(hash, View(), batch, clock);
      var tx := PersistTransaction(hash, View(), batch, clock);
      if tx.Err? {
        return Err(tx.error);
      }
      if !commitOk {
        return Err(Durability);
      }
      Commit(tx.value.spool);
      r := Ok(tx.value.result);
    }

    method ConfigureSinks(registrations: seq<Registration>, now: Time, commitOk: bool) returns (r: Outcome<()>)
      requires Valid()
      modifies this
      ensures Valid()
      ensures var spec := Configure(old(View()), registrations, now);
        if spec.Ok? && commitOk then r == Ok(()) && View() == spec.value
        else View() == old(View()) && r == Err(if spec.Ok? then Durability else spec.error)
      ensures r.Ok? ==> View() == Apply(hash, old(View()), ConfigureOp(registrations, now))
      ensures r.Ok? ==> Configured(hash, old(View()), registrations, now, View())
    {
      ConfigureKeepsValid(hash, View(), registrations, now);
      var tx := ConfigureTransaction(View(), registrations, now);
      if tx.Err? {
        return Err(tx.error);
      }
      if !commitOk {
        return Err(Durability);
      }
      Commit(tx.value);
      r := Ok(());
    }

    /** The least due head; stated by the naive rule on instants. */
    method NextDueDelivery(now: Time) returns (r: Option<Delivery>)
      requires Valid()
      ensures r.Some? ==>
        && Least(View(), By(now), r.value.ref)
        && r.value.ref in deliveries && r.value.ref.event < |events| && r.value.ref.sink < |sinks|
        && r.value == ItemAt(View(), r.value.ref)
        && hash(r.value.payload) == events[r.value.ref.event].event.digest
      ensures r.None? ==> forall x :: !Eligible(View(), By(now), x)
    {
      SchedulerRefinement(View(), now);
      var next := NextDue(View(), TextDue(now));
      if next.None? {
        return None;
      }
      SelectedPayload(hash, View(), TextDue(now), next.value);
      r := Some(ItemAt(View(), next.value));
    }

    /** `commitOk` is false when SQLite cannot make the update. */
    method RecordDelivered(item: Delivery, attempt: nat, status: int, at: Time, commitOk: bool) returns (r: Outcome<()>)
      requires Valid()
      modifies this
      ensures Valid()
      ensures r == if StillOpen(old(View()), item) && commitOk then Ok(()) else Err(Durability)
      ensures r.Ok? ==> MarkDelivered(old(View()), item, attempt, status, at) == Ok(View())
      ensures r.Ok? ==>
        item.ref in deliveries && deliveries[item.ref].state == Delivered && deliveries[item.ref].attempts == attempt
      ensures r.Err? ==> View() == old(View())
    {
      MarkDeliveredKeeps(hash, View(), item, attempt, status, at);
      var result := MarkDelivered(View(), item, attempt, status, at);
      if result.Err? {
        return Err(result.error);
      }
      if !commitOk {
        return Err(Durability);
      }
      Commit(result.value);
      r := Ok(());
    }

    method RecordFailed(item: Delivery, attempt: nat, permanent: bool, retryAt: Time, failure: string, status: int,
                        at: Time, commitOk: bool)
      returns (r: Outcome<()>)
      requires Valid()
      modifies this
      ensures Valid()
      ensures r == if StillOpen(old(View()), item) && commitOk then Ok(()) else Err(Durability)
      ensures r.Ok? ==> MarkFailed(old(View()), item, attempt, permanent, retryAt, failure, status, at) == Ok(View())
      ensures r.Err? ==> View() == old(View())
      ensures r.Ok? ==> item.ref in deliveries && deliveries[item.ref].attempts == attempt &&
                        deliveries[item.ref].nextAttemptAt == retryAt && (deliveries[item.ref].Open() <==> !permanent)
    {
      MarkFailedKeeps(hash, View(), item, attempt, permanent, retryAt, failure, status, at);
      var result := MarkFailed(View(), item, attempt, permanent, retryAt, failure, status, at);
      if result.Err? {
        return Err(result.error);
      }
      if !commitOk {
        return Err(Durability);
      }
      Commit(result.value);
      r := Ok(());
    }

    method RedriveDelivery(sinkName: string, who: Identity, at: Time, commitOk: bool) returns (r: Outcome<()>)
      requires Valid()
      modifies this
      ensures Valid()
      ensures r.Err? ==> View() == old(View())
      ensures r.Ok? ==> Redrive(old(View()), sinkName, who, at) == Ok(View())
      ensures r == if !commitOk then Err(Durability)
        else if exists x :: IsDeadLetter(old(View()), sinkName, who, x) then Ok(()) else Err(NotFound)
      ensures r.Ok? ==> forall x | IsDeadLetter(old(View()), sinkName, who, x) ::
        x in deliveries && deliveries[x] == DeliveryRow(RetryWait, 0, at, None, None, None, None, None)
      ensures r.Ok? ==> View() == Apply(hash, old(View()), RedriveOp(sinkName, who, at))
    {
      if !commitOk {
        return Err(Durability);
      }
      RedriveKeeps(hash, View(), sinkName, who, at);
      var result := Redrive(View(), sinkName, who, at);
      if result.Err? {
        return Err(result.error);
      }
      Commit(result.value);
      r := Ok(());
    }

    method PrunePayloads(options: PruneOptions, now: Time, commitOk: bool) returns (r: Outcome<PruneResult>)
      requires Valid()
      modifies this
      ensures Valid()
      ensures var spec := Prune(old(View()), options, now);
        if spec.Ok? && commitOk then r == Ok(spec.value.result) && View() == spec.value.spool
        else View() == old(View()) && r == Err(if spec.Ok? then Durability else spec.error)
      ensures r.Ok? ==> View() == Apply(hash, old(View()), PruneOp(options, now))
      ensures r.Ok? ==> PruneReported(hash, old(View()), options, now, View(), r.value)
    {
      PruneKeepsValid(hash, View(), options, now);
      var tx := PruneTransaction(View(), options, now);
      if tx.Err? {
        return Err(tx.error);
      }
      if !commitOk {
        return Err(Durability);
      }
      Commit(tx.value.spool);
      r := Ok(tx.value.result);
    }
  }

  lemma PersistKeepsValid(h: Hash, s: Spool, b: CommittedBatch, clock: nat -> Time)
    requires Inv(h, s)
    ensures var r := Persist(h, s, b, clock);
      r.Ok? ==>
        && Inv(h, r.value.spool) && r.value.spool == Apply(h, s, PersistOp(b, clock))
        && PersistPost(h, s, b, clock, r.value.spool, r.value.result)
  {
    PersistVerdict(h, s, b, clock);
  }

  lemma ConfigureKeepsValid(h: Hash, s: Spool, regs: seq<Registration>, now: Time)
    requires Inv(h, s)
    ensures var r := Configure(s, regs, now);
      r.Ok? ==>
        Inv(h, r.value) && r.value == Apply(h, s, ConfigureOp(regs, now)) && Configured(h, s, regs, now, r.value)
  {
    ConfigureVerdict(h, s, regs, now);
  }

  /** What a committed prune did: it is the specified one, for the events that were expired. */
  ghost predicate PruneReported(h: Hash, s: Spool, o: PruneOptions, now: Time, t: Spool, result: PruneResult) {
    0 <= o.limit && PrunePost(h, s, o, now, Pruning(t, result), Chosen(s, o))
  }

  lemma PruneKeepsValid(h: Hash, s: Spool, o: PruneOptions, now: Time)
    requires Inv(h, s)
    ensures var r := Prune(s, o, now);
      r.Ok? ==>
        && Inv(h, r.value.spool) && r.value.spool == Apply(h, s, PruneOp(o, now))
        && PruneReported(h, s, o, now, r.value.spool, r.value.result)
  {
    PruneVerdict(h, s, o, now);
    PruneIsStep(h, s, o, now);
  }

  lemma PruneIsStep(h: Hash, s: Spool, o: PruneOptions, now: Time)
    ensures Prune(s, o, now).Ok? ==> Apply(h, s, PruneOp(o, now)) == Prune(s, o, now).value.spool
  {
  }

  // ----- Transaction bodies -----

  /** The statements of PersistCommittedBatch between begin and commit. */
  method PersistTransaction(h: Hash, s: Spool, batch: CommittedBatch, clock: nat -> Time)
    returns (r: Outcome<Persisted>)
    ensures r == Persist(h, s, batch, clock)
  {
    if batch.commit.commitEndLsn < batch.commit.commitLsn {
      return Err(Durability);
    }
    var progress := Progress(s, 0, 0);
    for index := 0 to |batch.events|
      invariant Ingest(h, s, batch, clock, index) == Ok(progress)
      invariant progress.spool.checkpoint == s.checkpoint
    {
      IngestStops(h, s, batch, clock, index);
      var step := IngestEvent(h, progress, batch, batch.events[index], index, clock(index));
      if step.Err? {
        return Err(step.error);
      }
      progress := step.value;
    }
    var tx := progress.spool;
    var durable := tx.checkpoint;
    if batch.commit.commitEndLsn > tx.checkpoint {
      tx := tx.(checkpoint := batch.commit.commitEndLsn);
      durable := batch.commit.commitEndLsn;
    }
    r := Ok(Persisted(tx, PersistResult(progress.inserted, progress.replayed, durable)));
  }

  /** One turn of the loop: validateCapturedEvent, insertOrVerify, ensureDeliveriesForEvent, and the count. */
  method IngestEvent(h: Hash, p: Progress, batch: CommittedBatch, captured: CapturedEvent, index: nat, at: Time)
    returns (r: Outcome<Progress>)
    ensures r == IngestOne(h, p, batch, captured, index, at)
    ensures r.Ok? ==> r.value.spool.checkpoint == p.spool.checkpoint
    ensures r.Ok? ==> r.value.inserted + r.value.replayed == p.inserted + p.replayed + 1
  {
    if !ValidCaptured(h, batch, captured, index) {
      return Err(Durability);
    }
    var tx := p.spool;
    var known := Lookup(tx.events, captured.Ident());
    if known.Some? && tx.events[known.value].event.digest != captured.digest {
      return Err(IdentityConflict);
    }
    var sequence := if known.Some? then known.value else |tx.events|;
    if known.None? {
      tx := AppendEvent(tx, captured);
    }
    var ensured := EnsureDeliveries(tx, sequence, at);
    if ensured.Err? {
      return Err(ensured.error);
    }
    if known.None? {
      r := Ok(Progress(ensured.value, p.inserted + 1, p.replayed));
    } else {
      r := Ok(Progress(ensured.value, p.inserted, p.replayed + 1));
    }
  }

  method ConfigureTransaction(s: Spool, registrations: seq<Registration>, now: Time) returns (r: Outcome<Spool>)
    ensures r == Configure(s, registrations, now)
  {
    var registered, configured := RegisterAll(s, registrations, now);
    if registered.Err? {
      return Err(registered.error);
    }
    r := RemoveOthers(registered.value, configured);
  }

  /** The loop over the registrations, remembering the names. */
  method RegisterAll(s: Spool, registrations: seq<Registration>, now: Time)
    returns (r: Outcome<Spool>, configured: set<string>)
    ensures r == Register(s, registrations, now, |registrations|)
    ensures r.Ok? ==> configured == Names(registrations, |registrations|)
  {
    var tx := s;
    configured := {};
    for n := 0 to |registrations|
      invariant Register(s, registrations, now, n) == Ok(tx)
      invariant configured == Names(registrations, n)
    {
      RegisterStops(s, registrations, now, n);
      var step := RegisterOne(tx, registrations[n], configured, now);
      if step.Err? {
        return Err(step.error), configured;
      }
      tx := step.value;
      configured := configured + {registrations[n].name};
      assert configured == Names(registrations, n + 1);
    }
    r := Ok(tx);
  }

  /** The active sinks that were not configured, in id order. */
  method CollectOthers(s: Spool, configured: set<string>) returns (ids: seq<nat>)
    ensures Increasing(ids)
    ensures forall k: nat :: k in ids <==> Droppable(s, configured, k)
  {
    ids := [];
    for k := 0 to |s.sinks|
      invariant Increasing(ids)
      invariant forall i: nat :: i in ids <==> i < k && Droppable(s, configured, i)
    {
      if s.sinks[k].active && s.sinks[k].name !in configured {
        assert forall i | 0 <= i < |ids| :: ids[i] in ids;
        ids := ids + [k];
      }
    }
  }

  /** Switches each of them off, unless it still has work. */
  method RemoveOthers(s: Spool, configured: set<string>) returns (r: Outcome<Spool>)
    ensures r == Deactivate(s, configured, |s.sinks|)
  {
    var ids := CollectOthers(s, configured);
    var tx := s;
    var settled: nat := 0;
    for n := 0 to |ids|
      invariant settled <= |s.sinks| && Deactivate(s, configured, settled) == Ok(tx)
      invariant settled == if n == 0 then 0 else ids[n - 1] + 1
    {
      var k := ids[n];
      assert k in ids;
      GapsStay(s, configured, ids, n);
      DeactivateSkips(s, configured, settled, k);
      DeactivateUntouched(s, configured, k, tx);
      if Busy(tx, k) {
        DeactivateStops(s, configured, k + 1, |s.sinks|);
        return Err(SinkBusy);
      }
      tx := tx.(sinks := tx.sinks[k := tx.sinks[k].(active := false)]);
      settled := k + 1;
    }
    GapsStay(s, configured, ids, |ids|);
    DeactivateSkips(s, configured, settled, |s.sinks|);
    r := Ok(tx);
  }

  /** Between two collected ids, and after the last, there is nothing to remove. */
  lemma GapsStay(s: Spool, keep: set<string>, ids: seq<nat>, n: nat)
    requires n <= |ids| && Increasing(ids) && forall k: nat :: k in ids <==> Droppable(s, keep, k)
    ensures var low, high := if n == 0 then 0 else ids[n - 1] + 1, if n < |ids| then ids[n] else |s.sinks|;
      low <= high && forall k: nat | low <= k < high :: !Droppable(s, keep, k)
  {
    var low, high := if n == 0 then 0 else ids[n - 1] + 1, if n < |ids| then ids[n] else |s.sinks|;
    assert n != 0 ==> ids[n - 1] in ids;
    assert forall i | 0 <= i < |ids| :: ids[i] < low || high <= ids[i];
  }

  method PruneTransaction(s: Spool, options: PruneOptions, now: Time) returns (r: Outcome<Pruning>)
    ensures r == Prune(s, options, now)
  {
    if !OptionsOk(options, now) {
      return Err(BadOptions);
    }
    var chosen: seq<nat> := Candidates(s, TextBefore(options.before), 0, options.limit);
    CandidatesInRange(s, TextBefore(options.before), 0, options.limit);
    var result := CollectEntries(s, chosen);
    var tx := s;
    if !options.dryRun {
      for i := 0 to |chosen|
        invariant PruneAll(s, chosen, now, i) == Ok(tx)
      {
        PruneStops(s, chosen, now, i);
        var changed := PruneOne(tx, chosen[i], now);
        if changed.Err? {
          return Err(changed.error);
        }
        tx := changed.value;
      }
    }
    r := Ok(Pruning(tx, result));
  }

  method CollectEntries(s: Spool, chosen: seq<nat>) returns (r: PruneResult)
    requires InRange(s, chosen)
    ensures r == ResultOf(s, chosen)
    ensures |r.entries| == |chosen| && forall i | 0 <= i < |chosen| :: r.entries[i] == EntryOf(s, chosen[i])
  {
    var entries: seq<PruneEntry>, payloadBytes: nat := [], 0;
    for i := 0 to |chosen|
      invariant ResultOf(s, chosen[..i]) == PruneResult(entries, payloadBytes)
    {
      assert chosen[..i + 1][..i] == chosen[..i];
      var entry := EntryOf(s, chosen[i]);
      entries := entries + [entry];
      payloadBytes := payloadBytes + entry.payloadBytes;
    }
    assert chosen[..|chosen|] == chosen;
    ResultEntries(s, chosen);
    r := PruneResult(entries, payloadBytes);
  }

  // ----- An error anywhere in a loop is the error of the whole transaction -----

  lemma {:induction false} IngestAfter(h: Hash, s: Spool, b: CommittedBatch, clock: nat -> Time, m: nat, n: nat)
    requires m <= n <= |b.events| && Ingest(h, s, b, clock, m).Err?
    ensures Ingest(h, s, b, clock, n) == Ingest(h, s, b, clock, m)
    decreases n
  {
    if m < n {
      IngestAfter(h, s, b, clock, m, n - 1);
    }
  }

  lemma IngestStops(h: Hash, s: Spool, b: CommittedBatch, clock: nat -> Time, n: nat)
    requires n < |b.events|
    ensures Ingest(h, s, b, clock, n + 1).Err? ==>
      Ingest(h, s, b, clock, |b.events|) == Ingest(h, s, b, clock, n + 1)
  {
    if Ingest(h, s, b, clock, n + 1).Err? {
      IngestAfter(h, s, b, clock, n + 1, |b.events|);
    }
  }

  lemma {:induction false} RegisterAfter(s: Spool, regs: seq<Registration>, now: Time, m: nat, n: nat)
    requires m <= n <= |regs| && Register(s, regs, now, m).Err?
    ensures Register(s, regs, now, n) == Register(s, regs, now, m)
    decreases n
  {
    if m < n {
      RegisterAfter(s, regs, now, m, n - 1);
    }
  }

  lemma RegisterStops(s: Spool, regs: seq<Registration>, now: Time, n: nat)
    requires n < |regs|
    ensures Register(s, regs, now, n + 1).Err? ==> Register(s, regs, now, |regs|) == Register(s, regs, now, n + 1)
  {
    if Register(s, regs, now, n + 1).Err? {
      RegisterAfter(s, regs, now, n + 1, |regs|);
    }
  }

  lemma {:induction false} PruneAfter(s: Spool, es: seq<nat>, now: Time, m: nat, n: nat)
    requires m <= n <= |es| && PruneAll(s, es, now, m).Err?
    ensures PruneAll(s, es, now, n) == PruneAll(s, es, now, m)
    decreases n
  {
    if m < n {
      PruneAfter(s, es, now, m, n - 1);
    }
  }

  lemma PruneStops(s: Spool, es: seq<nat>, now: Time, n: nat)
    requires n < |es|
    ensures PruneAll(s, es, now, n + 1).Err? ==> PruneAll(s, es, now, |es|) == PruneAll(s, es, now, n + 1)
  {
    if PruneAll(s, es, now, n + 1).Err? {
      PruneAfter(s, es, now, n + 1, |es|);
    }
  }

  // ----- Collecting the sinks to remove, then removing them -----

  predicate Droppable(s: Spool, keep: set<string>, k: nat) {
    s.Active(k) && s.sinks[k].name !in keep
  }

  lemma {:induction false} DeactivateStops(s: Spool, keep: set<string>, m: nat, n: nat)
    requires m <= n <= |s.sinks| && Deactivate(s, keep, m).Err?
    ensures Deactivate(s, keep, n) == Deactivate(s, keep, m)
    decreases n
  {
    if m < n {
      DeactivateStops(s, keep, m, n - 1);
    }
  }

  lemma {:induction false} DeactivateUntouched(s: Spool, keep: set<string>, n: nat, t: Spool)
    requires n <= |s.sinks| && Deactivate(s, keep, n) == Ok(t)
    ensures forall k: nat | n <= k < |s.sinks| :: t.sinks[k] == s.sinks[k]
  {
    if n != 0 {
      DeactivateUntouched(s, keep, n - 1, Deactivate(s, keep, n - 1).value);
    }
  }

  /** Sinks that are not to be removed are passed over. */
  lemma {:induction false} DeactivateSkips(s: Spool, keep: set<string>, m: nat, n: nat)
    requires m <= n <= |s.sinks|
    requires forall k: nat | m <= k < n :: !Droppable(s, keep, k)
    ensures Deactivate(s, keep, n) == Deactivate(s, keep, m)
    decreases n
  {
    if m < n {
      DeactivateSkips(s, keep, m, n - 1);
      assert !Droppable(s, keep, n - 1);
      if Deactivate(s, keep, n - 1).Ok? {
        DeactivateUntouched(s, keep, n - 1, Deactivate(s, keep, n - 1).value);
      }
    }
  }
}
