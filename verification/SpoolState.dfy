/**
 The tables of the SQLite spool as one value, and the invariant every operation keeps.

 An event's sequence number is its position in `events` and a sink's id its position in
 `sinks`: rows are never deleted and AUTOINCREMENT only ever appends, so position and
 number order rows the same way.
 */
module SpoolState {
  import opened Basics
  import opened Timestamps

  datatype Error =
    | Durability         // spool.ErrDurability
    | IdentityConflict   // spool.ErrIdentityConflict
    | SinkConflict       // delivery.ErrSinkConfigurationConflict
    | SinkBusy           // an active sink with non-terminal deliveries cannot be removed
    | NotFound           // no matching dead-letter delivery
    | BadOptions         // prune options out of range
    | TriggerAbort       // a schema trigger raised ABORT

  datatype Outcome<+T> = Ok(value: T) | Err(error: Error)

  // ----- Rows -----

  datatype Identity = Identity(source: string, id: string)

  datatype CommitInfo = CommitInfo(transactionId: nat, commitLsn: Lsn, commitEndLsn: Lsn, commitTime: Time)

  datatype CapturedEvent = CapturedEvent(
    source: string, id: string, kind: string, subject: string,
    payload: Bytes, digest: Digest, messageLsn: Lsn,
    commit: CommitInfo, messageIndex: nat)
  {
    function Ident(): Identity {
      Identity(source, id)
    }
  }

  datatype CommittedBatch = CommittedBatch(commit: CommitInfo, events: seq<CapturedEvent>)

  /** A row of `events`: what was captured, and when its payload was pruned. */
  datatype EventRow = EventRow(event: CapturedEvent, prunedAt: Option<Time>) {
    function Ident(): Identity {
      event.Ident()
    }
    predicate Retained() {
      prunedAt.None?
    }
  }

  datatype SinkRow = SinkRow(name: string, kind: string, fingerprint: Digest, active: bool)

  datatype DeliveryState = Pending | RetryWait | Delivered | DeadLetter

  datatype DeliveryRow = DeliveryRow(
    state: DeliveryState, attempts: nat, nextAttemptAt: Time,
    lastAttemptAt: Option<Time>, deliveredAt: Option<Time>, deadLetteredAt: Option<Time>,
    lastError: Option<string>, responseStatus: Option<int>)
  {
    predicate Open()
      ensures Open() <==> !(state == Delivered || state == DeadLetter)
    {
      state == Pending || state == RetryWait
    }
  }

  /** The primary key (event_sequence, sink_id) of `deliveries`. */
  datatype Ref = Ref(event: nat, sink: nat)

  datatype Spool = Spool(
    events: seq<EventRow>, sinks: seq<SinkRow>,
    deliveries: map<Ref, DeliveryRow>, checkpoint: Lsn)
  {
    predicate Pruned(e: nat) {
      e < |events| && events[e].prunedAt.Some?
    }
    predicate Active(k: nat) {
      k < |sinks| && sinks[k].active
    }
    predicate OpenAt(r: Ref) {
      r in deliveries && deliveries[r].Open()
    }
  }

  const EMPTY := Spool([], [], map[], 0)

  // ----- Schema triggers (migrations/003_payload_retention.sql) -----

  /** events_prune_requires_delivered */
  predicate PruneAborts(s: Spool, e: nat) {
    !s.Pruned(e) &&
    ((forall r | r in s.deliveries :: r.event != e) ||
     (exists r | r in s.deliveries ::
         r.event == e && (s.deliveries[r].state != Delivered || s.deliveries[r].deliveredAt.None?)))
  }

  /** events_pruned_payload_immutable */
  predicate RewriteAborts(s: Spool, e: nat) {
    s.Pruned(e)
  }

  /** deliveries_require_payload */
  predicate InsertAborts(s: Spool, r: Ref) {
    s.Pruned(r.event)
  }

  /** deliveries_pruned_terminal */
  predicate UpdateAborts(s: Spool, r: Ref, state: DeliveryState) {
    state != Delivered && s.Pruned(r.event)
  }

  // ----- The invariant -----

  /** Source and id identify an event. */
  ghost predicate DistinctEvents(s: Spool) {
    forall i, j | 0 <= i < j < |s.events| :: s.events[i].Ident() != s.events[j].Ident()
  }

  /** A retained payload hashes to its stored digest; a pruned one is empty. */
  ghost predicate PayloadsKept(h: Hash, s: Spool) {
    forall i | 0 <= i < |s.events| ::
      if s.events[i].Retained() then h(s.events[i].event.payload) == s.events[i].event.digest
      else s.events[i].event.payload == []
  }

  /** The name identifies a sink. */
  ghost predicate DistinctSinks(s: Spool) {
    forall i, j | 0 <= i < j < |s.sinks| :: s.sinks[i].name != s.sinks[j].name
  }

  ghost predicate ForeignKeys(s: Spool) {
    forall r | r in s.deliveries :: r.event < |s.events| && r.sink < |s.sinks|
  }

  /** Every active sink has a delivery of every event whose payload is retained. */
  ghost predicate Covered(s: Spool) {
    forall e: nat, k: nat | e < |s.events| && s.Active(k) && !s.Pruned(e) :: Ref(e, k) in s.deliveries
  }

  /** A removed sink has no unfinished delivery. */
  ghost predicate InactiveSettled(s: Spool) {
    forall r | r in s.deliveries && !s.Active(r.sink) :: !s.deliveries[r].Open()
  }

  /** Every delivery of a pruned event succeeded. */
  ghost predicate PrunedDelivered(s: Spool) {
    forall r | r in s.deliveries && s.Pruned(r.event) :: s.deliveries[r].state == Delivered
  }

  /** A pruned event was delivered to somebody. */
  ghost predicate PrunedHasDelivery(s: Spool) {
    forall e: nat | s.Pruned(e) :: exists k: nat :: Ref(e, k) in s.deliveries
  }

  ghost predicate SuccessStamped(s: Spool) {
    forall r | r in s.deliveries :: s.deliveries[r].state == Delivered <==> s.deliveries[r].deliveredAt.Some?
  }

  ghost predicate Inv(h: Hash, s: Spool) {
    && DistinctEvents(s) && PayloadsKept(h, s) && DistinctSinks(s) && ForeignKeys(s)
    && Covered(s) && InactiveSettled(s)
    && PrunedDelivered(s) && PrunedHasDelivery(s) && SuccessStamped(s)
  }

  lemma InvEmpty(h: Hash)
    ensures Inv(h, EMPTY)
  {
  }

  // ----- Creating missing deliveries -----

  function FreshDelivery(at: Time): DeliveryRow {
    DeliveryRow(Pending, 0, at, None, None, None, None, None)
  }

  /** A row nobody has worked on: pending, without attempts or results, and due from `at` on. */
  predicate IsFresh(row: DeliveryRow, at: Time) {
    && row.state == Pending && row.attempts == 0 && row.nextAttemptAt == at
    && row.lastAttemptAt == None && row.deliveredAt == None && row.deadLetteredAt == None
    && row.lastError == None && row.responseStatus == None
  }

  /** Inserts a pending row at every reference that has none; a trigger may refuse. */
  function InsertMissing(s: Spool, refs: set<Ref>, at: Time): (r: Outcome<Spool>) {
    if exists x | x in refs :: InsertAborts(s, x) then Err(TriggerAbort)
    else Ok(s.(deliveries := map x | x in s.deliveries.Keys + refs ::
                 if x in s.deliveries then s.deliveries[x] else FreshDelivery(at)))
  }

  /** Rows already there keep their state, so inserting only what exists changes nothing. */
  lemma InsertNothing(s: Spool, refs: set<Ref>, at: Time)
    requires refs <= s.deliveries.Keys
    requires forall x | x in refs :: !s.Pruned(x.event)
    ensures InsertMissing(s, refs, at) == Ok(s)
  {
    var d := map x | x in s.deliveries.Keys + refs :: if x in s.deliveries then s.deliveries[x] else FreshDelivery(at);
    assert d.Keys == s.deliveries.Keys;
    assert d == s.deliveries;
  }

  /** Everything an insertion preserves, for references to retained events and active sinks. */
  lemma InsertKeeps(h: Hash, s: Spool, refs: set<Ref>, at: Time, t: Spool)
    requires InsertMissing(s, refs, at) == Ok(t)
    requires forall x | x in refs :: x.event < |s.events| && s.Active(x.sink)
    requires DistinctEvents(s) && PayloadsKept(h, s) && DistinctSinks(s) && ForeignKeys(s)
    requires InactiveSettled(s) && PrunedDelivered(s) && PrunedHasDelivery(s) && SuccessStamped(s)
    ensures DistinctEvents(t) && PayloadsKept(h, t) && DistinctSinks(t) && ForeignKeys(t)
    ensures InactiveSettled(t) && PrunedDelivered(t) && PrunedHasDelivery(t) && SuccessStamped(t)
  {
    assert t.events == s.events && t.sinks == s.sinks;
    assert forall x | x in refs :: !InsertAborts(s, x);
    forall e: nat | t.Pruned(e) ensures exists k: nat :: Ref(e, k) in t.deliveries {
      assert s.Pruned(e);
      var k: nat :| Ref(e, k) in s.deliveries;
      assert Ref(e, k) in t.deliveries;
    }
  }
}
