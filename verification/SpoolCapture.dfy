/**
 Persisting a committed batch: PersistCommittedBatch, validateCapturedEvent, insertOrVerify and
 ensureDeliveriesForEvent.
 */
module SpoolCapture {
  import opened Basics
  import opened Timestamps
  import opened SpoolState

  predicate ValidCaptured(h: Hash, b: CommittedBatch, e: CapturedEvent, index: nat) {
    && e.source != "" && e.id != "" && e.kind != ""
    && e.commit == b.commit && e.messageIndex == index
    && h(e.payload) == e.digest
  }

  /** The row of an identity, if it has one. */
  function Lookup(events: seq<EventRow>, who: Identity): (r: Option<nat>)
    ensures r.Some? ==> r.value < |events| && events[r.value].Ident() == who
    ensures r.None? <==> forall i | 0 <= i < |events| :: events[i].Ident() != who
  {
    if events == [] then None
    else
      var last := |events| - 1;
      if events[last].Ident() == who then Some(last) else Lookup(events[..last], who)
  }

  function ActiveRefs(s: Spool, e: nat): set<Ref> {
    set k | 0 <= k < |s.sinks| && s.sinks[k].active :: Ref(e, k)
  }

  function EnsureDeliveries(s: Spool, e: nat, at: Time): Outcome<Spool> {
    InsertMissing(s, if e < |s.events| && s.events[e].Retained() then ActiveRefs(s, e) else {}, at)
  }

  datatype Progress = Progress(spool: Spool, inserted: nat, replayed: nat)

  function AppendEvent(s: Spool, e: CapturedEvent): Spool {
    s.(events := s.events + [EventRow(e, None)])
  }

  function IngestOne(h: Hash, p: Progress, b: CommittedBatch, e: CapturedEvent, index: nat,
                     at: Time): Outcome<Progress> {
    if !ValidCaptured(h, b, e, index) then Err(Durability)
    else
      var s := p.spool;
      match Lookup(s.events, e.Ident())
      case None =>
        (match EnsureDeliveries(AppendEvent(s, e), |s.events|, at)
         case Err(x) => Err(x)
         case Ok(t) => Ok(Progress(t, p.inserted + 1, p.replayed)))
      case Some(i) =>
        if s.events[i].event.digest != e.digest then Err(IdentityConflict)
        else
          match EnsureDeliveries(s, i, at)
          case Err(x) => Err(x)
          case Ok(t) => Ok(Progress(t, p.inserted, p.replayed + 1))
  }

  /** The transaction after the first n events of the batch; `clock` supplies time.Now() for each. */
  function Ingest(h: Hash, s: Spool, b: CommittedBatch, clock: nat -> Time, n: nat): Outcome<Progress>
    requires n <= |b.events|
  {
    if n == 0 then Ok(Progress(s, 0, 0))
    else IngestNext(h, b, n - 1, Ingest(h, s, b, clock, n - 1), clock(n - 1))
  }

  /** One more event, unless an earlier one failed. */
  function IngestNext(h: Hash, b: CommittedBatch, n: nat, r: Outcome<Progress>, at: Time): Outcome<Progress>
    requires n < |b.events|
  {
    match r
    case Err(x) => Err(x)
    case Ok(p) => IngestOne(h, p, b, b.events[n], n, at)
  }

  datatype PersistResult = PersistResult(inserted: nat, replayed: nat, durable: Lsn)

  datatype Persisted = Persisted(spool: Spool, result: PersistResult)

  /** The whole transaction; an error leaves the spool as it was. */
  function Persist(h: Hash, s: Spool, b: CommittedBatch, clock: nat -> Time): Outcome<Persisted> {
    if b.commit.commitEndLsn < b.commit.commitLsn then Err(Durability)
    else
      match Ingest(h, s, b, clock, |b.events|)
      case Err(x) => Err(x)
      case Ok(p) =>
        var durable := Max(s.checkpoint, b.commit.commitEndLsn);
        Ok(Persisted(p.spool.(checkpoint := durable), PersistResult(p.inserted, p.replayed, durable)))
  }

  // ----- One event -----

  lemma AppendFacts(h: Hash, s: Spool, e: CapturedEvent)
    requires Inv(h, s) && Lookup(s.events, e.Ident()).None? && h(e.payload) == e.digest
    ensures var t := AppendEvent(s, e);
      && DistinctEvents(t) && PayloadsKept(h, t) && DistinctSinks(t) && ForeignKeys(t)
      && InactiveSettled(t) && PrunedDelivered(t) && PrunedHasDelivery(t) && SuccessStamped(t)
  {
    var t := AppendEvent(s, e);
    assert forall i: nat | t.Pruned(i) :: s.Pruned(i);
  }

  /** What one accepted event does: a new identity appends a row with pending deliveries; a known one does nothing. */
  ghost predicate Extends(s: Spool, e: CapturedEvent, at: Time, t: Spool) {
    && t.events == s.events + [EventRow(e, None)]
    && t.sinks == s.sinks && t.checkpoint == s.checkpoint
    && (forall r :: r in t.deliveries <==> r in s.deliveries || (r.event == |s.events| && s.Active(r.sink)))
    && (forall r | r in t.deliveries ::
           if r in s.deliveries then t.deliveries[r] == s.deliveries[r] else IsFresh(t.deliveries[r], at))
  }

  lemma AppendCovers(h: Hash, s: Spool, e: CapturedEvent, at: Time, t: Spool)
    requires Inv(h, s) && EnsureDeliveries(AppendEvent(s, e), |s.events|, at) == Ok(t)
    ensures Covered(t) && Extends(s, e, at, t)
  {
    var refs := ActiveRefs(AppendEvent(s, e), |s.events|);
    forall r ensures r in t.deliveries <==> r in s.deliveries || (r.event == |s.events| && s.Active(r.sink)) {
      assert r in refs <==> r.event == |s.events| && s.Active(r.sink);
    }
    forall i: nat, k: nat | i < |t.events| && t.Active(k) && !t.Pruned(i) ensures Ref(i, k) in t.deliveries {
      assert s.Active(k);
      assert i < |s.events| ==> !s.Pruned(i);
    }
  }

  lemma IngestNew(h: Hash, p: Progress, b: CommittedBatch, e: CapturedEvent, index: nat, at: Time)
    requires Inv(h, p.spool) && ValidCaptured(h, b, e, index)
    requires Lookup(p.spool.events, e.Ident()).None?
    ensures var r := IngestOne(h, p, b, e, index, at);
      && r.Ok? && Inv(h, r.value.spool) && Extends(p.spool, e, at, r.value.spool)
      && r.value.inserted == p.inserted + 1 && r.value.replayed == p.replayed
  {
    var s := p.spool;
    var u := AppendEvent(s, e);
    AppendFacts(h, s, e);
    var refs := ActiveRefs(u, |s.events|);
    assert forall x | x in refs :: !InsertAborts(u, x);
    var t := InsertMissing(u, refs, at).value;
    InsertKeeps(h, u, refs, at, t);
    AppendCovers(h, s, e, at, t);
  }

  lemma IngestKnown(h: Hash, p: Progress, b: CommittedBatch, e: CapturedEvent, index: nat, at: Time)
    requires Inv(h, p.spool) && ValidCaptured(h, b, e, index)
    requires Lookup(p.spool.events, e.Ident()).Some?
    ensures var s, i := p.spool, Lookup(p.spool.events, e.Ident()).value;
      IngestOne(h, p, b, e, index, at) ==
      if s.events[i].event.digest == e.digest then Ok(Progress(s, p.inserted, p.replayed + 1))
      else Err(IdentityConflict)
  {
    var s, i := p.spool, Lookup(p.spool.events, e.Ident()).value;
    if s.events[i].Retained() {
      forall x | x in ActiveRefs(s, i) ensures x in s.deliveries {
        assert s.Active(x.sink) && !s.Pruned(i);
      }
      InsertNothing(s, ActiveRefs(s, i), at);
    } else {
      InsertNothing(s, {}, at);
    }
  }

  // ----- The batch -----

  function AddOne(rows: seq<EventRow>, e: CapturedEvent): seq<EventRow> {
    if Lookup(rows, e.Ident()).Some? then rows else rows + [EventRow(e, None)]
  }

  /** Rows after offering the first n events in order: each identity is kept the first time it is seen. */
  function AddAll(rows: seq<EventRow>, es: seq<CapturedEvent>, n: nat): seq<EventRow>
    requires n <= |es|
  {
    if n == 0 then rows else AddOne(AddAll(rows, es, n - 1), es[n - 1])
  }

  /**
   The deliveries of t are those of s plus a pending row for every event added since and every active sink, due from
   the moment its event was ingested.
   */
  ghost predicate DeliveriesGrown(s: Spool, clock: nat -> Time, t: Spool) {
    && |s.events| <= |t.events|
    && (forall r ::
           r in t.deliveries <==> r in s.deliveries || (|s.events| <= r.event < |t.events| && s.Active(r.sink)))
    && (forall r | r in s.deliveries :: r in t.deliveries && t.deliveries[r] == s.deliveries[r])
    && (forall r | r in t.deliveries && r !in s.deliveries ::
           IsFresh(t.deliveries[r], clock(t.events[r.event].event.messageIndex)))
  }

  /** The rows added since s are events of the batch, complete and stamped with its commit and their own index. */
  ghost predicate RowsAdded(h: Hash, s: Spool, b: CommittedBatch, t: Spool) {
    forall k | |s.events| <= k < |t.events| ::
      var e := t.events[k].event;
      && t.events[k].Retained() && e.messageIndex < |b.events| && e == b.events[e.messageIndex]
      && e.source != "" && e.id != "" && e.kind != "" && e.commit == b.commit && h(e.payload) == e.digest
  }

  ghost predicate Ingested(h: Hash, s: Spool, b: CommittedBatch, clock: nat -> Time, n: nat, p: Progress)
    requires n <= |b.events|
  {
    && Inv(h, p.spool)
    && p.spool.events == AddAll(s.events, b.events, n) && RowsAdded(h, s, b, p.spool)
    && p.spool.sinks == s.sinks && p.spool.checkpoint == s.checkpoint
    && p.inserted + p.replayed == n
    && |p.spool.events| == |s.events| + p.inserted
    && DeliveriesGrown(s, clock, p.spool)
  }

  lemma GrownStep(s: Spool, clock: nat -> Time, t: Spool, e: CapturedEvent, u: Spool)
    requires DeliveriesGrown(s, clock, t) && t.sinks == s.sinks && ForeignKeys(s) && ForeignKeys(t)
    requires Extends(t, e, clock(e.messageIndex), u)
    ensures DeliveriesGrown(s, clock, u)
  {
  }

  lemma IngestedStep(h: Hash, s: Spool, b: CommittedBatch, clock: nat -> Time, p: Progress, n: nat)
    requires Inv(h, s) && n < |b.events| && Ingested(h, s, b, clock, n, p)
    requires ValidCaptured(h, b, b.events[n], n)
    ensures var r := IngestOne(h, p, b, b.events[n], n, clock(n));
      && (r.Ok? ==> Ingested(h, s, b, clock, n + 1, r.value))
      && (r.Ok? <==> RowAgrees(p.spool.events, b.events[n]))
      && (r.Err? ==> r.error == IdentityConflict)
  {
    var e := b.events[n];
    if Lookup(p.spool.events, e.Ident()).None? {
      IngestNew(h, p, b, e, n, clock(n));
      GrownStep(s, clock, p.spool, e, IngestOne(h, p, b, e, n, clock(n)).value.spool);
    } else {
      IngestKnown(h, p, b, e, n, clock(n));
    }
  }

  predicate RowAgrees(rows: seq<EventRow>, e: CapturedEvent) {
    var i := Lookup(rows, e.Ident());
    i.None? || rows[i.value].event.digest == e.digest
  }

  /** Event j reuses no identity, of a row or of an earlier event, with a different digest. */
  ghost predicate NoConflict(rows: seq<EventRow>, es: seq<CapturedEvent>, j: nat)
    requires j < |es|
  {
    && (forall i: nat | i < |rows| && rows[i].Ident() == es[j].Ident() :: rows[i].event.digest == es[j].digest)
    && (forall i: nat | i < j && es[i].Ident() == es[j].Ident() :: es[i].digest == es[j].digest)
  }

  ghost predicate Compatible(rows: seq<EventRow>, es: seq<CapturedEvent>, n: nat)
    requires n <= |es|
  {
    forall j: nat | j < n :: NoConflict(rows, es, j)
  }

  ghost predicate AllValid(h: Hash, b: CommittedBatch, n: nat)
    requires n <= |b.events|
  {
    forall i: nat | i < n :: ValidCaptured(h, b, b.events[i], i)
  }

  lemma AddOneLonger(rows: seq<EventRow>, e: CapturedEvent)
    ensures rows <= AddOne(rows, e)
  {
  }

  lemma {:induction false} AddAllLonger(rows: seq<EventRow>, es: seq<CapturedEvent>, n: nat)
    requires n <= |es|
    ensures rows <= AddAll(rows, es, n)
  {
    if n != 0 {
      AddAllLonger(rows, es, n - 1);
      AddOneLonger(AddAll(rows, es, n - 1), es[n - 1]);
    }
  }

  /** A row that was not there before comes from one of the events. */
  lemma {:induction false} AddAllOrigin(rows: seq<EventRow>, es: seq<CapturedEvent>, n: nat, k: nat) returns (j: nat)
    requires n <= |es| && |rows| <= k < |AddAll(rows, es, n)|
    ensures j < n && AddAll(rows, es, n)[k] == EventRow(es[j], None)
  {
    if k < |AddAll(rows, es, n - 1)| {
      j := AddAllOrigin(rows, es, n - 1, k);
    } else {
      j := n - 1;
    }
  }

  lemma AddOneKnows(rows: seq<EventRow>, e: CapturedEvent, who: Identity)
    requires who == e.Ident() || Lookup(rows, who).Some?
    ensures Lookup(AddOne(rows, e), who).Some?
  {
    var all := AddOne(rows, e);
    if Lookup(rows, who).Some? {
      assert all[Lookup(rows, who).value].Ident() == who;
    } else {
      assert all[|rows|].Ident() == who;
    }
  }

  lemma {:induction false} AddAllKnows(rows: seq<EventRow>, es: seq<CapturedEvent>, n: nat, j: nat)
    requires j < n <= |es|
    ensures Lookup(AddAll(rows, es, n), es[j].Ident()).Some?
  {
    if j < n - 1 {
      AddAllKnows(rows, es, n - 1, j);
    }
    AddOneKnows(AddAll(rows, es, n - 1), es[n - 1], es[j].Ident());
  }

  /** If the next event conflicts with nothing, it agrees with whatever row its identity has by then. */
  lemma NoConflictAgrees(rows: seq<EventRow>, es: seq<CapturedEvent>, n: nat)
    requires n < |es| && NoConflict(rows, es, n)
    ensures RowAgrees(AddAll(rows, es, n), es[n])
  {
    var all := AddAll(rows, es, n);
    var i := Lookup(all, es[n].Ident());
    AddAllLonger(rows, es, n);
    if i.Some? {
      if i.value < |rows| {
        assert all[i.value] == rows[i.value];
      } else {
        var j := AddAllOrigin(rows, es, n, i.value);
        assert es[j].Ident() == es[n].Ident();
      }
    }
  }

  /** After a compatible prefix, the row found for one of its identities has that event's digest. */
  lemma PrefixAgrees(rows: seq<EventRow>, es: seq<CapturedEvent>, n: nat, j: nat)
    requires j < n <= |es| && Compatible(rows, es, n)
    ensures Lookup(AddAll(rows, es, n), es[j].Ident()).Some? && RowAgrees(AddAll(rows, es, n), es[j])
  {
    AddAllKnows(rows, es, n, j);
    AddAllLonger(rows, es, n);
    var all := AddAll(rows, es, n);
    var i := Lookup(all, es[j].Ident()).value;
    if i < |rows| {
      assert all[i] == rows[i];
      assert NoConflict(rows, es, j);
    } else {
      var k := AddAllOrigin(rows, es, n, i);
      assert NoConflict(rows, es, j) && NoConflict(rows, es, k);
    }
  }

  /** Conversely, an event that agrees with its row conflicts with nothing. */
  lemma AgreesNoConflict(rows: seq<EventRow>, es: seq<CapturedEvent>, n: nat)
    requires n < |es| && Compatible(rows, es, n) && RowAgrees(AddAll(rows, es, n), es[n])
    requires var all := AddAll(rows, es, n);
      forall i, j | 0 <= i < j < |all| :: all[i].Ident() != all[j].Ident()
    ensures NoConflict(rows, es, n)
  {
    var all := AddAll(rows, es, n);
    AddAllLonger(rows, es, n);
    forall i: nat | i < |rows| && rows[i].Ident() == es[n].Ident() ensures rows[i].event.digest == es[n].digest {
      assert all[i] == rows[i];
    }
    forall j: nat | j < n && es[j].Ident() == es[n].Ident() ensures es[j].digest == es[n].digest {
      PrefixAgrees(rows, es, n, j);
    }
  }

  ghost predicate Accepts(h: Hash, s: Spool, b: CommittedBatch, n: nat)
    requires n <= |b.events|
  {
    AllValid(h, b, n) && Compatible(s.events, b.events, n)
  }

  ghost predicate Verdict(h: Hash, s: Spool, b: CommittedBatch, clock: nat -> Time, n: nat, r: Outcome<Progress>)
    requires n <= |b.events|
  {
    && (r.Ok? <==> Accepts(h, s, b, n))
    && (r.Ok? ==> Ingested(h, s, b, clock, n, r.value))
    && (r.Err? ==> Blames(h, s, b, n, r.error))
  }

  /** An error says what is wrong: an identity that is used twice, or an event that is not valid. */
  ghost predicate Blames(h: Hash, s: Spool, b: CommittedBatch, n: nat, x: Error)
    requires n <= |b.events|
  {
    || (x == IdentityConflict && !Compatible(s.events, b.events, n))
    || (x == Durability && !AllValid(h, b, n))
  }

  lemma VerdictStep(h: Hash, s: Spool, b: CommittedBatch, clock: nat -> Time, n: nat, p: Progress)
    requires Inv(h, s) && n < |b.events| && Verdict(h, s, b, clock, n, Ok(p))
    ensures Verdict(h, s, b, clock, n + 1, IngestOne(h, p, b, b.events[n], n, clock(n)))
  {
    var r := IngestOne(h, p, b, b.events[n], n, clock(n));
    if !ValidCaptured(h, b, b.events[n], n) {
      VerdictInvalid(h, s, b, clock, n);
    } else {
      IngestedStep(h, s, b, clock, p, n);
      AgreesExactly(h, s, b, n, p);
      if r.Ok? {
        VerdictAccepted(h, s, b, clock, n, r.value);
      } else {
        VerdictConflict(h, s, b, clock, n);
      }
    }
  }

  lemma VerdictInvalid(h: Hash, s: Spool, b: CommittedBatch, clock: nat -> Time, n: nat)
    requires n < |b.events| && !ValidCaptured(h, b, b.events[n], n)
    ensures Verdict(h, s, b, clock, n + 1, Err(Durability))
  {
  }

  lemma VerdictConflict(h: Hash, s: Spool, b: CommittedBatch, clock: nat -> Time, n: nat)
    requires n < |b.events| && !NoConflict(s.events, b.events, n)
    ensures Verdict(h, s, b, clock, n + 1, Err(IdentityConflict))
  {
  }

  lemma VerdictAccepted(h: Hash, s: Spool, b: CommittedBatch, clock: nat -> Time, n: nat, p: Progress)
    requires n < |b.events| && Accepts(h, s, b, n)
    requires ValidCaptured(h, b, b.events[n], n) && NoConflict(s.events, b.events, n)
    requires Ingested(h, s, b, clock, n + 1, p)
    ensures Verdict(h, s, b, clock, n + 1, Ok(p))
  {
  }

  /** The next event agrees with the rows so far exactly when it conflicts with nothing before it. */
  lemma AgreesExactly(h: Hash, s: Spool, b: CommittedBatch, n: nat, p: Progress)
    requires n < |b.events| && Compatible(s.events, b.events, n)
    requires Inv(h, p.spool) && p.spool.events == AddAll(s.events, b.events, n)
    ensures RowAgrees(p.spool.events, b.events[n]) <==> NoConflict(s.events, b.events, n)
  {
    if NoConflict(s.events, b.events, n) {
      NoConflictAgrees(s.events, b.events, n);
    } else if RowAgrees(p.spool.events, b.events[n]) {
      AgreesNoConflict(s.events, b.events, n);
    }
  }

  /** The transaction goes through exactly when every event is valid and no identity conflicts. */
  lemma IngestVerdict(h: Hash, s: Spool, b: CommittedBatch, clock: nat -> Time, n: nat)
    requires Inv(h, s) && n <= |b.events|
    ensures Verdict(h, s, b, clock, n, Ingest(h, s, b, clock, n))
  {
    IngestJudged(h, s, b, clock, n);
  }

  ghost predicate JudgedAt(h: Hash, s: Spool, b: CommittedBatch, clock: nat -> Time, n: nat) {
    n <= |b.events| && Verdict(h, s, b, clock, n, Ingest(h, s, b, clock, n))
  }

  lemma {:induction false} IngestJudged(h: Hash, s: Spool, b: CommittedBatch, clock: nat -> Time, n: nat)
    requires Inv(h, s) && n <= |b.events|
    ensures JudgedAt(h, s, b, clock, n)
  {
    if n == 0 {
      VerdictNone(h, s, b, clock);
    } else {
      var m: nat := n - 1;
      IngestJudged(h, s, b, clock, m);
      JudgedNext(h, s, b, clock, m);
      assert m + 1 == n;
    }
  }

  lemma JudgedNext(h: Hash, s: Spool, b: CommittedBatch, clock: nat -> Time, n: nat)
    requires Inv(h, s) && n < |b.events| && JudgedAt(h, s, b, clock, n)
    ensures JudgedAt(h, s, b, clock, n + 1)
  {
    VerdictNext(h, s, b, clock, n, Ingest(h, s, b, clock, n));
  }

  lemma VerdictNext(h: Hash, s: Spool, b: CommittedBatch, clock: nat -> Time, n: nat, r: Outcome<Progress>)
    requires Inv(h, s) && n < |b.events| && Verdict(h, s, b, clock, n, r)
    ensures Verdict(h, s, b, clock, n + 1, IngestNext(h, b, n, r, clock(n)))
  {
    match r
    case Ok(p) => VerdictStep(h, s, b, clock, n, p);
    case Err(x) => VerdictStays(h, s, b, clock, n, x);
  }

  lemma VerdictNone(h: Hash, s: Spool, b: CommittedBatch, clock: nat -> Time)
    requires Inv(h, s)
    ensures Verdict(h, s, b, clock, 0, Ok(Progress(s, 0, 0)))
  {
  }

  lemma VerdictStays(h: Hash, s: Spool, b: CommittedBatch, clock: nat -> Time, n: nat, x: Error)
    requires n < |b.events| && Verdict(h, s, b, clock, n, Err(x))
    ensures Verdict(h, s, b, clock, n + 1, Err(x))
  {
  }

  /** What a successful persist leaves behind. */
  ghost predicate PersistPost(h: Hash, s: Spool, b: CommittedBatch, clock: nat -> Time, t: Spool,
                              result: PersistResult) {
    && Inv(h, t)
    && t.events == AddAll(s.events, b.events, |b.events|) && RowsAdded(h, s, b, t)
    && |t.events| == |s.events| + result.inserted
    && result.inserted + result.replayed == |b.events|
    && t.sinks == s.sinks && DeliveriesGrown(s, clock, t)
    && t.checkpoint == result.durable == Max(s.checkpoint, b.commit.commitEndLsn)
  }

  /**
   PersistCommittedBatch is all or nothing: it succeeds exactly when the positions are ordered, every event
   is complete and the batch's own, and no identity conflicts (even late in the batch), and then accounts for every
   event.
   */
  lemma PersistVerdict(h: Hash, s: Spool, b: CommittedBatch, clock: nat -> Time)
    requires Inv(h, s)
    ensures var r := Persist(h, s, b, clock);
      && (r.Ok? <==> b.commit.commitLsn <= b.commit.commitEndLsn && Accepts(h, s, b, |b.events|))
      && (r.Ok? ==> PersistPost(h, s, b, clock, r.value.spool, r.value.result))
      && (r.Err? ==> r.error in {Durability, IdentityConflict})
      && (r == Err(IdentityConflict) ==> !Compatible(s.events, b.events, |b.events|))
      && (r == Err(Durability) ==> b.commit.commitEndLsn < b.commit.commitLsn || !AllValid(h, b, |b.events|))
    ensures AllValid(h, b, |b.events|) <==> forall i: nat | i < |b.events| ::
      var e := b.events[i];
      && e.source != "" && e.id != "" && e.kind != "" && h(e.payload) == e.digest
      && e.commit == b.commit && e.messageIndex == i
  {
    IngestVerdict(h, s, b, clock, |b.events|);
    var r := Ingest(h, s, b, clock, |b.events|);
    if r.Ok? {
      CheckpointFree(h, s, clock, r.value.spool, Max(s.checkpoint, b.commit.commitEndLsn));
    }
  }

  /** Nothing but the capture protocol looks at the checkpoint. */
  lemma CheckpointFree(h: Hash, s: Spool, clock: nat -> Time, t: Spool, c: Lsn)
    requires Inv(h, t)
    ensures Inv(h, t.(checkpoint := c))
    ensures DeliveriesGrown(s, clock, t) ==> DeliveriesGrown(s, clock, t.(checkpoint := c))
  {
    var u := t.(checkpoint := c);
    assert forall k: nat :: u.Active(k) <==> t.Active(k);
    assert forall e: nat :: u.Pruned(e) <==> t.Pruned(e);
  }

  // ----- Replay -----

  ghost predicate Represented(rows: seq<EventRow>, e: CapturedEvent) {
    exists i: nat :: i < |rows| && rows[i].Ident() == e.Ident() && rows[i].event.digest == e.digest
  }

  lemma {:induction false} AddAllRepresented(rows: seq<EventRow>, es: seq<CapturedEvent>, n: nat)
    requires n <= |es| && forall j: nat | j < n :: Represented(rows, es[j])
    ensures AddAll(rows, es, n) == rows
  {
    if n != 0 {
      AddAllRepresented(rows, es, n - 1);
      assert Represented(rows, es[n - 1]);
    }
  }

  /** Persisting represented events again succeeds and changes no event and no delivery. */
  lemma ReplayIsNoOp(h: Hash, s: Spool, b: CommittedBatch, clock: nat -> Time)
    requires Inv(h, s) && b.commit.commitLsn <= b.commit.commitEndLsn && AllValid(h, b, |b.events|)
    requires forall j: nat | j < |b.events| :: Represented(s.events, b.events[j])
    ensures var r, durable := Persist(h, s, b, clock), Max(s.checkpoint, b.commit.commitEndLsn);
      && r.Ok? && r.value.spool == s.(checkpoint := durable)
      && r.value.result == PersistResult(0, |b.events|, durable)
  {
    forall j: nat | j < |b.events| ensures NoConflict(s.events, b.events, j) {
      RepresentedAgrees(h, s, b, j);
    }
    PersistVerdict(h, s, b, clock);
    AddAllRepresented(s.events, b.events, |b.events|);
    var p := Persist(h, s, b, clock).value;
    NothingGrown(s, clock, p.spool);
  }

  lemma NothingGrown(s: Spool, clock: nat -> Time, t: Spool)
    requires DeliveriesGrown(s, clock, t) && t.events == s.events
    ensures t.deliveries == s.deliveries
  {
    assert forall r :: r in t.deliveries <==> r in s.deliveries;
  }

  lemma RepresentedAgrees(h: Hash, s: Spool, b: CommittedBatch, j: nat)
    requires Inv(h, s) && j < |b.events|
    requires forall i: nat | i < |b.events| :: Represented(s.events, b.events[i])
    ensures NoConflict(s.events, b.events, j)
  {
    assert Represented(s.events, b.events[j]);
    assert forall i: nat | i < j :: Represented(s.events, b.events[i]);
  }

  // ----- First occurrences -----

  ghost predicate IsFirst(es: seq<CapturedEvent>, j: nat)
    requires j < |es|
  {
    forall i: nat | i < j :: es[i].Ident() != es[j].Ident()
  }

  /** The first n events with every repeated identity dropped. */
  ghost function FirstOccurrences(es: seq<CapturedEvent>, n: nat): seq<CapturedEvent>
    requires n <= |es|
  {
    if n == 0 then []
    else FirstOccurrences(es, n - 1) + if IsFirst(es, n - 1) then [es[n - 1]] else []
  }

  /** A row holds a captured event, minus its payload once pruned. */
  ghost predicate Holds(row: EventRow, e: CapturedEvent) {
    row.event == if row.Retained() then e else e.(payload := [])
  }

  /** The event rows are exactly the first occurrences of a history of events, in order. */
  ghost predicate Represents(rows: seq<EventRow>, es: seq<CapturedEvent>) {
    var firsts := FirstOccurrences(es, |es|);
    |rows| == |firsts| && forall i | 0 <= i < |rows| :: Holds(rows[i], firsts[i])
  }

  lemma {:induction false} FirstFrom(es: seq<CapturedEvent>, n: nat, k: nat) returns (j: nat)
    requires n <= |es| && k < |FirstOccurrences(es, n)|
    ensures j < n && FirstOccurrences(es, n)[k] == es[j]
  {
    if k < |FirstOccurrences(es, n - 1)| {
      j := FirstFrom(es, n - 1, k);
    } else {
      j := n - 1;
    }
  }

  lemma {:induction false} FirstOf(es: seq<CapturedEvent>, n: nat, j: nat) returns (k: nat)
    requires j < n <= |es|
    ensures k < |FirstOccurrences(es, n)| && FirstOccurrences(es, n)[k].Ident() == es[j].Ident()
    decreases n
  {
    if j < n - 1 {
      k := FirstOf(es, n - 1, j);
    } else if IsFirst(es, j) {
      k := |FirstOccurrences(es, n - 1)|;
    } else {
      var i: nat :| i < j && es[i].Ident() == es[j].Ident();
      k := FirstOf(es, n - 1, i);
    }
  }

  lemma {:induction false} FirstPrefix(es: seq<CapturedEvent>, e: CapturedEvent, n: nat)
    requires n <= |es|
    ensures FirstOccurrences(es + [e], n) == FirstOccurrences(es, n)
  {
    if n != 0 {
      FirstPrefix(es, e, n - 1);
      assert forall i: nat | i < n :: (es + [e])[i] == es[i];
    }
  }

  /** An identity has a row exactly when the history has used it. */
  lemma RepresentsKnows(rows: seq<EventRow>, es: seq<CapturedEvent>, who: Identity)
    requires Represents(rows, es)
    ensures Lookup(rows, who).Some? <==> exists j: nat :: j < |es| && es[j].Ident() == who
  {
    if Lookup(rows, who).Some? {
      var j := FirstFrom(es, |es|, Lookup(rows, who).value);
      assert es[j].Ident() == who;
    }
    if j: nat :| j < |es| && es[j].Ident() == who {
      var k := FirstOf(es, |es|, j);
      assert rows[k].Ident() == who;
    }
  }

  lemma RepresentsAddOne(rows: seq<EventRow>, es: seq<CapturedEvent>, e: CapturedEvent)
    requires Represents(rows, es)
    ensures Represents(AddOne(rows, e), es + [e])
  {
    RepresentsKnows(rows, es, e.Ident());
    FirstPrefix(es, e, |es|);
    var all := es + [e];
    assert IsFirst(all, |es|) <==> !exists j: nat :: j < |es| && es[j].Ident() == e.Ident() by {
      assert forall j: nat | j < |es| :: all[j] == es[j];
    }
  }

  lemma OneMore(past: seq<CapturedEvent>, es: seq<CapturedEvent>, n: nat)
    requires 0 < n <= |es|
    ensures past + es[..n] == past + es[..n - 1] + [es[n - 1]]
  {
  }

  /** Adding a batch's events to the rows is adding them to the history. */
  lemma {:induction false} RepresentsAddAll(rows: seq<EventRow>, past: seq<CapturedEvent>, es: seq<CapturedEvent>,
                                            n: nat)
    requires Represents(rows, past) && n <= |es|
    ensures Represents(AddAll(rows, es, n), past + es[..n])
  {
    if n == 0 {
      assert past + es[..0] == past;
    } else {
      RepresentsAddAll(rows, past, es, n - 1);
      RepresentsAddOne(AddAll(rows, es, n - 1), past + es[..n - 1], es[n - 1]);
      OneMore(past, es, n);
    }
  }
}
