/**
 Choosing the next delivery and recording its result: NextDueDelivery, MarkDelivered, MarkFailed and RedriveDelivery.
 */
module SpoolDelivery {
  import opened Basics
  import opened Timestamps
  import opened SpoolState
  import opened SpoolCapture
  import opened SpoolSinks

  // ----- Selection -----

  /** The oldest unfinished delivery of a sink, looking from event e on. */
  function HeadFrom(s: Spool, k: nat, e: nat): (r: Option<nat>)
    ensures r.Some? ==> e <= r.value < |s.events| && s.OpenAt(Ref(r.value, k))
    ensures r.Some? ==> forall i: nat | e <= i < r.value :: !s.OpenAt(Ref(i, k))
    ensures r.None? ==> forall i: nat | e <= i < |s.events| :: !s.OpenAt(Ref(i, k))
    decreases |s.events| - e
  {
    if e >= |s.events| then None
    else if s.OpenAt(Ref(e, k)) then Some(e)
    else HeadFrom(s, k, e + 1)
  }

  function Head(s: Spool, k: nat): Option<nat> {
    HeadFrom(s, k, 0)
  }

  /** The sink's head, if the sink is active and the head is due; `due` is the comparison with the current time. */
  function DueHead(s: Spool, k: nat, due: Time -> bool): (r: Option<Ref>) {
    var head := Head(s, k);
    if s.Active(k) && head.Some? && due(s.deliveries[Ref(head.value, k)].nextAttemptAt) then Some(Ref(head.value, k))
    else None
  }

  /** The first of the due heads of sinks 0..n-1, by event and then by sink. */
  function Best(s: Spool, due: Time -> bool, n: nat): Option<Ref> {
    if n == 0 then None
    else
      var best, head := Best(s, due, n - 1), DueHead(s, n - 1, due);
      if head.Some? && (best.None? || head.value.event < best.value.event) then head else best
  }

  function NextDue(s: Spool, due: Time -> bool): Option<Ref> {
    Best(s, due, |s.sinks|)
  }

  /** Due as SQLite decides it: by comparing the stored texts. */
  function TextDue(now: Time): Time -> bool {
    (t: Time) => TextLeq(Format(t), Format(now))
  }

  /** Due on the clock. */
  function By(now: Time): Time -> bool {
    (t: Time) => t <= now
  }

  /** The naive rule: due, unfinished, of an active sink, with no earlier unfinished delivery of that sink. */
  ghost predicate Eligible(s: Spool, due: Time -> bool, r: Ref) {
    && s.OpenAt(r) && s.Active(r.sink) && due(s.deliveries[r].nextAttemptAt)
    && forall e: nat | e < r.event :: !s.OpenAt(Ref(e, r.sink))
  }

  predicate Precedes(a: Ref, b: Ref) {
    a.event < b.event || (a.event == b.event && a.sink <= b.sink)
  }

  lemma DueHeadIsEligible(s: Spool, due: Time -> bool, k: nat)
    requires ForeignKeys(s)
    ensures var h := DueHead(s, k, due); h.Some? ==> h.value.sink == k && Eligible(s, due, h.value)
    ensures forall r | Eligible(s, due, r) && r.sink == k :: DueHead(s, k, due) == Some(r)
  {
    forall r | Eligible(s, due, r) && r.sink == k ensures DueHead(s, k, due) == Some(r) {
      var head := Head(s, k);
      assert s.OpenAt(Ref(r.event, k)) && r == Ref(r.event, k);
      assert head.Some? && head.value == r.event;
    }
  }

  lemma {:induction false} BestIsLeast(s: Spool, due: Time -> bool, n: nat)
    requires ForeignKeys(s)
    ensures var b := Best(s, due, n);
      && (b.Some? ==> b.value.sink < n && Eligible(s, due, b.value))
      && forall r | Eligible(s, due, r) && r.sink < n :: b.Some? && Precedes(b.value, r)
  {
    if n != 0 {
      BestIsLeast(s, due, n - 1);
      DueHeadIsEligible(s, due, n - 1);
    }
  }

  ghost predicate Least(s: Spool, due: Time -> bool, r: Ref) {
    Eligible(s, due, r) && forall q | Eligible(s, due, q) :: Precedes(r, q)
  }

  lemma NextDueIsLeast(s: Spool, due: Time -> bool)
    requires ForeignKeys(s)
    ensures forall r :: NextDue(s, due) == Some(r) <==> Least(s, due, r)
    ensures NextDue(s, due) == None <==> forall r :: !Eligible(s, due, r)
  {
    BestIsLeast(s, due, |s.sinks|);
    forall r ensures NextDue(s, due) == Some(r) <==> Least(s, due, r) {
      if Least(s, due, r) {
        var b := NextDue(s, due).value;
        assert Precedes(b, r) && Precedes(r, b);
      }
    }
  }

  lemma {:induction false} BestSame(s: Spool, f: Time -> bool, g: Time -> bool, n: nat)
    requires forall t :: f(t) == g(t)
    ensures Best(s, f, n) == Best(s, g, n)
  {
    if n != 0 {
      BestSame(s, f, g, n - 1);
    }
  }

  /** The heads-first query on texts returns exactly what the naive rule on instants returns. */
  lemma SchedulerRefinement(s: Spool, now: Time)
    requires ForeignKeys(s)
    ensures forall r :: NextDue(s, TextDue(now)) == Some(r) <==> Least(s, By(now), r)
    ensures NextDue(s, TextDue(now)) == None <==> forall r :: !Eligible(s, By(now), r)
  {
    forall t ensures TextDue(now)(t) == By(now)(t) {
      TextOrderIsTimeOrder(t, now);
    }
    BestSame(s, TextDue(now), By(now), |s.sinks|);
    NextDueIsLeast(s, By(now));
  }

  // ----- What a sink is handed -----

  datatype Delivery = Delivery(
    ref: Ref, sinkName: string, sinkKind: string,
    source: string, id: string, kind: string, subject: string,
    payload: Bytes, attempts: nat)

  function ItemAt(s: Spool, r: Ref): Delivery
    requires r in s.deliveries && r.event < |s.events| && r.sink < |s.sinks|
  {
    var e := s.events[r.event].event;
    Delivery(r, s.sinks[r.sink].name, s.sinks[r.sink].kind, e.source,
             e.id, e.kind, e.subject, e.payload, s.deliveries[r].attempts)
  }

  /** The delivery is the row's: its sink, its event and how often it was attempted. */
  ghost predicate ItemFits(s: Spool, r: Ref, item: Delivery)
    requires r in s.deliveries && r.event < |s.events| && r.sink < |s.sinks|
  {
    var sink, e := s.sinks[r.sink], s.events[r.event].event;
    && item.ref == r && item.sinkName == sink.name && item.sinkKind == sink.kind
    && item.source == e.source && item.id == e.id && item.kind == e.kind && item.subject == e.subject
    && item.payload == e.payload && item.attempts == s.deliveries[r].attempts
  }

  /** A selected delivery is its row's, and carries the event's own payload, never a pruned one. */
  lemma SelectedPayload(h: Hash, s: Spool, due: Time -> bool, r: Ref)
    requires Inv(h, s) && NextDue(s, due) == Some(r)
    ensures r in s.deliveries && s.OpenAt(r) && r.event < |s.events| && s.Active(r.sink)
    ensures !s.Pruned(r.event) && h(ItemAt(s, r).payload) == s.events[r.event].event.digest
    ensures ItemFits(s, r, ItemAt(s, r))
  {
    NextDueIsLeast(s, due);
    assert Least(s, due, r);
  }

  // ----- Recording -----

  function StatusOf(status: int): Option<int> {
    if status == 0 then None else Some(status)
  }

  function SetRow(s: Spool, r: Ref, row: DeliveryRow): Spool {
    s.(deliveries := s.deliveries[r := row])
  }

  /** The row the update is for: still unfinished, and not attempted since the delivery was selected. */
  predicate StillOpen(s: Spool, item: Delivery) {
    s.OpenAt(item.ref) && s.deliveries[item.ref].attempts == item.attempts
  }

  function MarkDelivered(s: Spool, item: Delivery, attempt: nat, status: int, at: Time): Outcome<Spool> {
    if !StillOpen(s, item) then Err(Durability)
    else Ok(SetRow(s, item.ref, s.deliveries[item.ref].(
                   state := Delivered, attempts := attempt, lastAttemptAt := Some(at), deliveredAt := Some(at),
                   deadLetteredAt := None, lastError := None, responseStatus := StatusOf(status))))
  }

  function MarkFailed(s: Spool, item: Delivery, attempt: nat, permanent: bool, retryAt: Time,
                      failure: string, status: int, at: Time): Outcome<Spool> {
    var state := if permanent then DeadLetter else RetryWait;
    if !StillOpen(s, item) then Err(Durability)
    else if UpdateAborts(s, item.ref, state) then Err(TriggerAbort)
    else Ok(SetRow(s, item.ref, DeliveryRow(
                     state, attempt, retryAt, Some(at), None, if permanent then Some(at) else None,
                     Some(failure), StatusOf(status))))
  }

  /** The row a redrive names: the sink must be active and the event known. */
  function RedriveTarget(s: Spool, sink: string, who: Identity): Option<Ref> {
    var k, e := LookupSink(s.sinks, sink), Lookup(s.events, who);
    if k.Some? && e.Some? && s.sinks[k.value].active then Some(Ref(e.value, k.value)) else None
  }

  function Redrive(s: Spool, sink: string, who: Identity, at: Time): Outcome<Spool> {
    var r := RedriveTarget(s, sink, who);
    if r.None? || r.value !in s.deliveries || s.deliveries[r.value].state != DeadLetter then Err(NotFound)
    else if UpdateAborts(s, r.value, RetryWait) then Err(TriggerAbort)
    else Ok(SetRow(s, r.value, DeliveryRow(RetryWait, 0, at, None, None, None, None, None)))
  }

  lemma SetRowKeeps(h: Hash, s: Spool, r: Ref, row: DeliveryRow)
    requires Inv(h, s) && r in s.deliveries && s.Active(r.sink)
    requires row.state == Delivered || !s.Pruned(r.event)
    requires row.state == Delivered <==> row.deliveredAt.Some?
    ensures Inv(h, SetRow(s, r, row))
  {
    var t := SetRow(s, r, row);
    assert forall e: nat :: t.Pruned(e) <==> s.Pruned(e);
    assert forall k: nat :: t.Active(k) <==> s.Active(k);
    assert forall x :: x in t.deliveries <==> x in s.deliveries;
  }

  lemma OpenIsLive(h: Hash, s: Spool, r: Ref)
    requires Inv(h, s) && s.OpenAt(r)
    ensures s.Active(r.sink) && !s.Pruned(r.event) && r.event < |s.events|
  {
  }

  /** Nothing changes but one row. */
  ghost predicate OneRowSet(s: Spool, r: Ref, t: Spool) {
    && t.events == s.events && t.sinks == s.sinks && t.checkpoint == s.checkpoint
    && r in s.deliveries && t.deliveries.Keys == s.deliveries.Keys
    && forall x | x in s.deliveries && x != r :: t.deliveries[x] == s.deliveries[x]
  }

  /** The row of the delivery is unfinished and was attempted as often as when it was selected. */
  ghost predicate Awaits(s: Spool, item: Delivery) {
    && item.ref in s.deliveries && s.deliveries[item.ref].attempts == item.attempts
    && s.deliveries[item.ref].state != Delivered && s.deliveries[item.ref].state != DeadLetter
  }

  /** What every recorded attempt leaves in its row; status zero stands for no response. */
  ghost predicate AttemptNoted(row: DeliveryRow, attempt: nat, status: int, at: Time) {
    && row.attempts == attempt && row.lastAttemptAt == Some(at)
    && (row.responseStatus == None <==> status == 0) && (status != 0 ==> row.responseStatus == Some(status))
  }

  ghost predicate DeliveryNoted(s: Spool, r: Ref, attempt: nat, status: int, at: Time, t: Spool) {
    && OneRowSet(s, r, t) && r in t.deliveries && AttemptNoted(t.deliveries[r], attempt, status, at)
    && var row := t.deliveries[r];
    && row.state == Delivered && row.deliveredAt == Some(at) && row.deadLetteredAt == None && row.lastError == None
    && row.nextAttemptAt == s.deliveries[r].nextAttemptAt
  }

  ghost predicate FailureNoted(s: Spool, r: Ref, attempt: nat, permanent: bool, retryAt: Time, failure: string,
                               status: int, at: Time, t: Spool) {
    && OneRowSet(s, r, t) && r in t.deliveries && AttemptNoted(t.deliveries[r], attempt, status, at)
    && var row := t.deliveries[r];
    && row.deliveredAt == None && row.lastError == Some(failure) && row.nextAttemptAt == retryAt
    && if permanent then row.state == DeadLetter && row.deadLetteredAt == Some(at)
       else row.state == RetryWait && row.deadLetteredAt == None
  }

  /** The dead letter is as good as new: due at once, nothing attempted, nothing recorded. */
  ghost predicate Reopened(s: Spool, r: Ref, at: Time, t: Spool) {
    && OneRowSet(s, r, t) && r in t.deliveries
    && t.deliveries[r].state == RetryWait && IsFresh(t.deliveries[r].(state := Pending), at)
  }

  lemma MarkDeliveredKeeps(h: Hash, s: Spool, item: Delivery, attempt: nat, status: int, at: Time)
    requires Inv(h, s)
    ensures var r := MarkDelivered(s, item, attempt, status, at);
      && (r.Ok? <==> StillOpen(s, item)) && (r.Ok? <==> Awaits(s, item))
      && (r.Ok? ==> Inv(h, r.value) && DeliveryNoted(s, item.ref, attempt, status, at, r.value))
      && (r.Err? ==> r.error != TriggerAbort)
  {
    if StillOpen(s, item) {
      OpenIsLive(h, s, item.ref);
      SetRowKeeps(h, s, item.ref, MarkDelivered(s, item, attempt, status, at).value.deliveries[item.ref]);
    }
  }

  lemma MarkFailedKeeps(h: Hash, s: Spool, item: Delivery, attempt: nat, permanent: bool, retryAt: Time,
                        failure: string, status: int, at: Time)
    requires Inv(h, s)
    ensures var r := MarkFailed(s, item, attempt, permanent, retryAt, failure, status, at);
      && (r.Ok? <==> StillOpen(s, item)) && (r.Ok? <==> Awaits(s, item))
      && (r.Ok? ==>
            Inv(h, r.value) && FailureNoted(s, item.ref, attempt, permanent, retryAt, failure, status, at, r.value))
      && (r.Err? ==> r.error != TriggerAbort)
  {
    if StillOpen(s, item) {
      OpenIsLive(h, s, item.ref);
      var t := MarkFailed(s, item, attempt, permanent, retryAt, failure, status, at).value;
      SetRowKeeps(h, s, item.ref, t.deliveries[item.ref]);
    }
  }

  /** A redrive succeeds exactly when an active sink holds a dead letter for the event. */
  lemma RedriveKeeps(h: Hash, s: Spool, sink: string, who: Identity, at: Time)
    requires Inv(h, s)
    ensures var r := Redrive(s, sink, who, at);
      && (r.Ok? <==> exists x :: IsDeadLetter(s, sink, who, x))
      && (r.Ok? ==> Inv(h, r.value))
      && (r.Ok? ==> forall x | IsDeadLetter(s, sink, who, x) :: Reopened(s, x, at, r.value))
      && (r.Err? ==> r.error == NotFound)
    ensures forall x | IsDeadLetter(s, sink, who, x) :: RedriveTarget(s, sink, who) == Some(x)
  {
    forall x | IsDeadLetter(s, sink, who, x) ensures RedriveTarget(s, sink, who) == Some(x) {
      TargetIsDeadLetter(h, s, sink, who, x);
    }
    RedriveFinds(h, s, sink, who, at);
    var r := Redrive(s, sink, who, at);
    if r.Ok? {
      var x := RedriveTarget(s, sink, who).value;
      SetRowKeeps(h, s, x, r.value.deliveries[x]);
    }
  }

  /** Sink name and identity name at most one row. */
  lemma TargetIsDeadLetter(h: Hash, s: Spool, sink: string, who: Identity, x: Ref)
    requires Inv(h, s) && IsDeadLetter(s, sink, who, x)
    ensures RedriveTarget(s, sink, who) == Some(x)
  {
    assert LookupSink(s.sinks, sink).Some? && Lookup(s.events, who).Some?;
  }

  /** The update finds its row exactly when the row it names is a dead letter, and no trigger objects. */
  lemma RedriveFinds(h: Hash, s: Spool, sink: string, who: Identity, at: Time)
    requires Inv(h, s)
    ensures var r, x := Redrive(s, sink, who, at), RedriveTarget(s, sink, who);
      && (r.Ok? <==> x.Some? && IsDeadLetter(s, sink, who, x.value))
      && (r.Ok? ==> r.value == SetRow(s, x.value, r.value.deliveries[x.value]) && !s.Pruned(x.value.event))
      && (r.Ok? ==> Reopened(s, x.value, at, r.value))
      && (r.Err? ==> r.error == NotFound)
  {
  }

  ghost predicate IsDeadLetter(s: Spool, sink: string, who: Identity, x: Ref) {
    && x in s.deliveries && s.deliveries[x].state == DeadLetter
    && x.event < |s.events| && s.events[x.event].Ident() == who
    && s.Active(x.sink) && s.sinks[x.sink].name == sink
  }
}
