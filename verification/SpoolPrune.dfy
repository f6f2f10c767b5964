/** Removing delivered payloads: Prune, and why capture cannot tell it happened. */
module SpoolPrune {
  import opened Basics
  import opened Timestamps
  import opened SpoolState
  import opened SpoolCapture

  datatype PruneOptions = PruneOptions(before: Time, limit: int, dryRun: bool)

  datatype PruneEntry = PruneEntry(event: nat, who: Identity, payloadBytes: nat)

  datatype PruneResult = PruneResult(entries: seq<PruneEntry>, payloadBytes: nat)

  datatype Pruning = Pruning(spool: Spool, result: PruneResult)

  /** Go's zero time, 0001-01-01T00:00:00Z. */
  const ZERO_TIME: Time := 366 * SECONDS_PER_DAY * NANOS_PER_SECOND

  /** Delivered before the cutoff as SQLite decides it: by comparing the stored texts. */
  function TextBefore(cutoff: Time): Time -> bool {
    (t: Time) => !TextLeq(Format(cutoff), Format(t))
  }

  predicate Prunable(s: Spool, early: Time -> bool, e: nat) {
    && e < |s.events| && s.events[e].Retained()
    && (exists r | r in s.deliveries :: r.event == e)
    && (forall r | r in s.deliveries && r.event == e ::
          s.deliveries[r].state == Delivered && s.deliveries[r].deliveredAt.Some?
            && early(s.deliveries[r].deliveredAt.value))
  }

  /** The first `limit` prunable events from event e on, oldest first. */
  function Candidates(s: Spool, early: Time -> bool, e: nat, limit: nat): seq<nat>
    decreases |s.events| - e
  {
    if e >= |s.events| || limit == 0 then []
    else if Prunable(s, early, e) then [e] + Candidates(s, early, e + 1, limit - 1)
    else Candidates(s, early, e + 1, limit)
  }

  function EntryOf(s: Spool, e: nat): PruneEntry
    requires e < |s.events|
  {
    PruneEntry(e, s.events[e].Ident(), |s.events[e].event.payload|)
  }

  predicate InRange(s: Spool, es: seq<nat>) {
    forall i | 0 <= i < |es| :: es[i] < |s.events|
  }

  function ResultOf(s: Spool, es: seq<nat>): PruneResult
    requires InRange(s, es)
  {
    if es == [] then PruneResult([], 0)
    else
      var last := |es| - 1;
      var front := ResultOf(s, es[..last]);
      var entry := EntryOf(s, es[last]);
      PruneResult(front.entries + [entry], front.payloadBytes + entry.payloadBytes)
  }

  function BlankRow(row: EventRow, now: Time): EventRow {
    EventRow(row.event.(payload := []), Some(now))
  }

  /** Empties the payload of one retained event and notes when. */
  function PruneOne(s: Spool, e: nat, now: Time): Outcome<Spool> {
    if e >= |s.events| || RewriteAborts(s, e) then Err(Durability)
    else if PruneAborts(s, e) then Err(TriggerAbort)
    else Ok(s.(events := s.events[e := BlankRow(s.events[e], now)]))
  }

  function PruneAll(s: Spool, es: seq<nat>, now: Time, n: nat): Outcome<Spool>
    requires n <= |es|
  {
    if n == 0 then Ok(s)
    else
      match PruneAll(s, es, now, n - 1)
      case Err(x) => Err(x)
      case Ok(t) => PruneOne(t, es[n - 1], now)
  }

  predicate OptionsOk(o: PruneOptions, now: Time) {
    o.before != ZERO_TIME && o.before <= now && 1 <= o.limit <= 1000
  }

  function Prune(s: Spool, o: PruneOptions, now: Time): Outcome<Pruning> {
    if !OptionsOk(o, now) then Err(BadOptions)
    else
      var es := Candidates(s, TextBefore(o.before), 0, o.limit);
      CandidatesInRange(s, TextBefore(o.before), 0, o.limit);
      var result := ResultOf(s, es);
      if o.dryRun then Ok(Pruning(s, result))
      else
        match PruneAll(s, es, now, |es|)
        case Err(x) => Err(x)
        case Ok(t) => Ok(Pruning(t, result))
  }

  // ----- Selection -----

  lemma {:induction false} CandidatesInRange(s: Spool, early: Time -> bool, e: nat, limit: nat)
    ensures var es := Candidates(s, early, e, limit);
      && |es| <= limit && InRange(s, es)
      && forall i | 0 <= i < |es| :: e <= es[i] && Prunable(s, early, es[i])
    decreases |s.events| - e
  {
    if e < |s.events| && limit != 0 {
      CandidatesInRange(s, early, e + 1, if Prunable(s, early, e) then limit - 1 else limit);
    }
  }

  predicate Increasing(es: seq<nat>) {
    forall i, j | 0 <= i < j < |es| :: es[i] < es[j]
  }

  /** An event that could be pruned is left out only when the limit is used up by earlier ones. */
  ghost predicate OldestFirst(s: Spool, early: Time -> bool, e: nat, limit: nat, es: seq<nat>) {
    forall x: nat | e <= x && Prunable(s, early, x) && x !in es ::
      |es| == limit && forall i | 0 <= i < |es| :: es[i] < x
  }

  lemma FirstTaken(s: Spool, early: Time -> bool, e: nat, limit: nat, rest: seq<nat>)
    requires limit > 0 && Increasing(rest) && OldestFirst(s, early, e + 1, limit - 1, rest)
    requires forall i | 0 <= i < |rest| :: e + 1 <= rest[i]
    ensures Increasing([e] + rest) && OldestFirst(s, early, e, limit, [e] + rest)
  {
    var es := [e] + rest;
    forall x: nat | e <= x && Prunable(s, early, x) && x !in es
      ensures |es| == limit && forall i | 0 <= i < |es| :: es[i] < x
    {
      assert es[0] == e && x !in rest && e + 1 <= x;
    }
  }

  lemma FirstPassed(s: Spool, early: Time -> bool, e: nat, limit: nat, es: seq<nat>)
    requires !Prunable(s, early, e) && OldestFirst(s, early, e + 1, limit, es)
    ensures OldestFirst(s, early, e, limit, es)
  {
    assert forall x: nat | e <= x && Prunable(s, early, x) :: e + 1 <= x;
  }

  lemma {:induction false} CandidatesAreFirst(s: Spool, early: Time -> bool, e: nat, limit: nat)
    ensures var es := Candidates(s, early, e, limit); Increasing(es) && OldestFirst(s, early, e, limit, es)
    decreases |s.events| - e
  {
    if e < |s.events| && limit != 0 {
      if Prunable(s, early, e) {
        CandidatesAreFirst(s, early, e + 1, limit - 1);
        CandidatesInRange(s, early, e + 1, limit - 1);
        FirstTaken(s, early, e, limit, Candidates(s, early, e + 1, limit - 1));
      } else {
        CandidatesAreFirst(s, early, e + 1, limit);
        FirstPassed(s, early, e, limit, Candidates(s, early, e + 1, limit));
      }
    }
  }

  // ----- Application -----

  /** The events in es lose their payload; nothing else changes. */
  function Blanked(s: Spool, es: set<nat>, now: Time): Spool {
    s.(events := seq(|s.events|, i requires 0 <= i < |s.events| => if i in es then BlankRow(s.events[i], now)
        else s.events[i]))
  }

  function Leading(es: seq<nat>, n: nat): set<nat>
    requires n <= |es|
  {
    set i | 0 <= i < n :: es[i]
  }

  function SetOf(es: seq<nat>): set<nat> {
    Leading(es, |es|)
  }

  lemma BlankedKeeps(h: Hash, s: Spool, es: set<nat>, now: Time)
    requires Inv(h, s) && forall e | e in es :: e < |s.events| && !PruneAborts(s, e)
    ensures Inv(h, Blanked(s, es, now))
  {
    var t := Blanked(s, es, now);
    assert forall i | 0 <= i < |s.events| :: t.events[i].Ident() == s.events[i].Ident();
    forall e: nat | t.Pruned(e) ensures exists k: nat :: Ref(e, k) in t.deliveries {
      if !s.Pruned(e) {
        assert !PruneAborts(s, e);
        var r :| r in s.deliveries && r.event == e;
        assert Ref(e, r.sink) == r;
      }
    }
    forall r | r in t.deliveries && t.Pruned(r.event) ensures t.deliveries[r].state == Delivered {
      if !s.Pruned(r.event) {
        assert !PruneAborts(s, r.event);
      }
    }
    BlankedCovered(s, es, now);
  }

  lemma BlankedCovered(s: Spool, es: set<nat>, now: Time)
    requires Covered(s) && InactiveSettled(s)
    ensures Covered(Blanked(s, es, now)) && InactiveSettled(Blanked(s, es, now))
  {
    var t := Blanked(s, es, now);
    assert forall k: nat :: t.Active(k) <==> s.Active(k);
    assert forall e: nat | e < |t.events| && !t.Pruned(e) :: !s.Pruned(e);
  }

  lemma {:induction false} PruneAllBlanks(s: Spool, es: seq<nat>, now: Time, n: nat)
    requires n <= |es| && Increasing(es) && InRange(s, es)
    requires forall i | 0 <= i < |es| :: !s.Pruned(es[i]) && !PruneAborts(s, es[i])
    ensures PruneAll(s, es, now, n) == Ok(Blanked(s, Leading(es, n), now))
  {
    if n == 0 {
      assert Blanked(s, Leading(es, 0), now).events == s.events;
    } else {
      PruneAllBlanks(s, es, now, n - 1);
      var done, e := Leading(es, n - 1), es[n - 1];
      var t := Blanked(s, done, now);
      assert e !in done;
      assert t.events[e] == s.events[e];
      BlankedAborts(s, done, now, e);
      assert Leading(es, n) == done + {e};
      BlankOneMore(s, done, now, e);
    }
  }

  lemma BlankedAborts(s: Spool, done: set<nat>, now: Time, e: nat)
    requires e < |s.events| && e !in done && !s.Pruned(e)
    ensures PruneAborts(Blanked(s, done, now), e) == PruneAborts(s, e)
  {
    var t := Blanked(s, done, now);
    assert t.Pruned(e) == s.Pruned(e) && t.deliveries == s.deliveries;
  }

  lemma BlankOneMore(s: Spool, done: set<nat>, now: Time, e: nat)
    requires e < |s.events| && e !in done && !s.Pruned(e) && !PruneAborts(Blanked(s, done, now), e)
    ensures PruneOne(Blanked(s, done, now), e, now) == Ok(Blanked(s, done + {e}, now))
  {
    var t := Blanked(s, done, now);
    assert t.events[e] == s.events[e];
    assert t.events[e := BlankRow(t.events[e], now)] == Blanked(s, done + {e}, now).events;
  }

  /** What the rows of the result say, position by position. */
  lemma {:induction false} ResultEntries(s: Spool, es: seq<nat>)
    requires InRange(s, es)
    ensures var r := ResultOf(s, es);
      |r.entries| == |es| && forall i | 0 <= i < |es| :: r.entries[i] == EntryOf(s, es[i])
  {
    if es != [] {
      ResultEntries(s, es[..|es| - 1]);
    }
  }

  // ----- The rule on instants -----

  /** The payload is retained, the event has deliveries, and all of them succeeded before the cutoff. */
  ghost predicate Expired(s: Spool, before: Time, e: nat) {
    && e < |s.events| && !s.Pruned(e)
    && (exists k: nat :: Ref(e, k) in s.deliveries)
    && forall k: nat | Ref(e, k) in s.deliveries ::
         var row := s.deliveries[Ref(e, k)];
         row.state == Delivered && row.deliveredAt.Some? && row.deliveredAt.value < before
  }

  lemma PrunableIsExpired(s: Spool, before: Time, e: nat)
    ensures Prunable(s, (t: Time) => t < before, e) <==> Expired(s, before, e)
  {
    if Prunable(s, (t: Time) => t < before, e) {
      var r :| r in s.deliveries && r.event == e;
      assert Ref(e, r.sink) == r;
    }
    if Expired(s, before, e) {
      var k: nat :| Ref(e, k) in s.deliveries;
      assert forall r | r in s.deliveries && r.event == e :: Ref(e, r.sink) == r;
    }
  }

  /** The oldest expired events, as many as the limit allows. */
  ghost predicate OldestExpired(s: Spool, before: Time, limit: int, es: seq<nat>) {
    && Increasing(es) && |es| <= limit
    && (forall i | 0 <= i < |es| :: Expired(s, before, es[i]))
    && (forall e: nat | Expired(s, before, e) && e !in es :: |es| == limit && forall i | 0 <= i < |es| :: es[i] < e)
  }

  lemma CandidatesExpired(s: Spool, before: Time, limit: nat)
    ensures OldestExpired(s, before, limit, Candidates(s, (t: Time) => t < before, 0, limit))
  {
    var early := (t: Time) => t < before;
    CandidatesInRange(s, early, 0, limit);
    CandidatesAreFirst(s, early, 0, limit);
    forall e: nat ensures Prunable(s, early, e) <==> Expired(s, before, e) {
      PrunableIsExpired(s, before, e);
    }
  }

  /** The events in es have lost their payload and say when; nothing else has changed. */
  ghost predicate Emptied(s: Spool, es: seq<nat>, now: Time, t: Spool) {
    && t.sinks == s.sinks && t.deliveries == s.deliveries && t.checkpoint == s.checkpoint
    && |t.events| == |s.events|
    && forall i: nat | i < |s.events| ::
         if i in es then
           && t.events[i].event.payload == [] && t.events[i].prunedAt == Some(now)
           && s.events[i].event == t.events[i].event.(payload := s.events[i].event.payload)
         else t.events[i] == s.events[i]
  }

  lemma BlankedEmpties(s: Spool, es: seq<nat>, now: Time)
    ensures Emptied(s, es, now, Blanked(s, SetOf(es), now))
  {
    forall i: nat ensures i in SetOf(es) <==> i in es {
      if i in es {
        var k :| 0 <= k < |es| && es[k] == i;
      }
    }
  }

  // ----- The report -----

  /** Payload bytes held by the first n event rows. */
  function StoredBytes(rows: seq<EventRow>, n: nat): nat
    requires n <= |rows|
  {
    if n == 0 then 0 else StoredBytes(rows, n - 1) + |rows[n - 1].event.payload|
  }

  lemma {:induction false} StoredBytesSet(rows: seq<EventRow>, e: nat, row: EventRow, n: nat)
    requires e < |rows| && n <= |rows|
    ensures StoredBytes(rows[e := row], n) + (if e < n then |rows[e].event.payload| else 0)
         == StoredBytes(rows, n) + (if e < n then |row.event.payload| else 0)
  {
    if n != 0 {
      StoredBytesSet(rows, e, row, n - 1);
    }
  }

  /** The reported total is what pruning takes off the stored payload bytes. */
  lemma {:induction false} FreedBytes(s: Spool, es: seq<nat>, now: Time)
    requires Increasing(es) && InRange(s, es)
    ensures StoredBytes(Blanked(s, SetOf(es), now).events, |s.events|) + ResultOf(s, es).payloadBytes
         == StoredBytes(s.events, |s.events|)
  {
    if es == [] {
      assert Blanked(s, SetOf(es), now).events == s.events;
    } else {
      var front, e := es[..|es| - 1], es[|es| - 1];
      FreedBytes(s, front, now);
      assert front + [e] == es;
      FreedNext(s, front, e, now);
    }
  }

  lemma FreedNext(s: Spool, front: seq<nat>, e: nat, now: Time)
    requires Increasing(front + [e]) && InRange(s, front + [e])
    ensures e < |s.events|
    ensures StoredBytes(Blanked(s, SetOf(front + [e]), now).events, |s.events|) + |s.events[e].event.payload|
         == StoredBytes(Blanked(s, SetOf(front), now).events, |s.events|)
  {
    BlankedNext(s, front, e, now);
    StoredBytesSet(Blanked(s, SetOf(front), now).events, e, BlankRow(s.events[e], now), |s.events|);
  }

  lemma BlankedNext(s: Spool, front: seq<nat>, e: nat, now: Time)
    requires Increasing(front + [e]) && InRange(s, front + [e])
    ensures var t := Blanked(s, SetOf(front), now);
      && e < |s.events| && t.events[e] == s.events[e]
      && Blanked(s, SetOf(front + [e]), now).events == t.events[e := BlankRow(s.events[e], now)]
  {
    var es := front + [e];
    assert es[|front|] == e;
    assert e !in SetOf(front) by {
      assert forall i | 0 <= i < |front| :: es[i] == front[i];
    }
    assert SetOf(es) == SetOf(front) + {e} by {
      assert forall i | 0 <= i < |front| :: es[i] == front[i];
    }
  }

  /** One entry for each event, in order, with its identity and the size of its payload. */
  ghost predicate Reported(s: Spool, es: seq<nat>, entries: seq<PruneEntry>) {
    && |entries| == |es|
    && forall i | 0 <= i < |es| ::
         && es[i] < |s.events| && entries[i].event == es[i]
         && entries[i].who.source == s.events[es[i]].event.source && entries[i].who.id == s.events[es[i]].event.id
         && entries[i].payloadBytes == |s.events[es[i]].event.payload|
  }

  /** What a successful prune leaves and reports: `es` are the events pruned, or only reported by a dry run. */
  ghost predicate PrunePost(h: Hash, s: Spool, o: PruneOptions, now: Time, p: Pruning, es: seq<nat>) {
    && Inv(h, p.spool)
    && OldestExpired(s, o.before, o.limit, es)
    && (if o.dryRun then p.spool == s else Emptied(s, es, now, p.spool) && p.spool == Blanked(s, SetOf(es), now))
    && Reported(s, es, p.result.entries)
    && StoredBytes(Blanked(s, SetOf(es), now).events, |s.events|) + p.result.payloadBytes
         == StoredBytes(s.events, |s.events|)
  }

  ghost function Chosen(s: Spool, o: PruneOptions): seq<nat>
    requires 0 <= o.limit
  {
    Candidates(s, (t: Time) => t < o.before, 0, o.limit)
  }

  /**
   Prune never fails on valid options; it blanks exactly the oldest expired events, at most `limit` of them, by
   time order and not text order, and reports them and the bytes freed; a dry run reports the same and changes nothing.
   */
  lemma PruneVerdict(h: Hash, s: Spool, o: PruneOptions, now: Time)
    requires Inv(h, s)
    ensures var r := Prune(s, o, now);
      && (r.Ok? <==> o.before != ZERO_TIME && o.before <= now && 1 <= o.limit <= 1000)
      && (r.Ok? ==> PrunePost(h, s, o, now, r.value, Chosen(s, o)))
      && (r.Err? ==> r.error == BadOptions)
  {
    if OptionsOk(o, now) {
      var early := (t: Time) => t < o.before;
      var es := Candidates(s, early, 0, o.limit);
      CandidatesByTime(s, o);
      CandidatesInRange(s, early, 0, o.limit);
      CandidatesAreFirst(s, early, 0, o.limit);
      PrunableBlanks(h, s, early, es, now);
      CandidatesExpired(s, o.before, o.limit);
      BlankedEmpties(s, es, now);
      FreedBytes(s, es, now);
      ResultEntries(s, es);
    }
  }

  /** The cutoff that is refused is the first instant of the year 1. */
  lemma ZeroTimeIsYearOne()
    ensures Values(ZERO_TIME) == [1, 1, 1, 0, 0, 0, 0]
  {
    assert DayOf(ZERO_TIME) == 366 && SecondOfDay(ZERO_TIME) == 0;
    var date := DateOf(366);
    assert DaysBeforeYear(1) == 366 && date.year == 1;
  }

  /** A retained event whose deliveries all succeeded. */
  ghost predicate Done(s: Spool, e: nat) {
    e < |s.events| && !s.Pruned(e) && forall r | r in s.deliveries && r.event == e :: s.deliveries[r].state == Delivered
  }

  /** Whatever the options, a prune blanks a set of events each of which was delivered to every sink. */
  lemma PruneShape(h: Hash, s: Spool, o: PruneOptions, now: Time) returns (es: set<nat>)
    requires Inv(h, s) && Prune(s, o, now).Ok?
    ensures Prune(s, o, now).value.spool == Blanked(s, es, now)
    ensures forall e | e in es :: Done(s, e)
  {
    PruneVerdict(h, s, o, now);
    if o.dryRun {
      es := {};
      assert Blanked(s, es, now).events == s.events;
    } else {
      es := SetOf(Chosen(s, o));
      forall e | e in es ensures Done(s, e) {
        ExpiredIsDone(s, o.before, e);
      }
    }
  }

  lemma ExpiredIsDone(s: Spool, before: Time, e: nat)
    requires Expired(s, before, e)
    ensures Done(s, e)
  {
    assert forall r | r in s.deliveries && r.event == e :: Ref(e, r.sink) == r;
  }

  lemma CandidatesByTime(s: Spool, o: PruneOptions)
    requires 0 <= o.limit
    ensures Candidates(s, TextBefore(o.before), 0, o.limit) == Candidates(s, (t: Time) => t < o.before, 0, o.limit)
  {
    var text, early := TextBefore(o.before), (t: Time) => t < o.before;
    forall t ensures text(t) == early(t) {
      TextOrderIsTimeOrder(o.before, t);
    }
    CandidatesSame(s, text, early, 0, o.limit);
  }

  lemma PrunableBlanks(h: Hash, s: Spool, early: Time -> bool, es: seq<nat>, now: Time)
    requires Inv(h, s) && Increasing(es) && InRange(s, es)
    requires forall i | 0 <= i < |es| :: Prunable(s, early, es[i])
    ensures PruneAll(s, es, now, |es|) == Ok(Blanked(s, SetOf(es), now)) && Inv(h, Blanked(s, SetOf(es), now))
  {
    forall i | 0 <= i < |es| ensures !s.Pruned(es[i]) && !PruneAborts(s, es[i]) {
      assert Prunable(s, early, es[i]);
    }
    PruneAllBlanks(s, es, now, |es|);
    BlankedKeeps(h, s, SetOf(es), now);
  }

  lemma {:induction false} CandidatesSame(s: Spool, f: Time -> bool, g: Time -> bool, e: nat, limit: nat)
    requires forall t :: f(t) == g(t)
    ensures Candidates(s, f, e, limit) == Candidates(s, g, e, limit)
    decreases |s.events| - e
  {
    if e < |s.events| && limit != 0 {
      assert Prunable(s, f, e) == Prunable(s, g, e);
      CandidatesSame(s, f, g, e + 1, if Prunable(s, f, e) then limit - 1 else limit);
    }
  }

  // ----- Pruning is invisible to capture -----

  lemma LookupUnique(events: seq<EventRow>, i: nat)
    requires i < |events| && forall j, k | 0 <= j < k < |events| :: events[j].Ident() != events[k].Ident()
    ensures Lookup(events, events[i].Ident()) == Some(i)
  {
  }

  /** Blanking payloads does not move identities or digests. */
  lemma BlankedLookup(s: Spool, es: set<nat>, now: Time, who: Identity)
    requires DistinctEvents(s)
    ensures Lookup(Blanked(s, es, now).events, who) == Lookup(s.events, who)
    ensures Lookup(s.events, who).Some? ==>
      var i := Lookup(s.events, who).value; Blanked(s, es, now).events[i].event.digest == s.events[i].event.digest
  {
    var t := Blanked(s, es, now);
    assert forall i | 0 <= i < |s.events| :: t.events[i].Ident() == s.events[i].Ident();
    if Lookup(s.events, who).Some? {
      var i := Lookup(s.events, who).value;
      assert t.events[i].Ident() == who;
      LookupUnique(t.events, i);
    }
  }

  lemma ExtendsBlanked(s: Spool, es: set<nat>, now: Time, e: CapturedEvent, at: Time, t: Spool, u: Spool)
    requires (forall i | i in es :: i < |s.events|)
    requires Extends(s, e, at, t) && Extends(Blanked(s, es, now), e, at, u)
    ensures u == Blanked(t, es, now)
  {
    var v := Blanked(t, es, now);
    assert u.events == v.events;
    assert forall k: nat :: s.Active(k) <==> Blanked(s, es, now).Active(k);
    assert forall r :: r in u.deliveries <==> r in t.deliveries;
    assert u.deliveries == t.deliveries;
  }

  ghost predicate SameProgress(a: Outcome<Progress>, b: Outcome<Progress>, es: set<nat>, now: Time) {
    match (a, b)
    case (Ok(p), Ok(q)) => q.spool == Blanked(p.spool, es, now) && q.inserted == p.inserted && q.replayed == p.replayed
    case (Err(x), Err(y)) => x == y
    case _ => false
  }

  lemma IngestOneBlanked(h: Hash, p: Progress, q: Progress, b: CommittedBatch, e: CapturedEvent, index: nat, at: Time,
                         es: set<nat>, now: Time)
    requires Inv(h, p.spool) && Inv(h, q.spool) && SameProgress(Ok(p), Ok(q), es, now)
    requires forall i | i in es :: i < |p.spool.events|
    ensures SameProgress(IngestOne(h, p, b, e, index, at), IngestOne(h, q, b, e, index, at), es, now)
  {
    if ValidCaptured(h, b, e, index) {
      BlankedLookup(p.spool, es, now, e.Ident());
      if Lookup(p.spool.events, e.Ident()).None? {
        IngestNew(h, p, b, e, index, at);
        IngestNew(h, q, b, e, index, at);
        ExtendsBlanked(p.spool, es, now, e, at, IngestOne(h, p, b, e, index, at).value.spool,
                       IngestOne(h, q, b, e, index, at).value.spool);
      } else {
        IngestKnown(h, p, b, e, index, at);
        IngestKnown(h, q, b, e, index, at);
      }
    }
  }

  lemma {:induction false} IngestBlanked(h: Hash, s: Spool, b: CommittedBatch, clock: nat -> Time, n: nat,
                                         es: set<nat>, now: Time)
    requires Inv(h, s) && Inv(h, Blanked(s, es, now)) && n <= |b.events|
    requires forall i | i in es :: i < |s.events|
    ensures SameProgress(Ingest(h, s, b, clock, n), Ingest(h, Blanked(s, es, now), b, clock, n), es, now)
  {
    if n != 0 {
      var u := Blanked(s, es, now);
      IngestBlanked(h, s, b, clock, n - 1, es, now);
      var x, y := Ingest(h, s, b, clock, n - 1), Ingest(h, u, b, clock, n - 1);
      if x.Ok? {
        IngestVerdict(h, s, b, clock, n - 1);
        IngestVerdict(h, u, b, clock, n - 1);
        AddAllLonger(s.events, b.events, n - 1);
        IngestOneBlanked(h, x.value, y.value, b, b.events[n - 1], n - 1, clock(n - 1), es, now);
      }
    }
  }

  /** A batch gets the same verdict, counts and checkpoint before and after, and pruning commutes with persisting it. */
  lemma PruneInvisible(h: Hash, s: Spool, o: PruneOptions, now: Time, b: CommittedBatch, clock: nat -> Time)
    requires Inv(h, s) && Prune(s, o, now).Ok?
    ensures 0 <= o.limit
    ensures var t := Prune(s, o, now).value.spool;
      match (Persist(h, s, b, clock), Persist(h, t, b, clock))
      case (Ok(p), Ok(q)) =>
        && q.result == p.result
        && (o.dryRun || q.spool == Blanked(p.spool, SetOf(Chosen(s, o)), now))
      case (Err(x), Err(y)) => x == y
      case _ => false
  {
    PruneVerdict(h, s, o, now);
    if !o.dryRun {
      var es := SetOf(Chosen(s, o));
      IngestBlanked(h, s, b, clock, |b.events|, es, now);
    }
  }
}
