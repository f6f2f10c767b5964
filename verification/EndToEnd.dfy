/**
 The relay and a receiver that answers success only after its inbox helper returned without error: at-least-once
 delivery becomes one committed effect per event and sink.
 */
module EndToEnd {
  import opened Basics
  import opened SpoolState
  import opened SpoolCapture
  import opened SpoolSinks
  import opened SpoolDelivery
  import opened SpoolRuns
  import opened Timestamps
  import opened Webhooks
  import opened DeliveryWorker
  import Inbox
  import Relay = DeliveryRuns

  /** The hash behind the Idempotency-Key header, as hexadecimal text. */
  type KeyHash = string -> Inbox.Key

  /**
   The relay, every request it ever posted (the one being sent is the last), the receiver's inbox, and for each
   inbox attempt the request it handles. A request may reach the receiver never, late, or several times.
   */
  datatype System = System(relay: Relay.Delivering, posted: seq<Delivery>, inbox: Inbox.State, origin: seq<nat>)

  const START := System(Relay.Delivering(EMPTY, None, []), [], Inbox.START, [])

  datatype Action =
    | Other(op: Op)                                                      // persist, configure, redrive, prune
    | Select(now: Time)                                                  // pick a delivery and post it
    | Reach(request: nat, driver: Inbox.Driver)                          // a posted request arrives
    | Receive(id: nat, event: Inbox.Event)                               // the receiver's helper or its database
    | Record(policy: RetryPolicy, result: AttemptResult, now: Time, answer: nat)
    | Drop                                                               // crash, or a cancelled send

  predicate Succeeded(stage: Inbox.Stage) {
    Inbox.Report(stage) == Some(Inbox.Processed) || Inbox.Report(stage) == Some(Inbox.Duplicate)
  }

  /** The relay records success only on a success answer to the request it is sending. */
  ghost predicate Possible(s: System, a: Action) {
    match a
    case Other(op) => ByOthers(op)
    case Select(_) => true
    case Reach(i, driver) => i < |s.posted| && Inbox.Detects(driver)
    case Receive(_, _) => true
    case Record(p, result, now, x) =>
      && ClockOk(p, now)
      && (result.success ==>
            x < |s.origin| && x < |s.inbox.attempts|
            && s.origin[x] + 1 == |s.posted| && Succeeded(s.inbox.attempts[x].stage))
    case Drop => true
  }

  function KeyOf(k: KeyHash, item: Delivery): Inbox.Key {
    k(KeyText(item.sinkName, item.source, item.id))
  }

  function DoSelect(s: System, now: Time): System {
    var relay := Relay.DoSelect(s.relay, now);
    s.(relay := relay,
       posted := if s.relay.sending.None? && relay.sending.Some? then s.posted + [relay.sending.value] else s.posted)
  }

  function DoReach(h: Hash, k: KeyHash, s: System, i: nat, driver: Inbox.Driver): System
    requires i < |s.posted|
  {
    var item := s.posted[i];
    s.(inbox := Inbox.Do(s.inbox, Inbox.Arrive(KeyOf(k, item), h(item.payload), driver)), origin := s.origin + [i])
  }

  ghost function Do(h: Hash, k: KeyHash, s: System, a: Action): System
    requires Possible(s, a)
  {
    match a
    case Other(op) => s.(relay := Relay.DoOther(h, s.relay, op))
    case Select(now) => DoSelect(s, now)
    case Reach(i, driver) => DoReach(h, k, s, i, driver)
    case Receive(x, event) => s.(inbox := Inbox.Do(s.inbox, Inbox.At(x, event)))
    case Record(p, result, now, _) => s.(relay := Relay.DoRecord(h, s.relay, p, result, now))
    case Drop => s.(relay := s.relay.(sending := None))
  }

  ghost predicate IsRun(h: Hash, k: KeyHash, states: seq<System>, actions: seq<Action>) {
    && |states| == |actions| + 1 && states[0] == START
    && forall i | 0 <= i < |actions| ::
        Possible(states[i], actions[i]) && states[i + 1] == Do(h, k, states[i], actions[i])
  }

  // ----- What holds in every state -----

  /** A posted request carries the identity and bytes of its row, whatever has happened to the row since. */
  ghost predicate Fits(h: Hash, s: Spool, item: Delivery) {
    var r := item.ref;
    && r.event < |s.events| && r.sink < |s.sinks| && item.sinkName == s.sinks[r.sink].name
    && item.source == s.events[r.event].event.source && item.id == s.events[r.event].event.id
    && h(item.payload) == s.events[r.event].event.digest
    && (!s.Pruned(r.event) ==> item.payload == s.events[r.event].event.payload)
  }

  ghost predicate PostedFit(h: Hash, s: Spool, posted: seq<Delivery>) {
    forall i | 0 <= i < |posted| :: Fits(h, s, posted[i])
  }

  /** Every request for a row, first try, retry or redrive, posts the same bytes. */
  ghost predicate SameBytes(posted: seq<Delivery>) {
    forall i, j | 0 <= i < |posted| && 0 <= j < |posted| && posted[i].ref.event == posted[j].ref.event ::
      posted[i].payload == posted[j].payload
  }

  ghost predicate Handles(h: Hash, k: KeyHash, x: Inbox.Attempt, item: Delivery) {
    x.key == KeyOf(k, item) && x.digest == h(item.payload) && Inbox.Detects(x.driver)
  }

  ghost predicate OriginOk(h: Hash, k: KeyHash, s: System) {
    && |s.origin| == |s.inbox.attempts|
    && forall a | 0 <= a < |s.origin| ::
        s.origin[a] < |s.posted| && Handles(h, k, s.inbox.attempts[a], s.posted[s.origin[a]])
  }

  /** Every receipt was written by an attempt. */
  ghost predicate ReceiptsOk(s: Inbox.State) {
    forall key | key in s.receipts :: exists a ::
      0 <= a < |s.attempts| && s.attempts[a].key == key && s.attempts[a].digest == s.receipts[key]
  }

  function RowKey(k: KeyHash, s: Spool, r: Ref): Inbox.Key
    requires r.event < |s.events| && r.sink < |s.sinks|
  {
    k(KeyText(s.sinks[r.sink].name, s.events[r.event].event.source, s.events[r.event].event.id))
  }

  ghost predicate Effected(k: KeyHash, s: Spool, receipts: map<Inbox.Key, Digest>, r: Ref) {
    && r.event < |s.events| && r.sink < |s.sinks|
    && RowKey(k, s, r) in receipts && receipts[RowKey(k, s, r)] == s.events[r.event].event.digest
  }

  ghost predicate DeliveredEffected(k: KeyHash, s: Spool, receipts: map<Inbox.Key, Digest>) {
    forall r | r in s.deliveries && s.deliveries[r].state == Delivered :: Effected(k, s, receipts, r)
  }

  ghost predicate SendingPosted(s: System) {
    s.relay.sending.Some? ==> |s.posted| > 0 && s.posted[|s.posted| - 1] == s.relay.sending.value
  }

  ghost predicate SysInv(h: Hash, k: KeyHash, s: System) {
    && Inv(h, s.relay.spool) && Inbox.Inv(s.inbox)
    && PostedFit(h, s.relay.spool, s.posted) && SameBytes(s.posted) && SendingPosted(s)
    && OriginOk(h, k, s) && ReceiptsOk(s.inbox)
    && DeliveredEffected(k, s.relay.spool, s.inbox.receipts)
  }

  // ----- The spool moves -----

  lemma FitsStays(h: Hash, s: Spool, t: Spool, item: Delivery)
    requires EventsEvolve(s, t) && SinksKept(s, t) && Fits(h, s, item)
    ensures Fits(h, t, item)
  {
    var r := item.ref;
    assert RowEvolves(s.events[r.event], t.events[r.event]);
    assert t.sinks[r.sink] == s.sinks[r.sink].(active := t.sinks[r.sink].active);
  }

  lemma EffectedStays(k: KeyHash, s: Spool, t: Spool, receipts: map<Inbox.Key, Digest>, r: Ref)
    requires EventsEvolve(s, t) && SinksKept(s, t) && Effected(k, s, receipts, r)
    ensures Effected(k, t, receipts, r)
  {
    assert RowEvolves(s.events[r.event], t.events[r.event]);
    assert t.sinks[r.sink] == s.sinks[r.sink].(active := t.sinks[r.sink].active);
  }

  /** Only recording a success makes a row delivered. */
  lemma NoneNewlyDelivered(h: Hash, s: Spool, op: Op, r: Ref)
    requires Inv(h, s) && !op.DeliveredOp?
    ensures var t := Apply(h, s, op);
      r in t.deliveries && t.deliveries[r].state == Delivered ==>
        r in s.deliveries && s.deliveries[r].state == Delivered
  {
    match op
    case PersistOp(b, clock) => PersistVerdict(h, s, b, clock);
    case ConfigureOp(regs, now) => ConfigureVerdict(h, s, regs, now);
    case PruneOp(o, now) =>
      var _ := PruneBlanks(h, s, o, now);
    case FailedOp(item, attempt, permanent, retryAt, failure, status, at) =>
    case RedriveOp(sink, who, at) =>
    case Crash =>
  }

  lemma EffectedMoves(h: Hash, k: KeyHash, s: Spool, op: Op, receipts: map<Inbox.Key, Digest>)
    requires Inv(h, s) && Evolves(s, Apply(h, s, op)) && DeliveredEffected(k, s, receipts)
    requires op.DeliveredOp? ==> Effected(k, s, receipts, op.item.ref)
    ensures DeliveredEffected(k, Apply(h, s, op), receipts)
  {
    var t := Apply(h, s, op);
    forall r | r in t.deliveries && t.deliveries[r].state == Delivered ensures Effected(k, t, receipts, r) {
      if !op.DeliveredOp? {
        NoneNewlyDelivered(h, s, op, r);
      }
      EffectedStays(k, s, t, receipts, r);
    }
  }

  lemma SpoolMoves(h: Hash, k: KeyHash, s: System, op: Op)
    requires SysInv(h, k, s)
    requires op.DeliveredOp? ==> Effected(k, s.relay.spool, s.inbox.receipts, op.item.ref)
    ensures var t := Apply(h, s.relay.spool, op);
      Inv(h, t) && PostedFit(h, t, s.posted) && DeliveredEffected(k, t, s.inbox.receipts)
  {
    var spool := s.relay.spool;
    var t := Apply(h, spool, op);
    AttemptKeeps(h, spool, op);
    StepEvolves(h, spool, op);
    forall i | 0 <= i < |s.posted| ensures Fits(h, t, s.posted[i]) {
      FitsStays(h, spool, t, s.posted[i]);
    }
    EffectedMoves(h, k, spool, op, s.inbox.receipts);
  }

  // ----- The relay's steps -----

  lemma OtherKeeps(h: Hash, k: KeyHash, s: System, op: Op)
    requires SysInv(h, k, s) && ByOthers(op)
    ensures SysInv(h, k, Do(h, k, s, Other(op)))
  {
    SpoolMoves(h, k, s, op);
  }

  lemma SelectKeeps(h: Hash, k: KeyHash, s: System, now: Time)
    requires SysInv(h, k, s)
    ensures SysInv(h, k, DoSelect(s, now))
  {
    var spool := s.relay.spool;
    var r := NextDue(spool, TextDue(now));
    if s.relay.sending.None? && r.Some? {
      SelectedPayload(h, spool, TextDue(now), r.value);
      var item := ItemAt(spool, r.value);
      assert Fits(h, spool, item);
      PostKeeps(h, k, s, item);
      assert DoSelect(s, now).posted == s.posted + [item];
    }
  }

  lemma PostKeeps(h: Hash, k: KeyHash, s: System, item: Delivery)
    requires PostedFit(h, s.relay.spool, s.posted) && SameBytes(s.posted) && OriginOk(h, k, s)
    requires Fits(h, s.relay.spool, item) && !s.relay.spool.Pruned(item.ref.event)
    ensures PostedFit(h, s.relay.spool, s.posted + [item]) && SameBytes(s.posted + [item])
    ensures OriginOk(h, k, s.(posted := s.posted + [item]))
  {
    assert forall i | 0 <= i < |s.posted| :: Fits(h, s.relay.spool, s.posted[i]);
  }

  /** A success answer means the row's effect is committed. */
  lemma AnswerMeansEffect(h: Hash, k: KeyHash, s: System, a: nat)
    requires SysInv(h, k, s) && a < |s.origin| && Succeeded(s.inbox.attempts[a].stage)
    ensures Effected(k, s.relay.spool, s.inbox.receipts, s.posted[s.origin[a]].ref)
  {
    var item := s.posted[s.origin[a]];
    assert Fits(h, s.relay.spool, item) && Handles(h, k, s.inbox.attempts[a], item);
    assert Inbox.AttemptOk(s.inbox, s.inbox.attempts[a]);
  }

  lemma RecordKeeps(h: Hash, k: KeyHash, s: System, p: RetryPolicy, result: AttemptResult, now: Time, x: nat)
    requires SysInv(h, k, s) && Possible(s, Record(p, result, now, x))
    ensures SysInv(h, k, Do(h, k, s, Record(p, result, now, x)))
  {
    if s.relay.sending.Some? {
      RecordShape(h, s.relay, p, result, now);
      if result.success {
        AnswerMeansEffect(h, k, s, x);
        AnsweredIsSending(s, x);
      }
      RecordOpKeeps(h, k, s, Relay.RecordAsOp(p, s.relay.sending.value, result, now));
    }
  }

  lemma RecordShape(h: Hash, relay: Relay.Delivering, p: RetryPolicy, result: AttemptResult, now: Time)
    requires ClockOk(p, now) && relay.sending.Some?
    ensures Relay.DoRecord(h, relay, p, result, now)
         == relay.(spool := Apply(h, relay.spool, Relay.RecordAsOp(p, relay.sending.value, result, now)),
                   sending := None)
  {
  }

  /** The request being sent is the last one posted. */
  lemma AnsweredIsSending(s: System, x: nat)
    requires SendingPosted(s) && s.relay.sending.Some? && x < |s.origin| && s.origin[x] + 1 == |s.posted|
    ensures s.posted[s.origin[x]] == s.relay.sending.value
  {
  }

  lemma RecordOpKeeps(h: Hash, k: KeyHash, s: System, op: Op)
    requires SysInv(h, k, s)
    requires op.DeliveredOp? ==> Effected(k, s.relay.spool, s.inbox.receipts, op.item.ref)
    ensures SysInv(h, k, s.(relay := s.relay.(spool := Apply(h, s.relay.spool, op), sending := None)))
  {
    SpoolMoves(h, k, s, op);
    RecordMoves(h, k, s, s.relay.(spool := Apply(h, s.relay.spool, op), sending := None));
  }

  /** Recording changes only the spool, and ends the send. */
  lemma RecordMoves(h: Hash, k: KeyHash, s: System, relay: Relay.Delivering)
    requires SysInv(h, k, s) && relay.sending == None
    requires Inv(h, relay.spool) && PostedFit(h, relay.spool, s.posted)
    requires DeliveredEffected(k, relay.spool, s.inbox.receipts)
    ensures SysInv(h, k, s.(relay := relay))
  {
  }

  // ----- The receiver's steps -----

  lemma InboxMoves(h: Hash, k: KeyHash, s: System, inbox: Inbox.State, origin: seq<nat>)
    requires SysInv(h, k, s) && Inbox.Inv(inbox) && Inbox.Grows(s.inbox, inbox)
    requires OriginOk(h, k, s.(inbox := inbox, origin := origin)) && ReceiptsOk(inbox)
    ensures SysInv(h, k, s.(inbox := inbox, origin := origin))
  {
    forall r | r in s.relay.spool.deliveries && s.relay.spool.deliveries[r].state == Delivered
      ensures Effected(k, s.relay.spool, inbox.receipts, r)
    {
      assert Effected(k, s.relay.spool, s.inbox.receipts, r);
    }
  }

  lemma ReachKeeps(h: Hash, k: KeyHash, s: System, i: nat, driver: Inbox.Driver)
    requires SysInv(h, k, s) && i < |s.posted| && Inbox.Detects(driver)
    ensures SysInv(h, k, DoReach(h, k, s, i, driver))
  {
    var t := DoReach(h, k, s, i, driver);
    var step := Inbox.Arrive(KeyOf(k, s.posted[i]), h(s.posted[i].payload), driver);
    Inbox.StepKeeps(s.inbox, step);
    ArrivalReceipts(s.inbox, step);
    ArrivalOrigin(h, k, s, i, driver);
    InboxMoves(h, k, s, t.inbox, t.origin);
  }

  lemma ArrivalOrigin(h: Hash, k: KeyHash, s: System, i: nat, driver: Inbox.Driver)
    requires OriginOk(h, k, s) && i < |s.posted| && Inbox.Detects(driver)
    ensures OriginOk(h, k, DoReach(h, k, s, i, driver))
  {
    var t := DoReach(h, k, s, i, driver);
    forall a | 0 <= a < |t.origin|
      ensures t.origin[a] < |t.posted| && Handles(h, k, t.inbox.attempts[a], t.posted[t.origin[a]]) {
      if a < |s.origin| {
        assert t.inbox.attempts[a] == s.inbox.attempts[a] && t.origin[a] == s.origin[a];
      }
    }
  }

  lemma ArrivalReceipts(s: Inbox.State, step: Inbox.Step)
    requires ReceiptsOk(s) && step.Arrive?
    ensures ReceiptsOk(Inbox.Do(s, step))
  {
    var t := Inbox.Do(s, step);
    forall key | key in t.receipts
      ensures exists a :: 0 <= a < |t.attempts| && t.attempts[a].key == key && t.attempts[a].digest == t.receipts[key]
    {
      var a :| 0 <= a < |s.attempts| && s.attempts[a].key == key && s.attempts[a].digest == s.receipts[key];
      assert t.attempts[a] == s.attempts[a];
    }
  }

  /** A step writes no receipt but the attempt's own. */
  lemma ReceiptsFrom(s: Inbox.State, a: nat, event: Inbox.Event, key: Inbox.Key)
    requires a < |s.attempts| && key in Inbox.DoAt(s, a, event).receipts
    ensures var t := Inbox.DoAt(s, a, event);
      (key in s.receipts && t.receipts[key] == s.receipts[key])
        || (key == s.attempts[a].key && t.receipts[key] == s.attempts[a].digest)
  {
    match event
    case Insert =>
    case Abort =>
    case Return(_) =>
    case Read =>
    case Check =>
    case Commit(_) =>
    case Settle(_) =>
    case Break =>
    case Rollback =>
  }

  lemma ReceiptsStayOk(s: Inbox.State, a: nat, event: Inbox.Event)
    requires ReceiptsOk(s) && a < |s.attempts|
    ensures ReceiptsOk(Inbox.DoAt(s, a, event))
  {
    var t := Inbox.DoAt(s, a, event);
    Inbox.OnlyOneMoves(s, a, event);
    forall key | key in t.receipts
      ensures exists b :: 0 <= b < |t.attempts| && t.attempts[b].key == key && t.attempts[b].digest == t.receipts[key]
    {
      ReceiptsFrom(s, a, event, key);
      if key == s.attempts[a].key && t.receipts[key] == s.attempts[a].digest {
        assert t.attempts[a].key == key && t.attempts[a].digest == t.receipts[key];
      } else {
        var b :| 0 <= b < |s.attempts| && s.attempts[b].key == key && s.attempts[b].digest == s.receipts[key];
        assert Inbox.SameDelivery(t.attempts[b], s.attempts[b]);
      }
    }
  }

  lemma ReceiveKeeps(h: Hash, k: KeyHash, s: System, a: nat, event: Inbox.Event)
    requires SysInv(h, k, s) && a < |s.inbox.attempts|
    ensures SysInv(h, k, s.(inbox := Inbox.DoAt(s.inbox, a, event)))
  {
    var inbox := Inbox.DoAt(s.inbox, a, event);
    Inbox.AtKeeps(s.inbox, a, event);
    Inbox.OnlyOneMoves(s.inbox, a, event);
    ReceiptsStayOk(s.inbox, a, event);
    var t := s.(inbox := inbox);
    forall b | 0 <= b < |t.origin|
      ensures t.origin[b] < |t.posted| && Handles(h, k, t.inbox.attempts[b], t.posted[t.origin[b]]) {
      assert Handles(h, k, s.inbox.attempts[b], s.posted[s.origin[b]]);
    }
    InboxMoves(h, k, s, inbox, s.origin);
  }

  lemma StepKeeps(h: Hash, k: KeyHash, s: System, a: Action)
    requires SysInv(h, k, s) && Possible(s, a)
    ensures SysInv(h, k, Do(h, k, s, a))
  {
    match a
    case Other(op) => OtherKeeps(h, k, s, op);
    case Select(now) => SelectKeeps(h, k, s, now);
    case Reach(i, driver) => ReachKeeps(h, k, s, i, driver);
    case Receive(x, event) =>
      if x < |s.inbox.attempts| {
        ReceiveKeeps(h, k, s, x, event);
      }
    case Record(p, result, now, x) => RecordKeeps(h, k, s, p, result, now, x);
    case Drop =>
  }

  lemma {:induction false} RunKeeps(h: Hash, k: KeyHash, states: seq<System>, actions: seq<Action>, n: nat)
    requires IsRun(h, k, states, actions) && n <= |actions|
    ensures SysInv(h, k, states[n])
  {
    if n == 0 {
      InvEmpty(h);
    } else {
      RunKeeps(h, k, states, actions, n - 1);
      StepKeeps(h, k, states[n - 1], actions[n - 1]);
    }
  }

  // ----- The theorems -----

  /** Sink names have no NUL: the configuration admits only lower-case identifiers. */
  ghost predicate PlainNames(s: Spool) {
    forall i | 0 <= i < |s.sinks| :: NoNul(s.sinks[i].name)
  }

  function Joined(e: CapturedEvent): string {
    e.source + [NUL] + e.id
  }

  /** No two events read the same once source and id are joined. */
  ghost predicate Apart(s: Spool) {
    forall i, j | 0 <= i < j < |s.events| :: Joined(s.events[i].event) != Joined(s.events[j].event)
  }

  /** Sources without NUL are enough. */
  lemma PlainSourcesApart(h: Hash, s: Spool)
    requires Inv(h, s) && forall e | 0 <= e < |s.events| :: NoNul(s.events[e].event.source)
    ensures Apart(s)
  {
    forall i, j | 0 <= i < j < |s.events| ensures Joined(s.events[i].event) != Joined(s.events[j].event) {
      var a, b := s.events[i].event, s.events[j].event;
      assert a.Ident() != b.Ident();
      if Joined(a) == Joined(b) {
        CutAtNul(a.source, a.id, b.source, b.id);
      }
    }
  }

  ghost predicate ValidRef(s: Spool, r: Ref) {
    r.event < |s.events| && r.sink < |s.sinks|
  }

  /** Different rows have different keys. */
  lemma KeysDistinct(h: Hash, k: KeyHash, s: Spool, r: Ref, q: Ref)
    requires Inv(h, s) && PlainNames(s) && Apart(s) && Injective(k) && ValidRef(s, r) && ValidRef(s, q)
    requires RowKey(k, s, r) == RowKey(k, s, q)
    ensures r == q
  {
    var a, b := s.events[r.event].event, s.events[q.event].event;
    SameRest(s.sinks[q.sink].name, b.source, b.id, s.sinks[r.sink].name, a.source, a.id);
    assert Joined(a) == Joined(b);
  }

  /** And that is exactly when: rows have different keys if and only if the joined texts of the events differ. */
  lemma KeysDistinctExactly(h: Hash, k: KeyHash, s: Spool)
    requires Inv(h, s) && PlainNames(s) && Injective(k) && |s.sinks| > 0
    ensures (forall r, q | ValidRef(s, r) && ValidRef(s, q) && RowKey(k, s, r) == RowKey(k, s, q) :: r == q) <==>
      Apart(s)
  {
    if Apart(s) {
      forall r, q | ValidRef(s, r) && ValidRef(s, q) && RowKey(k, s, r) == RowKey(k, s, q) ensures r == q {
        KeysDistinct(h, k, s, r, q);
      }
    } else {
      var i, j :| 0 <= i < j < |s.events| && Joined(s.events[i].event) == Joined(s.events[j].event);
      var a, b, name := s.events[i].event, s.events[j].event, s.sinks[0].name;
      SameRest(name, a.source, a.id, name, b.source, b.id);
      assert ValidRef(s, Ref(i, 0)) && ValidRef(s, Ref(j, 0)) && RowKey(k, s, Ref(i, 0)) == RowKey(k, s, Ref(j, 0));
    }
  }

  /** In every state of every run, each delivered row has its effect committed exactly once, for its own bytes. */
  lemma DeliveredOnce(h: Hash, k: KeyHash, states: seq<System>, actions: seq<Action>, n: nat, r: Ref)
    requires IsRun(h, k, states, actions) && n <= |actions|
    requires r in states[n].relay.spool.deliveries
    ensures var s := states[n];
      && ValidRef(s.relay.spool, r)
      && Inbox.Effects(s.inbox, RowKey(k, s.relay.spool, r)) <= 1
      && (s.relay.spool.deliveries[r].state == Delivered ==>
            Inbox.Effects(s.inbox, RowKey(k, s.relay.spool, r)) == 1 && Effected(k, s.relay.spool, s.inbox.receipts, r))
  {
    RunKeeps(h, k, states, actions, n);
    var s := states[n];
    var key := RowKey(k, s.relay.spool, r);
    assert Inbox.Effects(s.inbox, key) == if key in s.inbox.receipts then 1 else 0;
  }

  /** The request that attempt `a` handles is for row `r`. */
  ghost predicate IsFor(s: System, a: nat, r: Ref) {
    a < |s.origin| && s.origin[a] < |s.posted| && s.posted[s.origin[a]].ref == r
  }

  lemma AttemptForRow(h: Hash, k: KeyHash, s: System, a: nat, r: Ref)
    requires SysInv(h, k, s) && PlainNames(s.relay.spool) && Apart(s.relay.spool) && Injective(k)
    requires a < |s.inbox.attempts| && ValidRef(s.relay.spool, r)
    ensures s.inbox.attempts[a].key == RowKey(k, s.relay.spool, r) <==> IsFor(s, a, r)
  {
    var item := s.posted[s.origin[a]];
    assert Handles(h, k, s.inbox.attempts[a], item) && Fits(h, s.relay.spool, item);
    assert s.inbox.attempts[a].key == RowKey(k, s.relay.spool, item.ref);
    if s.inbox.attempts[a].key == RowKey(k, s.relay.spool, r) {
      KeysDistinct(h, k, s.relay.spool, item.ref, r);
    }
  }

  /**
   The one effect behind a delivered row is its own: an attempt that handled a request for that row wrote the
   receipt, and the attempts under its key are exactly those that handle its requests.
   */
  lemma EffectIsOfRow(h: Hash, k: KeyHash, states: seq<System>, actions: seq<Action>, n: nat, r: Ref)
    requires IsRun(h, k, states, actions) && n <= |actions| && Injective(k)
    requires PlainNames(states[n].relay.spool) && Apart(states[n].relay.spool)
    requires r in states[n].relay.spool.deliveries && states[n].relay.spool.deliveries[r].state == Delivered
    ensures var s := states[n];
      && ValidRef(s.relay.spool, r)
      && Inbox.Effects(s.inbox, RowKey(k, s.relay.spool, r)) == 1
      && (exists a: nat :: a < |s.inbox.attempts| && IsFor(s, a, r) && Effected(k, s.relay.spool, s.inbox.receipts, r)
            && s.inbox.attempts[a].digest == s.inbox.receipts[RowKey(k, s.relay.spool, r)])
      && (forall a: nat | a < |s.inbox.attempts| ::
             s.inbox.attempts[a].key == RowKey(k, s.relay.spool, r) <==> IsFor(s, a, r))
  {
    RunKeeps(h, k, states, actions, n);
    DeliveredOnce(h, k, states, actions, n, r);
    var s := states[n];
    var key := RowKey(k, s.relay.spool, r);
    forall a: nat | a < |s.inbox.attempts| ensures s.inbox.attempts[a].key == key <==> IsFor(s, a, r) {
      AttemptForRow(h, k, s, a, r);
    }
    var a: nat :| a < |s.inbox.attempts| && s.inbox.attempts[a].key == key
      && s.inbox.attempts[a].digest == s.inbox.receipts[key];
    assert IsFor(s, a, r);
  }

  /** A receipt under an attempt's key holds the attempt's own digest. */
  lemma ReceiptMatches(h: Hash, k: KeyHash, s: System, a: nat)
    requires SysInv(h, k, s) && PlainNames(s.relay.spool) && Apart(s.relay.spool) && Injective(k)
    requires a < |s.inbox.attempts| && s.inbox.attempts[a].key in s.inbox.receipts
    ensures s.inbox.receipts[s.inbox.attempts[a].key] == s.inbox.attempts[a].digest
  {
    var x := s.inbox.attempts[a];
    var b :| 0 <= b < |s.inbox.attempts| && s.inbox.attempts[b].key == x.key
      && s.inbox.attempts[b].digest == s.inbox.receipts[x.key];
    var i, j := s.posted[s.origin[a]], s.posted[s.origin[b]];
    assert Handles(h, k, x, i) && Handles(h, k, s.inbox.attempts[b], j);
    assert Fits(h, s.relay.spool, i) && Fits(h, s.relay.spool, j);
    KeysDistinct(h, k, s.relay.spool, i.ref, j.ref);
  }

  /** Retries, redrives, duplicated and delayed requests never meet a content conflict. */
  lemma NoConflicts(h: Hash, k: KeyHash, states: seq<System>, actions: seq<Action>, n: nat, a: nat)
    requires IsRun(h, k, states, actions) && n <= |actions| && Injective(k)
    requires PlainNames(states[n].relay.spool) && Apart(states[n].relay.spool)
    requires a < |states[n].inbox.attempts|
    ensures Inbox.Report(states[n].inbox.attempts[a].stage) != Some(Inbox.Failed(Inbox.Conflict))
  {
    RunKeeps(h, k, states, actions, n);
    var s := states[n];
    assert Inbox.AttemptOk(s.inbox, s.inbox.attempts[a]);
    if s.inbox.attempts[a].key in s.inbox.receipts {
      ReceiptMatches(h, k, s, a);
    }
  }

  /** Two requests share a key exactly when they are for the same row, and then they carry the same bytes. */
  lemma SameKeySameBytes(h: Hash, k: KeyHash, states: seq<System>, actions: seq<Action>, n: nat, i: nat, j: nat)
    requires IsRun(h, k, states, actions) && n <= |actions| && Injective(k)
    requires PlainNames(states[n].relay.spool) && Apart(states[n].relay.spool)
    requires i < |states[n].posted| && j < |states[n].posted|
    ensures var x, y := states[n].posted[i], states[n].posted[j];
      && (KeyOf(k, x) == KeyOf(k, y) <==> x.ref == y.ref)
      && (x.ref == y.ref ==> x.payload == y.payload)
  {
    RunKeeps(h, k, states, actions, n);
    var s := states[n];
    var x, y := s.posted[i], s.posted[j];
    assert Fits(h, s.relay.spool, x) && Fits(h, s.relay.spool, y);
    if KeyOf(k, x) == KeyOf(k, y) {
      KeysDistinct(h, k, s.relay.spool, x.ref, y.ref);
    }
  }
}
