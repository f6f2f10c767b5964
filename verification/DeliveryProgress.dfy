/**
 Nothing is ever stuck: from every state that relay and receiver can reach, with any number of attempts left behind in
 any stage, there is a way on to the next due delivery being delivered, with exactly one effect.
 */
module DeliveryProgress {
  import opened Basics
  import opened SpoolState
  import opened SpoolDelivery
  import opened Timestamps
  import opened Webhooks
  import opened DeliveryWorker
  import opened EndToEnd

  // ----- Going on -----

  /** Where actions lead, if each is possible when its turn comes. */
  ghost function Go(h: Hash, k: KeyHash, s: System, actions: seq<Action>): Option<System> {
    if |actions| == 0 then Some(s)
    else
      match Go(h, k, s, actions[..|actions| - 1])
      case None => None
      case Some(t) =>
        var a := actions[|actions| - 1];
        if Possible(t, a) then Some(Do(h, k, t, a)) else None
  }

  lemma GoOne(h: Hash, k: KeyHash, s: System, a: Action)
    requires Possible(s, a)
    ensures Go(h, k, s, [a]) == Some(Do(h, k, s, a))
  {
    assert [a][..0] == [];
  }

  lemma GoPush(h: Hash, k: KeyHash, s: System, actions: seq<Action>, t: System, a: Action)
    requires Go(h, k, s, actions) == Some(t) && Possible(t, a)
    ensures Go(h, k, s, actions + [a]) == Some(Do(h, k, t, a))
  {
    assert (actions + [a])[..|actions|] == actions;
  }

  lemma {:induction false} GoThen(h: Hash, k: KeyHash, s: System, first: seq<Action>, t: System, second: seq<Action>)
    requires Go(h, k, s, first) == Some(t)
    ensures Go(h, k, s, first + second) == Go(h, k, t, second)
  {
    if |second| == 0 {
      assert first + second == first;
    } else {
      var front := second[..|second| - 1];
      GoThen(h, k, s, first, t, front);
      assert (first + second)[..|first + second| - 1] == first + front;
    }
  }

  /** A run goes on with whatever is possible from its last state. */
  lemma {:induction false} RunGoes(h: Hash, k: KeyHash, states: seq<System>, actions: seq<Action>, more: seq<Action>)
    returns (states': seq<System>)
    requires IsRun(h, k, states, actions) && Go(h, k, states[|actions|], more).Some?
    ensures IsRun(h, k, states', actions + more)
    ensures Some(states'[|actions + more|]) == Go(h, k, states[|actions|], more)
  {
    if |more| == 0 {
      states' := states;
      assert actions + more == actions;
    } else {
      var front, a := more[..|more| - 1], more[|more| - 1];
      var before := RunGoes(h, k, states, actions, front);
      states' := before + [Do(h, k, before[|actions + front|], a)];
      assert actions + more == actions + front + [a];
      RunPush(h, k, before, actions + front, a);
    }
  }

  lemma RunPush(h: Hash, k: KeyHash, states: seq<System>, actions: seq<Action>, a: Action)
    requires IsRun(h, k, states, actions) && Possible(states[|actions|], a)
    ensures IsRun(h, k, states + [Do(h, k, states[|actions|], a)], actions + [a])
  {
    var states', actions' := states + [Do(h, k, states[|actions|], a)], actions + [a];
    forall i | 0 <= i < |actions'|
      ensures Possible(states'[i], actions'[i]) && states'[i + 1] == Do(h, k, states'[i], actions'[i]) {
      if i < |actions| {
        assert states'[i] == states[i] && states'[i + 1] == states[i + 1] && actions'[i] == actions[i];
      }
    }
  }

  // ----- The receiver -----

  function Receives(a: nat, events: seq<Inbox.Event>): seq<Action> {
    seq(|events|, i requires 0 <= i < |events| => Receive(a, events[i]))
  }

  function StepsAt(a: nat, events: seq<Inbox.Event>): seq<Inbox.Step> {
    seq(|events|, i requires 0 <= i < |events| => Inbox.At(a, events[i]))
  }

  lemma {:induction false} ReceiverGoes(h: Hash, k: KeyHash, s: System, a: nat, events: seq<Inbox.Event>)
    ensures Go(h, k, s, Receives(a, events)) == Some(s.(inbox := Inbox.Run(s.inbox, StepsAt(a, events))))
  {
    if |events| != 0 {
      var front := events[..|events| - 1];
      ReceiverGoes(h, k, s, a, front);
      assert Receives(a, events)[..|events| - 1] == Receives(a, front);
      assert StepsAt(a, events)[..|events| - 1] == StepsAt(a, front);
    }
  }

  /** How an attempt that is still holding its key is given up. */
  function GivingUp(stage: Inbox.Stage): seq<Inbox.Event> {
    match stage
    case InCallback => [Inbox.Return(false), Inbox.Rollback]
    case Checking(_) => [Inbox.Break, Inbox.Rollback]
    case Committing(_) => [Inbox.Commit(false), Inbox.Settle(false)]
    case Lingering(_) => [Inbox.Settle(false)]
    case Failing(_, _) => [Inbox.Rollback]
    case _ => []
  }

  lemma FinishFrees(s: Inbox.State, a: nat, key: Inbox.Key, r: Inbox.Result)
    requires a < |s.attempts| && key in s.holders && s.holders[key] == a
    ensures var t := Inbox.Finish(s, a, r); key !in t.holders && t.receipts == s.receipts && t.effects == s.effects
  {
  }

  /** The attempt has decided to give up, or has sent a COMMIT nobody answered. */
  predicate Ending(stage: Inbox.Stage) {
    stage.Failing? || stage.Lingering?
  }

  lemma EndingFrees(s: Inbox.State, a: nat, key: Inbox.Key)
    requires a < |s.attempts| && key in s.holders && s.holders[key] == a && Ending(s.attempts[a].stage)
    ensures var last := if s.attempts[a].stage.Failing? then Inbox.Rollback else Inbox.Settle(false);
      var t := Inbox.Do(s, Inbox.At(a, last));
      key !in t.holders && t.receipts == s.receipts && t.effects == s.effects
  {
    var stage := s.attempts[a].stage;
    FinishFrees(s, a, key, if stage.Failing? then Inbox.Failed(stage.why) else Inbox.Failed(Inbox.Errored));
  }

  lemma TurnsToEnding(s: Inbox.State, a: nat)
    requires a < |s.attempts| && |GivingUp(s.attempts[a].stage)| == 2
    ensures var events := GivingUp(s.attempts[a].stage);
      var t := Inbox.Do(s, Inbox.At(a, events[0]));
      && |t.attempts| == |s.attempts| && Ending(t.attempts[a].stage)
      && events[1] == (if t.attempts[a].stage.Failing? then Inbox.Rollback else Inbox.Settle(false))
      && t.holders == s.holders && t.receipts == s.receipts && t.effects == s.effects
  {
  }

  lemma RunOne(s: Inbox.State, x: Inbox.Step)
    ensures Inbox.Run(s, [x]) == Inbox.Do(s, x)
  {
    assert [x][..0] == [];
  }

  lemma RunTwo(s: Inbox.State, x: Inbox.Step, y: Inbox.Step)
    ensures Inbox.Run(s, [x, y]) == Inbox.Do(Inbox.Do(s, x), y)
  {
    RunOne(s, x);
    assert [x, y][..1] == [x];
  }

  /** Giving up frees the key and commits nothing. */
  lemma GivingUpFrees(s: Inbox.State, a: nat, key: Inbox.Key)
    requires a < |s.attempts| && key in s.holders && s.holders[key] == a && Inbox.Claimed(s.attempts[a].stage)
    ensures var t := Inbox.Run(s, StepsAt(a, GivingUp(s.attempts[a].stage)));
      key !in t.holders && t.receipts == s.receipts && t.effects == s.effects
  {
    var events := GivingUp(s.attempts[a].stage);
    if |events| == 2 {
      var x, y := Inbox.At(a, events[0]), Inbox.At(a, events[1]);
      assert StepsAt(a, events) == [x, y];
      RunTwo(s, x, y);
      TurnsToEnding(s, a);
      EndingFrees(Inbox.Do(s, x), a, key);
    } else {
      assert StepsAt(a, events) == [Inbox.At(a, events[0])];
      RunOne(s, Inbox.At(a, events[0]));
      EndingFrees(s, a, key);
    }
  }

  // ----- One delivery -----

  /** The key of row r is free: no attempt holds it. */
  ghost predicate Free(k: KeyHash, s: System, r: Ref) {
    ValidRef(s.relay.spool, r) && RowKey(k, s.relay.spool, r) !in s.inbox.holders
  }

  /** Row r is what an idle relay picks. */
  ghost predicate Next(s: System, now: Time, r: Ref) {
    NextDue(s.relay.spool, TextDue(now)) == Some(r)
  }

  /** A receipt under the key of a row holds the digest of its event. */
  lemma ReceiptOfRow(h: Hash, k: KeyHash, s: System, r: Ref)
    requires SysInv(h, k, s) && PlainNames(s.relay.spool) && Apart(s.relay.spool) && Injective(k)
    requires ValidRef(s.relay.spool, r) && RowKey(k, s.relay.spool, r) in s.inbox.receipts
    ensures s.inbox.receipts[RowKey(k, s.relay.spool, r)] == s.relay.spool.events[r.event].event.digest
  {
    var key := RowKey(k, s.relay.spool, r);
    var b :| 0 <= b < |s.inbox.attempts| && s.inbox.attempts[b].key == key
      && s.inbox.attempts[b].digest == s.inbox.receipts[key];
    var item := s.posted[s.origin[b]];
    assert Handles(h, k, s.inbox.attempts[b], item) && EndToEnd.Fits(h, s.relay.spool, item);
    KeysDistinct(h, k, s.relay.spool, item.ref, r);
  }

  function Answering(known: bool): seq<Inbox.Event> {
    [Inbox.Insert, if known then Inbox.Read else Inbox.Return(true), Inbox.Check, Inbox.Commit(true)]
  }

  /** The last request posted arrives, and its attempt meets no fault. */
  function Serving(s: System, known: bool, d: Inbox.Driver): seq<Action>
    requires |s.posted| > 0
  {
    [Reach(|s.posted| - 1, d)] + Receives(|s.inbox.attempts|, Answering(known))
  }

  lemma ServingGoes(h: Hash, k: KeyHash, s: System, d: Inbox.Driver, known: bool)
    requires |s.posted| > 0 && Inbox.Detects(d)
    ensures var i: nat := |s.posted| - 1;
      var t := DoReach(h, k, s, i, d);
      Go(h, k, s, Serving(s, known, d))
        == Some(t.(inbox := Inbox.Run(t.inbox, StepsAt(|s.inbox.attempts|, Answering(known)))))
  {
    var i: nat, a := |s.posted| - 1, |s.inbox.attempts|;
    var t := DoReach(h, k, s, i, d);
    GoOne(h, k, s, Reach(i, d));
    ReceiverGoes(h, k, t, a, Answering(known));
    GoThen(h, k, s, [Reach(i, d)], t, Receives(a, Answering(known)));
  }

  /** That is a faultless attempt. */
  lemma AnsweringIsFaultless(s: Inbox.State, key: Inbox.Key, digest: Digest, d: Inbox.Driver)
    ensures Inbox.Run(Inbox.Do(s, Inbox.Arrive(key, digest, d)), StepsAt(|s.attempts|, Answering(key in s.receipts)))
         == Inbox.Run(s, Inbox.Faultless(s, key, digest, d))
  {
    var steps, arrive := StepsAt(|s.attempts|, Answering(key in s.receipts)), Inbox.Arrive(key, digest, d);
    assert Inbox.Faultless(s, key, digest, d) == [arrive] + steps;
    InboxRunThen(s, arrive, steps);
  }

  lemma {:induction false} InboxRunThen(s: Inbox.State, first: Inbox.Step, steps: seq<Inbox.Step>)
    ensures Inbox.Run(s, [first] + steps) == Inbox.Run(Inbox.Do(s, first), steps)
  {
    if |steps| == 0 {
      assert [first] + steps == [first] && [first][..0] == [];
    } else {
      var front := steps[..|steps| - 1];
      InboxRunThen(s, first, front);
      assert ([first] + steps)[..|steps|] == [first] + front;
    }
  }

  /** The relay picks the row and posts it. */
  lemma SelectGoes(h: Hash, k: KeyHash, s: System, now: Time, r: Ref)
    requires SysInv(h, k, s) && Next(s, now, r) && s.relay.sending == None
    ensures r in s.relay.spool.deliveries && ValidRef(s.relay.spool, r)
    ensures var item, t := ItemAt(s.relay.spool, r), DoSelect(s, now);
      && t.relay.spool == s.relay.spool && t.relay.sending == Some(item) && t.posted == s.posted + [item]
      && t.inbox == s.inbox && t.origin == s.origin
      && KeyOf(k, item) == RowKey(k, s.relay.spool, r) && h(item.payload) == s.relay.spool.events[r.event].event.digest
      && item.ref == r && Awaits(s.relay.spool, item)
  {
    SelectedPayload(h, s.relay.spool, TextDue(now), r);
  }

  const ACCEPTED := AttemptResult(true, false, 0, 200, "")

  /** A success answer to what is being sent makes its row delivered, and touches no other. */
  lemma RecordGoes(h: Hash, relay: Relay.Delivering, p: RetryPolicy, later: Time, item: Delivery)
    requires Inv(h, relay.spool) && ClockOk(p, later) && relay.sending == Some(item) && Awaits(relay.spool, item)
    ensures var t := Relay.DoRecord(h, relay, p, ACCEPTED, later);
      t.sending == None && DeliveryNoted(relay.spool, item.ref, item.attempts + 1, 200, later, t.spool)
  {
    Relay.RecordIsOp(h, p, relay.spool, item, ACCEPTED, later);
    RecordVerdict(h, p, relay.spool, item, ACCEPTED, later);
  }

  /** What a system looks like once row r is delivered: its row says so, no other changed, and it has one effect. */
  ghost predicate DeliversRow(k: KeyHash, s: System, r: Ref, t: System) {
    && ValidRef(s.relay.spool, r) && OneRowSet(s.relay.spool, r, t.relay.spool) && t.relay.sending == None
    && r in t.relay.spool.deliveries && t.relay.spool.deliveries[r].state == Delivered
    && Inbox.Effects(t.inbox, RowKey(k, s.relay.spool, r)) == 1
  }

  /** The receiver answers for the request it was posted, and the row's effect is there once. */
  lemma Served(h: Hash, k: KeyHash, s: System, r: Ref, item: Delivery, d: Inbox.Driver)
    requires SysInv(h, k, s) && PlainNames(s.relay.spool) && Apart(s.relay.spool) && Injective(k) && Free(k, s, r)
    requires KeyOf(k, item) == RowKey(k, s.relay.spool, r)
    requires h(item.payload) == s.relay.spool.events[r.event].event.digest
    ensures var key, digest := KeyOf(k, item), h(item.payload);
      var t := Inbox.Run(s.inbox, Inbox.Faultless(s.inbox, key, digest, d));
      && |t.attempts| == |s.inbox.attempts| + 1 && Succeeded(Inbox.Last(t).stage) && Inbox.Effects(t, key) == 1
  {
    var key, digest := KeyOf(k, item), h(item.payload);
    Inbox.FaultlessAttempt(s.inbox, key, digest, d);
    if key in s.inbox.receipts {
      ReceiptOfRow(h, k, s, r);
    }
  }

  /** Pick, post, serve: the row is being sent and the receiver has answered that it succeeded. */
  lemma PostedAndServed(h: Hash, k: KeyHash, s: System, now: Time, r: Ref, d: Inbox.Driver)
    returns (actions: seq<Action>, t: System)
    requires SysInv(h, k, s) && PlainNames(s.relay.spool) && Apart(s.relay.spool) && Injective(k)
    requires Next(s, now, r) && s.relay.sending == None && Free(k, s, r) && Inbox.Detects(d)
    ensures Go(h, k, s, actions) == Some(t) && r in s.relay.spool.deliveries
    ensures var item := ItemAt(s.relay.spool, r);
      && t.relay.spool == s.relay.spool && t.relay.sending == Some(item) && Awaits(s.relay.spool, item) && item.ref == r
      && |t.origin| == |t.inbox.attempts| == |s.inbox.attempts| + 1
      && t.origin[|s.inbox.attempts|] + 1 == |t.posted| && Succeeded(Inbox.Last(t.inbox).stage)
      && Inbox.Effects(t.inbox, RowKey(k, s.relay.spool, r)) == 1
  {
    SelectGoes(h, k, s, now, r);
    var item, t1 := ItemAt(s.relay.spool, r), DoSelect(s, now);
    var known := KeyOf(k, item) in s.inbox.receipts;
    GoOne(h, k, s, Select(now));
    ServingGoes(h, k, t1, d, known);
    AnsweringIsFaultless(s.inbox, KeyOf(k, item), h(item.payload), d);
    Served(h, k, s, r, item, d);
    actions := [Select(now)] + Serving(t1, known, d);
    GoThen(h, k, s, [Select(now)], t1, Serving(t1, known, d));
    t := Go(h, k, s, actions).value;
  }

  /** From any state of a run in which the key is free. */
  lemma DeliversWhenFree(h: Hash, k: KeyHash, s: System, now: Time, r: Ref, d: Inbox.Driver, p: RetryPolicy,
                         later: Time)
    returns (actions: seq<Action>)
    requires SysInv(h, k, s) && PlainNames(s.relay.spool) && Apart(s.relay.spool) && Injective(k)
    requires Next(s, now, r) && s.relay.sending == None && Free(k, s, r) && Inbox.Detects(d) && ClockOk(p, later)
    ensures Go(h, k, s, actions).Some? && DeliversRow(k, s, r, Go(h, k, s, actions).value)
  {
    var before, t := PostedAndServed(h, k, s, now, r, d);
    var record := Record(p, ACCEPTED, later, |s.inbox.attempts|);
    assert Possible(t, record);
    RecordGoes(h, t.relay, p, later, ItemAt(s.relay.spool, r));
    GoPush(h, k, s, before, t, record);
    actions := before + [record];
  }

  /** A send that is under way is dropped, and whoever holds the key gives up. */
  lemma Freed(h: Hash, k: KeyHash, s: System, r: Ref) returns (actions: seq<Action>)
    requires SysInv(h, k, s) && ValidRef(s.relay.spool, r)
    ensures Go(h, k, s, actions).Some?
    ensures var t := Go(h, k, s, actions).value; t.relay == s.relay.(sending := None) && Free(k, t, r)
  {
    var key, idle := RowKey(k, s.relay.spool, r), Do(h, k, s, Drop);
    GoOne(h, k, s, Drop);
    actions := [Drop];
    if key in s.inbox.holders {
      var a := s.inbox.holders[key];
      var events := GivingUp(s.inbox.attempts[a].stage);
      assert Inbox.Holding(s.inbox.attempts[a]);
      GivingUpFrees(s.inbox, a, key);
      ReceiverGoes(h, k, idle, a, events);
      GoThen(h, k, s, [Drop], idle, Receives(a, events));
      actions := [Drop] + Receives(a, events);
    }
  }

  /**
   Nothing is ever stuck. After any run, whatever send it left under way and whatever attempts it left behind at the
   receiver, if something is due, the run can go on to a state in which that row is delivered, its effect is committed
   exactly once and no other row has changed.
   */
  lemma CanDeliver(h: Hash, k: KeyHash, states: seq<System>, actions: seq<Action>, now: Time, r: Ref,
                   d: Inbox.Driver, p: RetryPolicy, later: Time)
    returns (states': seq<System>, more: seq<Action>)
    requires IsRun(h, k, states, actions) && Injective(k) && Inbox.Detects(d) && ClockOk(p, later)
    requires PlainNames(states[|actions|].relay.spool) && Apart(states[|actions|].relay.spool)
    requires Next(states[|actions|], now, r)
    ensures IsRun(h, k, states', actions + more)
    ensures DeliversRow(k, states[|actions|], r, states'[|actions + more|])
  {
    var s := states[|actions|];
    RunKeeps(h, k, states, actions, |actions|);
    SelectedPayload(h, s.relay.spool, TextDue(now), r);
    var first := Freed(h, k, s, r);
    var freed := RunGoes(h, k, states, actions, first);
    var t := freed[|actions + first|];
    RunKeeps(h, k, freed, actions + first, |actions + first|);
    var second := DeliversWhenFree(h, k, t, now, r, d, p, later);
    GoThen(h, k, s, first, t, second);
    more := first + second;
    states' := RunGoes(h, k, states, actions, more);
  }
}
