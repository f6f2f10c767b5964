/** Registering, reactivating and removing sinks: ConfigureSinks. */
module SpoolSinks {
  import opened Basics
  import opened Timestamps
  import opened SpoolState

  datatype Registration = Registration(name: string, kind: string, fingerprint: Digest)

  function LookupSink(sinks: seq<SinkRow>, name: string): (r: Option<nat>)
    ensures r.Some? ==> r.value < |sinks| && sinks[r.value].name == name
    ensures r.None? <==> forall i | 0 <= i < |sinks| :: sinks[i].name != name
  {
    if sinks == [] then None
    else
      var last := |sinks| - 1;
      if sinks[last].name == name then Some(last) else LookupSink(sinks[..last], name)
  }

  /** Every retained event, for one sink. */
  function BackfillRefs(s: Spool, k: nat): set<Ref> {
    set e | 0 <= e < |s.events| && s.events[e].Retained() :: Ref(e, k)
  }

  function Names(regs: seq<Registration>, n: nat): set<string>
    requires n <= |regs|
  {
    set i | 0 <= i < n :: regs[i].name
  }

  /** Sink k switched on, creating it when k is the next id. */
  function Activated(s: Spool, k: nat, reg: Registration): Spool
    requires k <= |s.sinks|
  {
    if k == |s.sinks| then s.(sinks := s.sinks + [SinkRow(reg.name, reg.kind, reg.fingerprint, true)])
    else s.(sinks := s.sinks[k := s.sinks[k].(active := true)])
  }

  function RegisterOne(s: Spool, reg: Registration, seen: set<string>, now: Time): Outcome<Spool> {
    if reg.name == "" || reg.kind == "" || reg.name in seen then Err(Durability)
    else
      var found := LookupSink(s.sinks, reg.name);
      if found.Some?
        && (s.sinks[found.value].kind != reg.kind || s.sinks[found.value].fingerprint != reg.fingerprint) then
        Err(SinkConflict)
      else
        var k := if found.Some? then found.value else |s.sinks|;
        var t := Activated(s, k, reg);
        InsertMissing(t, BackfillRefs(t, k), now)
  }

  function Register(s: Spool, regs: seq<Registration>, now: Time, n: nat): Outcome<Spool>
    requires n <= |regs|
  {
    if n == 0 then Ok(s)
    else
      match Register(s, regs, now, n - 1)
      case Err(x) => Err(x)
      case Ok(t) => RegisterOne(t, regs[n - 1], Names(regs, n - 1), now)
  }

  /** The sink has unfinished deliveries. */
  predicate Busy(s: Spool, k: nat) {
    exists r | r in s.deliveries :: r.sink == k && s.deliveries[r].Open()
  }

  /** Sinks 0..n-1 whose names were not registered are switched off, if they have nothing left to do. */
  function Deactivate(s: Spool, keep: set<string>, n: nat): (r: Outcome<Spool>)
    requires n <= |s.sinks|
    ensures r.Ok? ==> |r.value.sinks| == |s.sinks|
  {
    if n == 0 then Ok(s)
    else
      match Deactivate(s, keep, n - 1)
      case Err(x) => Err(x)
      case Ok(t) =>
        var k := n - 1;
        if !t.sinks[k].active || t.sinks[k].name in keep then Ok(t)
        else if Busy(t, k) then Err(SinkBusy)
        else Ok(t.(sinks := t.sinks[k := t.sinks[k].(active := false)]))
  }

  function Configure(s: Spool, regs: seq<Registration>, now: Time): Outcome<Spool> {
    match Register(s, regs, now, |regs|)
    case Err(x) => Err(x)
    case Ok(t) => Deactivate(t, Names(regs, |regs|), |t.sinks|)
  }

  // ----- Registering -----

  /** A sink keeps its id, name, type and fingerprint for ever. */
  ghost predicate SinksKept(s: Spool, t: Spool) {
    && |s.sinks| <= |t.sinks|
    && forall k | 0 <= k < |s.sinks| :: t.sinks[k] == s.sinks[k].(active := t.sinks[k].active)
  }

  /** Old deliveries are untouched; new ones are pending and due now, for retained events and sinks just registered. */
  ghost predicate Backfilled(s: Spool, names: set<string>, now: Time, t: Spool) {
    && (forall r | r in s.deliveries :: r in t.deliveries && t.deliveries[r] == s.deliveries[r])
    && (forall r | r in t.deliveries && r !in s.deliveries ::
          && IsFresh(t.deliveries[r], now)
          && r.event < |s.events| && !s.Pruned(r.event)
          && r.sink < |t.sinks| && t.sinks[r.sink].name in names)
  }

  ghost predicate Registered(h: Hash, s: Spool, names: set<string>, now: Time, t: Spool) {
    && Inv(h, t)
    && t.events == s.events && t.checkpoint == s.checkpoint
    && SinksKept(s, t)
    && (forall k: nat | k < |t.sinks| :: t.sinks[k].active <==> s.Active(k) || t.sinks[k].name in names)
    && (forall k: nat | |s.sinks| <= k < |t.sinks| :: t.sinks[k].name in names)
    && (forall name | name in names :: exists k :: 0 <= k < |t.sinks| && t.sinks[k].name == name)
    && Backfilled(s, names, now, t)
  }

  lemma ActivatedKeeps(h: Hash, s: Spool, k: nat, reg: Registration)
    requires Inv(h, s) && k <= |s.sinks|
    requires k == |s.sinks| ==> LookupSink(s.sinks, reg.name).None?
    ensures var t := Activated(s, k, reg);
      && DistinctEvents(t) && PayloadsKept(h, t) && DistinctSinks(t) && ForeignKeys(t)
      && InactiveSettled(t) && PrunedDelivered(t) && PrunedHasDelivery(t) && SuccessStamped(t)
  {
    var t := Activated(s, k, reg);
    assert forall i: nat :: t.Pruned(i) <==> s.Pruned(i);
    assert forall i: nat | s.Active(i) :: t.Active(i);
  }

  lemma BackfillCovers(h: Hash, s: Spool, k: nat, reg: Registration, now: Time, u: Spool)
    requires Inv(h, s) && k <= |s.sinks|
    requires var t := Activated(s, k, reg); InsertMissing(t, BackfillRefs(t, k), now) == Ok(u)
    ensures Covered(u)
  {
    var t := Activated(s, k, reg);
    forall e: nat, i: nat | e < |u.events| && u.Active(i) && !u.Pruned(e) ensures Ref(e, i) in u.deliveries {
      if i == k {
        assert Ref(e, k) in BackfillRefs(t, k);
      } else {
        assert s.Active(i) && !s.Pruned(e);
      }
    }
  }

  /** Registering one sink, when nothing objects. */
  lemma RegisterOneKeeps(h: Hash, s: Spool, reg: Registration, seen: set<string>, now: Time)
    requires Inv(h, s) && reg.name != "" && reg.kind != "" && reg.name !in seen
    requires forall k | 0 <= k < |s.sinks| && s.sinks[k].name == reg.name ::
      s.sinks[k].kind == reg.kind && s.sinks[k].fingerprint == reg.fingerprint
    ensures var r := RegisterOne(s, reg, seen, now);
      r.Ok? && Registered(h, s, {reg.name}, now, r.value)
  {
    var found := LookupSink(s.sinks, reg.name);
    var k := if found.Some? then found.value else |s.sinks|;
    var t := Activated(s, k, reg);
    var refs := BackfillRefs(t, k);
    ActivatedKeeps(h, s, k, reg);
    BackfillAllowed(t, k);
    var u := InsertMissing(t, refs, now).value;
    InsertKeeps(h, t, refs, now, u);
    BackfillCovers(h, s, k, reg, now, u);
    assert u.sinks[k].name == reg.name;
    RegisterOneShape(s, k, reg, refs, now, u);
  }

  lemma BackfillAllowed(t: Spool, k: nat)
    requires t.Active(k)
    ensures forall x | x in BackfillRefs(t, k) :: !InsertAborts(t, x) && t.Active(x.sink) && x.event < |t.events|
  {
  }

  lemma RegisterOneShape(s: Spool, k: nat, reg: Registration, refs: set<Ref>, now: Time, u: Spool)
    requires DistinctSinks(s) && k <= |s.sinks|
    requires k < |s.sinks| ==> s.sinks[k].name == reg.name
    requires var t := Activated(s, k, reg); refs == BackfillRefs(t, k) && InsertMissing(t, refs, now) == Ok(u)
    ensures SinksKept(s, u) && Backfilled(s, {reg.name}, now, u)
  {
  }

  lemma RegisteredThen(h: Hash, s: Spool, names: set<string>, now: Time, t: Spool, name: string, u: Spool)
    requires Registered(h, s, names, now, t) && Registered(h, t, {name}, now, u)
    ensures Registered(h, s, names + {name}, now, u)
  {
    forall x | x in names + {name} ensures exists k :: 0 <= k < |u.sinks| && u.sinks[k].name == x {
      if x in names {
        var k :| 0 <= k < |t.sinks| && t.sinks[k].name == x;
        assert u.sinks[k].name == x;
      } else {
        assert x in {name};
      }
    }
    RegisteredActive(h, s, names, now, t, name, u);
    BackfilledThen(s, names, now, t, name, u);
  }

  lemma RegisteredActive(h: Hash, s: Spool, names: set<string>, now: Time, t: Spool, name: string, u: Spool)
    requires Registered(h, s, names, now, t) && Registered(h, t, {name}, now, u)
    ensures forall k: nat | k < |u.sinks| :: u.sinks[k].active <==> s.Active(k) || u.sinks[k].name in names + {name}
    ensures forall k: nat | |s.sinks| <= k < |u.sinks| :: u.sinks[k].name in names + {name}
  {
    forall k: nat | k < |u.sinks|
      ensures u.sinks[k].active <==> s.Active(k) || u.sinks[k].name in names + {name}
    {
      if k < |t.sinks| {
        assert t.Active(k) <==> t.sinks[k].active;
      }
    }
  }

  lemma BackfilledThen(s: Spool, names: set<string>, now: Time, t: Spool, name: string, u: Spool)
    requires t.events == s.events && SinksKept(t, u) && Backfilled(s, names, now, t) && Backfilled(t, {name}, now, u)
    ensures Backfilled(s, names + {name}, now, u)
  {
    assert forall e: nat :: t.Pruned(e) <==> s.Pruned(e);
  }

  /** Registration i is well formed, new in the list, and agrees with the sink of that name if there is one. */
  ghost predicate RegistrationOk(s: Spool, regs: seq<Registration>, i: nat)
    requires i < |regs|
  {
    && regs[i].name != "" && regs[i].kind != ""
    && (forall j: nat | j < i :: regs[j].name != regs[i].name)
    && (forall k: nat | k < |s.sinks| && s.sinks[k].name == regs[i].name ::
          s.sinks[k].kind == regs[i].kind && s.sinks[k].fingerprint == regs[i].fingerprint)
  }

  ghost predicate RegistrationsOk(s: Spool, regs: seq<Registration>, n: nat)
    requires n <= |regs|
  {
    forall i: nat | i < n :: RegistrationOk(s, regs, i)
  }

  /** The error says what is wrong with registration i: it is malformed or repeated, or its sink is another one. */
  ghost predicate Blamed(s: Spool, regs: seq<Registration>, i: nat, x: Error)
    requires i < |regs|
  {
    || (x == Durability && (regs[i].name == "" || regs[i].kind == ""
                            || exists j: nat :: j < i && regs[j].name == regs[i].name))
    || (x == SinkConflict && exists k: nat :: k < |s.sinks| && s.sinks[k].name == regs[i].name
                               && (s.sinks[k].kind != regs[i].kind || s.sinks[k].fingerprint != regs[i].fingerprint))
  }

  /** Earlier registrations do not change the verdict on the next one. */
  lemma VerdictStable(h: Hash, s: Spool, regs: seq<Registration>, now: Time, n: nat, t: Spool)
    requires n < |regs| && Registered(h, s, Names(regs, n), now, t)
    requires regs[n].name !in Names(regs, n)
    ensures (forall k: nat | k < |s.sinks| && s.sinks[k].name == regs[n].name ::
               s.sinks[k].kind == regs[n].kind && s.sinks[k].fingerprint == regs[n].fingerprint)
       <==> (forall k: nat | k < |t.sinks| && t.sinks[k].name == regs[n].name ::
               t.sinks[k].kind == regs[n].kind && t.sinks[k].fingerprint == regs[n].fingerprint)
  {
    assert forall k: nat | k < |s.sinks| :: t.sinks[k].name == s.sinks[k].name;
  }

  lemma RegisterStep(h: Hash, s: Spool, regs: seq<Registration>, now: Time, n: nat, t: Spool)
    requires n < |regs| && Registered(h, s, Names(regs, n), now, t)
    ensures var r := RegisterOne(t, regs[n], Names(regs, n), now);
      && (r.Ok? <==> RegistrationOk(s, regs, n))
      && (r.Ok? ==> Registered(h, s, Names(regs, n + 1), now, r.value))
      && (r.Err? ==> Blamed(s, regs, n, r.error))
  {
    assert Names(regs, n + 1) == Names(regs, n) + {regs[n].name};
    if regs[n].name !in Names(regs, n) {
      VerdictStable(h, s, regs, now, n, t);
      if RegistrationOk(s, regs, n) {
        RegisterOneKeeps(h, t, regs[n], Names(regs, n), now);
        RegisteredThen(h, s, Names(regs, n), now, t, regs[n].name, RegisterOne(t, regs[n], Names(regs, n), now).value);
      } else if regs[n].name != "" && regs[n].kind != "" {
        RejectedSink(h, s, regs, n, t, now);
      }
    }
  }

  lemma RejectedSink(h: Hash, s: Spool, regs: seq<Registration>, n: nat, t: Spool, now: Time)
    requires n < |regs| && Registered(h, s, Names(regs, n), now, t)
    requires regs[n].name !in Names(regs, n) && regs[n].name != "" && regs[n].kind != ""
    requires !RegistrationOk(s, regs, n)
    ensures RegisterOne(t, regs[n], Names(regs, n), now) == Err(SinkConflict) && Blamed(s, regs, n, SinkConflict)
  {
    assert forall j: nat | j < n :: regs[j].name in Names(regs, n);
    var k: nat :| k < |s.sinks| && s.sinks[k].name == regs[n].name &&
                  (s.sinks[k].kind != regs[n].kind || s.sinks[k].fingerprint != regs[n].fingerprint);
    assert t.sinks[k].name == regs[n].name;
    var found := LookupSink(t.sinks, regs[n].name);
    assert found.Some? && found.value == k;
  }

  lemma RegisteredNone(h: Hash, s: Spool, now: Time)
    requires Inv(h, s)
    ensures Registered(h, s, {}, now, s)
  {
  }

  /** What registering the first n sinks must have come to. */
  ghost predicate Judged(h: Hash, s: Spool, regs: seq<Registration>, now: Time, n: nat, r: Outcome<Spool>)
    requires n <= |regs|
  {
    && (r.Ok? <==> RegistrationsOk(s, regs, n))
    && (r.Ok? ==> Registered(h, s, Names(regs, n), now, r.value))
    && (r.Err? ==> exists i: nat :: i < n && Blamed(s, regs, i, r.error))
  }

  lemma JudgedStep(h: Hash, s: Spool, regs: seq<Registration>, now: Time, n: nat, t: Spool)
    requires n < |regs| && Judged(h, s, regs, now, n, Ok(t))
    ensures Judged(h, s, regs, now, n + 1, RegisterOne(t, regs[n], Names(regs, n), now))
  {
    RegisterStep(h, s, regs, now, n, t);
  }

  lemma JudgedStays(h: Hash, s: Spool, regs: seq<Registration>, now: Time, n: nat, x: Error)
    requires n < |regs| && Judged(h, s, regs, now, n, Err(x))
    ensures Judged(h, s, regs, now, n + 1, Err(x))
  {
  }

  lemma {:induction false} RegisterVerdict(h: Hash, s: Spool, regs: seq<Registration>, now: Time, n: nat)
    requires Inv(h, s) && n <= |regs|
    ensures Judged(h, s, regs, now, n, Register(s, regs, now, n))
  {
    if n == 0 {
      assert Names(regs, 0) == {};
      RegisteredNone(h, s, now);
    } else {
      var m: nat := n - 1;
      RegisterVerdict(h, s, regs, now, m);
      JudgedNext(h, s, regs, now, m);
      assert m + 1 == n;
    }
  }

  lemma JudgedNext(h: Hash, s: Spool, regs: seq<Registration>, now: Time, n: nat)
    requires n < |regs| && Judged(h, s, regs, now, n, Register(s, regs, now, n))
    ensures Judged(h, s, regs, now, n + 1, Register(s, regs, now, n + 1))
  {
    match Register(s, regs, now, n)
    case Ok(t) => JudgedStep(h, s, regs, now, n, t);
    case Err(x) => JudgedStays(h, s, regs, now, n, x);
  }

  // ----- What is stored -----

  /** Sink k is switched on and holds what the registration says. */
  ghost predicate Stores(s: Spool, k: nat, reg: Registration) {
    && k < |s.sinks| && s.sinks[k].active && s.sinks[k].name == reg.name
    && s.sinks[k].kind == reg.kind && s.sinks[k].fingerprint == reg.fingerprint
  }

  ghost predicate Stored(s: Spool, reg: Registration) {
    exists k: nat :: Stores(s, k, reg)
  }

  ghost predicate AllStored(s: Spool, regs: seq<Registration>, n: nat)
    requires n <= |regs|
  {
    forall i: nat | i < n :: Stored(s, regs[i])
  }

  lemma RegisterOneStores(s: Spool, reg: Registration, seen: set<string>, now: Time, t: Spool)
    requires RegisterOne(s, reg, seen, now) == Ok(t)
    ensures Stored(t, reg)
    ensures forall other | Stored(s, other) :: Stored(t, other)
  {
    var found := LookupSink(s.sinks, reg.name);
    assert Stores(t, if found.Some? then found.value else |s.sinks|, reg);
    forall other | Stored(s, other) ensures Stored(t, other) {
      var k: nat :| Stores(s, k, other);
      assert Stores(t, k, other);
    }
  }

  ghost predicate StoresAll(regs: seq<Registration>, n: nat, r: Outcome<Spool>)
    requires n <= |regs|
  {
    r.Ok? ==> AllStored(r.value, regs, n)
  }

  lemma {:induction false} RegisterStores(s: Spool, regs: seq<Registration>, now: Time, n: nat)
    requires n <= |regs|
    ensures StoresAll(regs, n, Register(s, regs, now, n))
  {
    if n != 0 {
      var m: nat := n - 1;
      RegisterStores(s, regs, now, m);
      StoresNext(s, regs, now, m);
      assert m + 1 == n;
    }
  }

  lemma StoresNext(s: Spool, regs: seq<Registration>, now: Time, n: nat)
    requires n < |regs| && StoresAll(regs, n, Register(s, regs, now, n))
    ensures StoresAll(regs, n + 1, Register(s, regs, now, n + 1))
  {
    match Register(s, regs, now, n)
    case Err(_) =>
    case Ok(t) =>
      var r := RegisterOne(t, regs[n], Names(regs, n), now);
      if r.Ok? {
        RegisterOneStores(t, regs[n], Names(regs, n), now, r.value);
        OneMoreStored(t, regs, n, r.value);
      }
  }

  lemma OneMoreStored(s: Spool, regs: seq<Registration>, n: nat, t: Spool)
    requires n < |regs| && AllStored(s, regs, n) && Stored(t, regs[n])
    requires forall other | Stored(s, other) :: Stored(t, other)
    ensures AllStored(t, regs, n + 1)
  {
  }

  // ----- Removing -----

  /** Only the active flags of sinks below n change, and only of sinks to be dropped. */
  ghost predicate Dropped(s: Spool, keep: set<string>, n: nat, t: Spool) {
    && t.events == s.events && t.deliveries == s.deliveries && t.checkpoint == s.checkpoint
    && |t.sinks| == |s.sinks|
    && forall k: nat | k < |s.sinks| ::
         t.sinks[k] == s.sinks[k].(active := s.sinks[k].active && (n <= k || s.sinks[k].name in keep))
  }

  lemma SwitchOff(h: Hash, t: Spool, k: nat)
    requires Inv(h, t) && k < |t.sinks| && !Busy(t, k)
    ensures Inv(h, t.(sinks := t.sinks[k := t.sinks[k].(active := false)]))
  {
    var u := t.(sinks := t.sinks[k := t.sinks[k].(active := false)]);
    assert forall e: nat :: u.Pruned(e) <==> t.Pruned(e);
    assert forall i: nat :: u.Active(i) <==> t.Active(i) && i != k;
  }

  /** What removing among the first n sinks must have come to. */
  ghost predicate Removed(h: Hash, s: Spool, keep: set<string>, n: nat, r: Outcome<Spool>)
    requires n <= |s.sinks|
  {
    && (r.Ok? <==> forall k: nat | k < n && s.sinks[k].active && s.sinks[k].name !in keep :: !Busy(s, k))
    && (r.Ok? ==> Inv(h, r.value) && Dropped(s, keep, n, r.value))
    && (r.Err? ==> r.error == SinkBusy)
  }

  lemma DroppedBusy(s: Spool, keep: set<string>, n: nat, t: Spool)
    requires Dropped(s, keep, n, t) && n < |s.sinks|
    ensures t.sinks[n] == s.sinks[n] && (Busy(t, n) <==> Busy(s, n))
  {
  }

  /** One more sink to be dropped, which has nothing left to do. */
  lemma DropOne(h: Hash, s: Spool, keep: set<string>, n: nat, t: Spool)
    requires Inv(h, t) && Dropped(s, keep, n, t) && n < |s.sinks| && !Busy(t, n) && s.sinks[n].name !in keep
    ensures var u := t.(sinks := t.sinks[n := t.sinks[n].(active := false)]); Inv(h, u) && Dropped(s, keep, n + 1, u)
  {
    SwitchOff(h, t, n);
  }

  /** One more sink that is inactive or stays. */
  lemma DropNone(s: Spool, keep: set<string>, n: nat, t: Spool)
    requires Dropped(s, keep, n, t) && n < |s.sinks| && (!s.sinks[n].active || s.sinks[n].name in keep)
    ensures Dropped(s, keep, n + 1, t)
  {
  }

  lemma RemovedNext(h: Hash, s: Spool, keep: set<string>, n: nat)
    requires n < |s.sinks| && Removed(h, s, keep, n, Deactivate(s, keep, n))
    ensures Removed(h, s, keep, n + 1, Deactivate(s, keep, n + 1))
  {
    match Deactivate(s, keep, n)
    case Err(_) =>
    case Ok(t) =>
      DroppedBusy(s, keep, n, t);
      if !s.sinks[n].active || s.sinks[n].name in keep {
        DropNone(s, keep, n, t);
      } else if !Busy(t, n) {
        DropOne(h, s, keep, n, t);
      }
  }

  /** Removal succeeds exactly when no sink to be dropped has unfinished deliveries, and drops exactly those. */
  lemma {:induction false} DeactivateVerdict(h: Hash, s: Spool, keep: set<string>, n: nat)
    requires Inv(h, s) && n <= |s.sinks|
    ensures Removed(h, s, keep, n, Deactivate(s, keep, n))
  {
    if n != 0 {
      var m: nat := n - 1;
      DeactivateVerdict(h, s, keep, m);
      RemovedNext(h, s, keep, m);
      assert m + 1 == n;
    }
  }

  // ----- The whole operation -----

  /** The sink is switched on and one of the registrations, unchanged. */
  ghost predicate Holds(row: SinkRow, regs: seq<Registration>) {
    exists i: nat :: i < |regs| && row == SinkRow(regs[i].name, regs[i].kind, regs[i].fingerprint, true)
  }

  ghost predicate Configured(h: Hash, s: Spool, regs: seq<Registration>, now: Time, t: Spool) {
    var names := Names(regs, |regs|);
    && Inv(h, t)
    && t.events == s.events && t.checkpoint == s.checkpoint
    && SinksKept(s, t) && Backfilled(s, names, now, t)
    && (forall k: nat | k < |t.sinks| :: t.sinks[k].active <==> t.sinks[k].name in names)
    && (forall name | name in names :: exists k :: 0 <= k < |t.sinks| && t.sinks[k].name == name)
    && AllStored(t, regs, |regs|)
    && (forall k: nat | |s.sinks| <= k < |t.sinks| :: Holds(t.sinks[k], regs))
  }

  /**
   ConfigureSinks succeeds exactly when every registration is well formed, distinct and keeps the type and
   fingerprint of its name, and no sink about to be removed has unfinished deliveries. It then leaves exactly
   the registered names active, each with the type and fingerprint it was registered with, and every one of them
   covered. An error names its reason.
   */
  lemma ConfigureVerdict(h: Hash, s: Spool, regs: seq<Registration>, now: Time)
    requires Inv(h, s)
    ensures var r := Configure(s, regs, now);
      && (r.Ok? <==> RegistrationsOk(s, regs, |regs|) &&
                     forall k: nat | s.Active(k) && s.sinks[k].name !in Names(regs, |regs|) :: !Busy(s, k))
      && (r.Ok? ==> Configured(h, s, regs, now, r.value))
      && (r.Err? ==> if r.error == SinkBusy
          then exists k: nat :: s.Active(k) && s.sinks[k].name !in Names(regs, |regs|) && Busy(s, k)
          else exists i: nat :: i < |regs| && Blamed(s, regs, i, r.error))
  {
    RegisterVerdict(h, s, regs, now, |regs|);
    var names := Names(regs, |regs|);
    var r := Register(s, regs, now, |regs|);
    if r.Ok? {
      var t := r.value;
      DeactivateVerdict(h, t, names, |t.sinks|);
      RemovableSame(h, s, names, now, t);
      if Deactivate(t, names, |t.sinks|).Ok? {
        RegisterStores(s, regs, now, |regs|);
        ConfiguredFrom(h, s, regs, now, t, Deactivate(t, names, |t.sinks|).value);
      }
    }
  }

  /** Backfilling never gives work to a sink that is being removed. */
  lemma RemovableSame(h: Hash, s: Spool, names: set<string>, now: Time, t: Spool)
    requires Registered(h, s, names, now, t)
    ensures (forall k: nat | k < |t.sinks| && t.sinks[k].active && t.sinks[k].name !in names :: !Busy(t, k))
       <==> (forall k: nat | s.Active(k) && s.sinks[k].name !in names :: !Busy(s, k))
  {
    forall k: nat | k < |t.sinks| && t.sinks[k].name !in names
      ensures (t.sinks[k].active <==> s.Active(k)) && (Busy(t, k) <==> Busy(s, k))
      ensures k < |s.sinks| && s.sinks[k].name == t.sinks[k].name
    {
      if Busy(t, k) {
        var r :| r in t.deliveries && r.sink == k && t.deliveries[r].Open();
        assert r in s.deliveries;
      }
      if Busy(s, k) {
        var r :| r in s.deliveries && r.sink == k && s.deliveries[r].Open();
        assert r in t.deliveries;
      }
    }
    assert forall k: nat | k < |s.sinks| :: t.sinks[k].name == s.sinks[k].name;
  }

  lemma ConfiguredFrom(h: Hash, s: Spool, regs: seq<Registration>, now: Time, t: Spool, u: Spool)
    requires var names := Names(regs, |regs|);
      Registered(h, s, names, now, t) && Inv(h, u) && Dropped(t, names, |t.sinks|, u)
    requires AllStored(t, regs, |regs|)
    ensures Configured(h, s, regs, now, u)
  {
    var names := Names(regs, |regs|);
    forall name | name in names ensures exists k :: 0 <= k < |u.sinks| && u.sinks[k].name == name {
      var k :| 0 <= k < |t.sinks| && t.sinks[k].name == name;
      assert u.sinks[k].name == name;
    }
    assert forall k: nat | k < |u.sinks| :: u.sinks[k].name == t.sinks[k].name;
    StoredStay(regs, t, u);
    forall k: nat | |s.sinks| <= k < |u.sinks| ensures Holds(u.sinks[k], regs) {
      NewSinkStored(regs, u, k);
    }
  }

  lemma StoredStay(regs: seq<Registration>, t: Spool, u: Spool)
    requires Dropped(t, Names(regs, |regs|), |t.sinks|, u) && AllStored(t, regs, |regs|)
    ensures AllStored(u, regs, |regs|)
  {
    forall i: nat | i < |regs| ensures Stored(u, regs[i]) {
      assert Stored(t, regs[i]);
      var k: nat :| Stores(t, k, regs[i]);
      assert regs[i].name in Names(regs, |regs|);
      assert Stores(u, k, regs[i]);
    }
  }

  lemma NewSinkStored(regs: seq<Registration>, u: Spool, k: nat)
    requires DistinctSinks(u) && AllStored(u, regs, |regs|) && k < |u.sinks| && u.sinks[k].name in Names(regs, |regs|)
    ensures Holds(u.sinks[k], regs)
  {
    var i: nat :| i < |regs| && regs[i].name == u.sinks[k].name;
    assert Stored(u, regs[i]);
    var j: nat :| Stores(u, j, regs[i]);
    assert j == k;
  }

  /** Configuring the same sinks again, as every start does, succeeds and changes nothing. */
  lemma ConfigureAgain(h: Hash, s: Spool, regs: seq<Registration>, now: Time, later: Time, t: Spool)
    requires Inv(h, s) && Configure(s, regs, now) == Ok(t)
    ensures Configure(t, regs, later) == Ok(t)
  {
    ConfigureVerdict(h, s, regs, now);
    RegistrationsStillOk(h, s, regs, now, t);
    ConfigureVerdict(h, t, regs, later);
    ConfiguredSame(h, s, regs, now, t, later, Configure(t, regs, later).value);
  }

  lemma RegistrationsStillOk(h: Hash, s: Spool, regs: seq<Registration>, now: Time, t: Spool)
    requires RegistrationsOk(s, regs, |regs|) && Configured(h, s, regs, now, t)
    ensures RegistrationsOk(t, regs, |regs|)
  {
    forall i: nat | i < |regs| ensures RegistrationOk(t, regs, i) {
      assert RegistrationOk(s, regs, i) && Stored(t, regs[i]);
      var k: nat :| Stores(t, k, regs[i]);
    }
  }

  lemma ConfiguredSame(h: Hash, s: Spool, regs: seq<Registration>, now: Time, t: Spool, later: Time, u: Spool)
    requires Configured(h, s, regs, now, t) && Configured(h, t, regs, later, u)
    ensures u == t
  {
    SameSinks(h, s, regs, now, t, later, u);
    NothingMissing(t, Names(regs, |regs|), later, u);
  }

  lemma SameSinks(h: Hash, s: Spool, regs: seq<Registration>, now: Time, t: Spool, later: Time, u: Spool)
    requires Configured(h, s, regs, now, t) && Configured(h, t, regs, later, u)
    ensures u.sinks == t.sinks
  {
    NoMoreSinks(regs, t, u);
    forall k: nat | k < |t.sinks| ensures u.sinks[k] == t.sinks[k] {
      assert u.sinks[k] == t.sinks[k].(active := u.sinks[k].active);
    }
  }

  /** A sink that would be added has the name of one that is stored already. */
  lemma NoMoreSinks(regs: seq<Registration>, t: Spool, u: Spool)
    requires SinksKept(t, u) && DistinctSinks(u) && AllStored(t, regs, |regs|)
    requires forall k: nat | |t.sinks| <= k < |u.sinks| :: Holds(u.sinks[k], regs)
    ensures |u.sinks| == |t.sinks|
  {
    if |t.sinks| < |u.sinks| {
      NameTaken(regs, t, u.sinks[|t.sinks|]);
    }
  }

  lemma NameTaken(regs: seq<Registration>, t: Spool, row: SinkRow)
    requires AllStored(t, regs, |regs|) && Holds(row, regs)
    ensures exists k: nat :: k < |t.sinks| && t.sinks[k].name == row.name
  {
    var i: nat :| i < |regs| && row == SinkRow(regs[i].name, regs[i].kind, regs[i].fingerprint, true);
    assert Stored(t, regs[i]);
    var k: nat :| Stores(t, k, regs[i]);
    assert t.sinks[k].name == row.name;
  }

  /** There is nothing left to backfill. */
  lemma NothingMissing(t: Spool, names: set<string>, later: Time, u: Spool)
    requires Covered(t) && u.sinks == t.sinks && Backfilled(t, names, later, u)
    requires forall k: nat | k < |t.sinks| :: t.sinks[k].active <==> t.sinks[k].name in names
    ensures u.deliveries == t.deliveries
  {
    forall r | r in u.deliveries ensures r in t.deliveries {
      assert Ref(r.event, r.sink) == r;
      assert r !in t.deliveries ==> t.Active(r.sink) && !t.Pruned(r.event);
    }
  }
}
