/** The schema triggers are exact: each refuses a change if and only if the change would break the spool's invariant. */
module SpoolTriggers {
  import opened Basics
  import opened Timestamps
  import opened SpoolState
  import opened SpoolDelivery
  import opened SpoolPrune
  import opened SpoolRuns

  /** Emptying a retained payload. */
  lemma PruneTriggerExact(h: Hash, s: Spool, e: nat, now: Time)
    requires Inv(h, s) && e < |s.events| && !s.Pruned(e)
    ensures PruneAborts(s, e) <==> !Inv(h, Blanked(s, {e}, now))
  {
    var t := Blanked(s, {e}, now);
    assert t.Pruned(e);
    if PruneAborts(s, e) {
      if r :| r in s.deliveries && r.event == e {
        assert exists x | x in s.deliveries :: x.event == e && s.deliveries[x].state != Delivered;
      } else {
        assert forall k: nat :: Ref(e, k) !in t.deliveries;
      }
    } else {
      BlankedKeeps(h, s, {e}, now);
    }
  }

  /** The invariant while deliveries may still be missing, as inside a transaction that creates them. */
  ghost predicate Unfilled(h: Hash, s: Spool) {
    && DistinctEvents(s) && PayloadsKept(h, s) && DistinctSinks(s) && ForeignKeys(s)
    && InactiveSettled(s) && PrunedDelivered(s) && PrunedHasDelivery(s) && SuccessStamped(s)
  }

  /** Giving an active sink a new delivery. */
  lemma InsertTriggerExact(h: Hash, s: Spool, r: Ref, at: Time)
    requires Unfilled(h, s) && r !in s.deliveries && r.event < |s.events| && s.Active(r.sink)
    ensures InsertAborts(s, r) <==> !Unfilled(h, SetRow(s, r, FreshDelivery(at)))
  {
    var t := SetRow(s, r, FreshDelivery(at));
    assert forall e: nat :: t.Pruned(e) <==> s.Pruned(e);
    assert forall k: nat :: t.Active(k) <==> s.Active(k);
    if InsertAborts(s, r) {
      assert t.Pruned(r.event) && t.deliveries[r].state != Delivered;
    } else {
      forall e: nat | t.Pruned(e) ensures exists k: nat :: Ref(e, k) in t.deliveries {
        var k: nat :| Ref(e, k) in s.deliveries;
        assert Ref(e, k) in t.deliveries;
      }
    }
  }

  /** Moving a delivery of an active sink to another state. */
  lemma UpdateTriggerExact(h: Hash, s: Spool, r: Ref, row: DeliveryRow)
    requires Inv(h, s) && r in s.deliveries && s.Active(r.sink)
    requires row.state == Delivered <==> row.deliveredAt.Some?
    ensures UpdateAborts(s, r, row.state) <==> !Inv(h, SetRow(s, r, row))
  {
    if UpdateAborts(s, r, row.state) {
      assert SetRow(s, r, row).Pruned(r.event);
    } else {
      SetRowKeeps(h, s, r, row);
    }
  }

  /** Writing an event row again: what has been pruned once stays as it was pruned. */
  lemma RewriteTriggerExact(s: Spool, e: nat)
    requires e < |s.events|
    ensures RewriteAborts(s, e) <==> exists now :: !RowEvolves(s.events[e], BlankRow(s.events[e], now))
  {
    if RewriteAborts(s, e) {
      var now: Time := if s.events[e].prunedAt == Some(0) then 1 else 0;
      assert !RowEvolves(s.events[e], BlankRow(s.events[e], now));
    }
  }
}
