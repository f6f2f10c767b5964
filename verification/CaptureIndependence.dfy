/**
 What capture sees of a spool: identities, digests and the checkpoint. Everything else that happens to the spool,
 pruning above all, is invisible to every later batch.
 */
module CaptureIndependence {
  import opened Basics
  import opened Timestamps
  import opened SpoolState
  import opened SpoolCapture
  import opened SpoolPrune
  import opened SpoolRuns

  /** The same identities with the same digests, in the same order, and the same checkpoint. */
  ghost predicate Alike(s: Spool, t: Spool) {
    && |s.events| == |t.events| && s.checkpoint == t.checkpoint
    && forall i | 0 <= i < |s.events| :: RowsAlike(s.events[i], t.events[i])
  }

  predicate RowsAlike(a: EventRow, b: EventRow) {
    a.Ident() == b.Ident() && a.event.digest == b.event.digest
  }

  // ----- One batch -----

  lemma LookupAlike(s: Spool, t: Spool, who: Identity)
    requires Alike(s, t) && DistinctEvents(s) && DistinctEvents(t)
    ensures Lookup(s.events, who) == Lookup(t.events, who)
  {
    assert forall i | 0 <= i < |s.events| :: s.events[i].Ident() == t.events[i].Ident();
  }

  ghost predicate ProgressAlike(x: Outcome<Progress>, y: Outcome<Progress>) {
    match (x, y)
    case (Ok(p), Ok(q)) => Alike(p.spool, q.spool) && p.inserted == q.inserted && p.replayed == q.replayed
    case (Err(a), Err(b)) => a == b
    case _ => false
  }

  lemma NewAlike(s: Spool, t: Spool, e: CapturedEvent, at: Time, at': Time, s': Spool, t': Spool)
    requires Alike(s, t) && Extends(s, e, at, s') && Extends(t, e, at', t')
    ensures Alike(s', t')
  {
    forall i | 0 <= i < |s'.events| ensures RowsAlike(s'.events[i], t'.events[i]) {
      if i < |s.events| {
        assert RowsAlike(s.events[i], t.events[i]);
      }
    }
  }

  lemma IngestOneAlike(h: Hash, p: Progress, q: Progress, b: CommittedBatch, e: CapturedEvent, index: nat, at: Time,
                       at': Time)
    requires Inv(h, p.spool) && Inv(h, q.spool) && ProgressAlike(Ok(p), Ok(q))
    ensures ProgressAlike(IngestOne(h, p, b, e, index, at), IngestOne(h, q, b, e, index, at'))
  {
    if ValidCaptured(h, b, e, index) {
      LookupAlike(p.spool, q.spool, e.Ident());
      var found := Lookup(p.spool.events, e.Ident());
      if found.None? {
        IngestNew(h, p, b, e, index, at);
        IngestNew(h, q, b, e, index, at');
        NewAlike(p.spool, q.spool, e, at, at',
                 IngestOne(h, p, b, e, index, at).value.spool, IngestOne(h, q, b, e, index, at').value.spool);
      } else {
        assert RowsAlike(p.spool.events[found.value], q.spool.events[found.value]);
        IngestKnown(h, p, b, e, index, at);
        IngestKnown(h, q, b, e, index, at');
      }
    }
  }

  lemma IngestNextAlike(h: Hash, s: Spool, t: Spool, b: CommittedBatch, clock: nat -> Time, clock': nat -> Time, n: nat)
    requires Inv(h, s) && Inv(h, t) && n < |b.events|
    requires ProgressAlike(Ingest(h, s, b, clock, n), Ingest(h, t, b, clock', n))
    ensures ProgressAlike(Ingest(h, s, b, clock, n + 1), Ingest(h, t, b, clock', n + 1))
  {
    IngestVerdict(h, s, b, clock, n);
    IngestVerdict(h, t, b, clock', n);
    var x, y := Ingest(h, s, b, clock, n), Ingest(h, t, b, clock', n);
    if x.Ok? {
      IngestOneAlike(h, x.value, y.value, b, b.events[n], n, clock(n), clock'(n));
    }
  }

  lemma {:induction false} IngestAlike(h: Hash, s: Spool, t: Spool, b: CommittedBatch, clock: nat -> Time,
                                       clock': nat -> Time, n: nat)
    requires Inv(h, s) && Inv(h, t) && Alike(s, t) && n <= |b.events|
    ensures ProgressAlike(Ingest(h, s, b, clock, n), Ingest(h, t, b, clock', n))
  {
    if n != 0 {
      var m: nat := n - 1;
      IngestAlike(h, s, t, b, clock, clock', m);
      IngestNextAlike(h, s, t, b, clock, clock', m);
      assert m + 1 == n;
    }
  }

  /** The same verdict and error, the same counts and checkpoint, and spools that stay alike. */
  ghost predicate SameVerdict(x: Outcome<Persisted>, y: Outcome<Persisted>) {
    match (x, y)
    case (Ok(p), Ok(q)) => p.result == q.result && Alike(p.spool, q.spool)
    case (Err(a), Err(b)) => a == b
    case _ => false
  }

  lemma PersistAlike(h: Hash, s: Spool, t: Spool, b: CommittedBatch, clock: nat -> Time, clock': nat -> Time)
    requires Inv(h, s) && Inv(h, t) && Alike(s, t)
    ensures SameVerdict(Persist(h, s, b, clock), Persist(h, t, b, clock'))
  {
    IngestAlike(h, s, t, b, clock, clock', |b.events|);
  }

  // ----- Whole runs -----

  /** The batches offered in a sequence of operations. */
  function Batches(ops: seq<Op>): seq<CommittedBatch> {
    if |ops| == 0 then []
    else
      var last := ops[|ops| - 1];
      Batches(ops[..|ops| - 1]) + if last.PersistOp? then [last.batch] else []
  }

  lemma OtherOpAlike(h: Hash, s: Spool, op: Op)
    requires Inv(h, s) && !op.PersistOp?
    ensures Alike(s, Apply(h, s, op)) && Inv(h, Apply(h, s, op))
  {
    OtherOpEvents(h, s, op);
    var t := Apply(h, s, op);
    forall i | 0 <= i < |s.events| ensures RowsAlike(s.events[i], t.events[i]) {
      assert RowEvolves(s.events[i], t.events[i]);
    }
  }

  lemma AlikeThen(s: Spool, t: Spool, u: Spool)
    requires Alike(s, t) && Alike(t, u)
    ensures Alike(s, u)
  {
    forall i | 0 <= i < |s.events| ensures RowsAlike(s.events[i], u.events[i]) {
      assert RowsAlike(s.events[i], t.events[i]) && RowsAlike(t.events[i], u.events[i]);
    }
  }

  lemma AlikeTurned(s: Spool, t: Spool)
    requires Alike(s, t)
    ensures Alike(t, s)
  {
    forall i | 0 <= i < |s.events| ensures RowsAlike(t.events[i], s.events[i]) {
      assert RowsAlike(s.events[i], t.events[i]);
    }
  }

  lemma PersistStepAlike(h: Hash, s: Spool, t: Spool, op: Op, op': Op)
    requires Inv(h, s) && Inv(h, t) && Alike(s, t) && op.PersistOp? && op'.PersistOp? && op.batch == op'.batch
    ensures Alike(Apply(h, s, op), Apply(h, t, op'))
  {
    PersistAlike(h, s, t, op.batch, op.clock, op'.clock);
  }

  ghost predicate RunAlike(h: Hash, s: Spool, ops: seq<Op>, t: Spool, ops': seq<Op>) {
    && Inv(h, RunOps(h, s, ops)) && Inv(h, RunOps(h, t, ops'))
    && Alike(RunOps(h, s, ops), RunOps(h, t, ops'))
  }

  lemma DropLeft(h: Hash, s: Spool, ops: seq<Op>, op: Op, t: Spool, ops': seq<Op>)
    requires RunAlike(h, s, ops, t, ops') && !op.PersistOp?
    ensures RunAlike(h, s, ops + [op], t, ops')
  {
    RunOpsPush(h, s, ops, op);
    OtherOpAlike(h, RunOps(h, s, ops), op);
    AlikeTurned(RunOps(h, s, ops), Apply(h, RunOps(h, s, ops), op));
    AlikeThen(Apply(h, RunOps(h, s, ops), op), RunOps(h, s, ops), RunOps(h, t, ops'));
  }

  lemma DropRight(h: Hash, s: Spool, ops: seq<Op>, t: Spool, ops': seq<Op>, op: Op)
    requires RunAlike(h, s, ops, t, ops') && !op.PersistOp?
    ensures RunAlike(h, s, ops, t, ops' + [op])
  {
    RunOpsPush(h, t, ops', op);
    OtherOpAlike(h, RunOps(h, t, ops'), op);
    AlikeThen(RunOps(h, s, ops), RunOps(h, t, ops'), Apply(h, RunOps(h, t, ops'), op));
  }

  lemma BothPersist(h: Hash, s: Spool, ops: seq<Op>, op: Op, t: Spool, ops': seq<Op>, op': Op)
    requires RunAlike(h, s, ops, t, ops') && op.PersistOp? && op'.PersistOp? && op.batch == op'.batch
    ensures RunAlike(h, s, ops + [op], t, ops' + [op'])
  {
    RunOpsPush(h, s, ops, op);
    RunOpsPush(h, t, ops', op');
    AttemptKeeps(h, RunOps(h, s, ops), op);
    AttemptKeeps(h, RunOps(h, t, ops'), op');
    PersistStepAlike(h, RunOps(h, s, ops), RunOps(h, t, ops'), op, op');
  }

  /**
   Two runs that offer the same batches in the same order keep capture's view the same, whatever else either does in
   between: deliveries, sink changes, redrives, prunes and crashes, in any order and number.
   */
  lemma {:induction false} RunsAlike(h: Hash, s: Spool, ops: seq<Op>, t: Spool, ops': seq<Op>)
    requires Inv(h, s) && Inv(h, t) && Alike(s, t) && Batches(ops) == Batches(ops')
    ensures RunAlike(h, s, ops, t, ops')
    decreases |ops| + |ops'|
  {
    if |ops| > 0 && !ops[|ops| - 1].PersistOp? {
      var front, last := ops[..|ops| - 1], ops[|ops| - 1];
      assert Batches(ops) == Batches(front) && ops == front + [last];
      RunsAlike(h, s, front, t, ops');
      DropLeft(h, s, front, last, t, ops');
    } else if |ops'| > 0 && !ops'[|ops'| - 1].PersistOp? {
      var front, last := ops'[..|ops'| - 1], ops'[|ops'| - 1];
      assert Batches(ops') == Batches(front) && ops' == front + [last];
      RunsAlike(h, s, ops, t, front);
      DropRight(h, s, ops, t, front, last);
    } else if |ops| > 0 && |ops'| > 0 {
      var front, last := ops[..|ops| - 1], ops[|ops| - 1];
      var front', last' := ops'[..|ops'| - 1], ops'[|ops'| - 1];
      LastBatches(ops, ops');
      RunsAlike(h, s, front, t, front');
      assert ops == front + [last] && ops' == front' + [last'];
      BothPersist(h, s, front, last, t, front', last');
    }
  }

  lemma LastBatches(ops: seq<Op>, ops': seq<Op>)
    requires |ops| > 0 && |ops'| > 0 && ops[|ops| - 1].PersistOp?
    requires ops'[|ops'| - 1].PersistOp? && Batches(ops) == Batches(ops')
    ensures ops[|ops| - 1].batch == ops'[|ops'| - 1].batch && Batches(ops[..|ops| - 1]) == Batches(ops'[..|ops'| - 1])
  {
    var a, b := Batches(ops[..|ops| - 1]), Batches(ops'[..|ops'| - 1]);
    var x, y := ops[|ops| - 1].batch, ops'[|ops'| - 1].batch;
    assert a + [x] == b + [y];
    assert |a| == |b| && (a + [x])[|a|] == x && (b + [y])[|b|] == y;
    assert a == (a + [x])[..|a|] && b == (b + [y])[..|b|];
  }

  /** And so the next batch gets the same verdict, counts and checkpoint after either run. */
  lemma CaptureIndependent(h: Hash, s: Spool, ops: seq<Op>, t: Spool, ops': seq<Op>,
                           b: CommittedBatch, clock: nat -> Time, clock': nat -> Time)
    requires Inv(h, s) && Inv(h, t) && Alike(s, t) && Batches(ops) == Batches(ops')
    ensures SameVerdict(Persist(h, RunOps(h, s, ops), b, clock), Persist(h, RunOps(h, t, ops'), b, clock'))
  {
    RunsAlike(h, s, ops, t, ops');
    PersistAlike(h, RunOps(h, s, ops), RunOps(h, t, ops'), b, clock, clock');
  }

  /** In particular a prune is invisible for ever: with it or without it, every later batch fares the same. */
  lemma PruneInvisibleForEver(h: Hash, s: Spool, o: PruneOptions, now: Time, ops: seq<Op>, b: CommittedBatch,
                              clock: nat -> Time)
    requires Inv(h, s)
    ensures SameVerdict(Persist(h, RunOps(h, s, ops), b, clock),
                        Persist(h, RunOps(h, Apply(h, s, PruneOp(o, now)), ops), b, clock))
  {
    OtherOpAlike(h, s, PruneOp(o, now));
    CaptureIndependent(h, s, ops, Apply(h, s, PruneOp(o, now)), ops, b, clock, clock);
  }
}
