/**
 The capture protocol as a step system: a PostgreSQL server with its log and slot, the daemon's replication
 session, and the spool. Sessions end and acknowledgments are lost or delayed at any point.

 The server follows the Logical Streaming Replication Protocol, version 1: a session streams, in commit order,
 everything past the later of the requested start and the slot's confirmed position.
 */
module Capture {
  import opened Basics
  import opened Timestamps
  import opened SpoolState
  import opened SpoolCapture
  import opened SpoolRuns
  import opened StateMachines

  // ----- The server's log -----

  /** A committed transaction, or a non-transactional message between transactions. */
  datatype Item =
    | Transaction(xid: nat, body: seq<Message>, commitLsn: Lsn, endLsn: Lsn, time: Time)
    | Loose(msg: Message, at: Lsn)
  {
    function Position(): Lsn {
      if Transaction? then endLsn else at
    }
    function Wire(): (w: seq<Message>)
      ensures |w| >= 1
    {
      if Transaction? then [Begin(xid)] + body + [Commit(commitLsn, endLsn, time)] else [msg]
    }
    ghost predicate WellFormed() {
      if Transaction? then commitLsn <= endLsn && forall i | 0 <= i < |body| :: !body[i].Begin? && !body[i].Commit?
      else !msg.Begin? && !msg.Commit?
    }
  }

  ghost predicate LogOk(log: seq<Item>) {
    && (forall i | 0 <= i < |log| :: log[i].WellFormed())
    && (forall i, j | 0 <= i < j < |log| :: log[i].Position() < log[j].Position())
  }

  /** The events a transaction must contribute: its accepted protected messages, stamped with its commit. */
  ghost function ItemEvents(cfg: Config, item: Item): seq<CapturedEvent> {
    if item.Loose? then []
    else
      var info := CommitInfo(item.xid, item.commitLsn, item.endLsn, item.time);
      Stamp(Captures(cfg, item.Wire(), 1, |item.Wire()| - 1), info)
  }

  /** No message of the item is refused: no invalid protected message and no limit exceeded. */
  ghost predicate Clean(cfg: Config, item: Item) {
    forall i | 0 <= i < |item.Wire()| :: Acceptable(cfg, item.Wire(), i)
  }

  /** Everything captured from the first n items with positions in (lo, hi], in order, repeats included. */
  ghost function History(cfg: Config, log: seq<Item>, lo: Lsn, hi: Lsn, n: nat): seq<CapturedEvent>
    requires n <= |log|
  {
    Gather(Shares(cfg, log, lo, hi), n)
  }

  ghost function Gather(parts: seq<seq<CapturedEvent>>, n: nat): seq<CapturedEvent>
    requires n <= |parts|
  {
    if n == 0 then [] else Gather(parts, n - 1) + parts[n - 1]
  }

  /** What each item contributes. */
  ghost function Shares(cfg: Config, log: seq<Item>, lo: Lsn, hi: Lsn): seq<seq<CapturedEvent>> {
    seq(|log|, i requires 0 <= i < |log| => Share(cfg, log[i], lo, hi))
  }

  ghost function Share(cfg: Config, item: Item, lo: Lsn, hi: Lsn): seq<CapturedEvent> {
    if lo < item.Position() <= hi then ItemEvents(cfg, item) else []
  }

  // ----- State and steps -----

  /** A slot's positions; zero stands for NULL. */
  datatype Slot = Slot(confirmed: Lsn, restart: Lsn)

  datatype Phase = Streaming | Holding(batch: CommittedBatch) | Owing(ack: Lsn)

  /** `offset` messages of log[cursor] have been received; `durable` is the position the session reports. */
  datatype Session = Session(cursor: nat, offset: nat, machine: Machine, durable: Lsn, phase: Phase)

  datatype System = System(log: seq<Item>, slot: Slot, spool: Spool, session: Option<Session>, sent: seq<Lsn>)

  datatype Action =
    | ServerAppends(item: Item)
    | ServerConfirms(i: nat)               // the server gets to the i-th status update; others stay lost or late
    | Connect
    | InSession(act: SessionAction)
    | EndSession                           // disconnect, disk pause, shutdown or crash
    | Elsewhere(op: Op)                    // any other operation on the spool
    | ReplaceSlot(slot: Slot)              // the slot is dropped and created again while no session uses it

  datatype SessionAction =
    | Receive
    | SkipEmpty                            // a server may leave out a transaction that has nothing to send
    | PersistBatch(clock: nat -> Time, commitOk: bool)
    | Acknowledge
    | StatusUpdate                         // receive timeout, or a keepalive that asks for a reply

  /** startLSN: the local checkpoint, else the slot's confirmed position, else its restart position. */
  function StartLsn(checkpoint: Lsn, slot: Slot): (start: Option<Lsn>)
    ensures start == None <==> checkpoint == 0 && slot.confirmed == 0 && slot.restart == 0
    ensures start.Some? ==> start.value != 0 && (checkpoint != 0 ==> start.value == checkpoint)
  {
    if checkpoint != 0 then Some(checkpoint)
    else if slot.confirmed != 0 then Some(slot.confirmed)
    else if slot.restart != 0 then Some(slot.restart)
    else None
  }

  /** The index of the first item past a position. */
  function FirstPast(log: seq<Item>, p: Lsn): (n: nat)
    ensures n <= |log| && (n < |log| ==> log[n].Position() > p)
    ensures forall i | 0 <= i < n :: log[i].Position() <= p
  {
    FirstPastFrom(log, p, 0)
  }

  function FirstPastFrom(log: seq<Item>, p: Lsn, k: nat): (n: nat)
    requires k <= |log| && forall i | 0 <= i < k :: log[i].Position() <= p
    ensures n <= |log| && (n < |log| ==> log[n].Position() > p)
    ensures forall i | 0 <= i < n :: log[i].Position() <= p
    decreases |log| - k
  {
    if k == |log| || log[k].Position() > p then k else FirstPastFrom(log, p, k + 1)
  }

  function DoConnect(s: System): System {
    match StartLsn(s.spool.checkpoint, s.slot)
    case None => s
    case Some(start) =>
      var durable := if s.spool.checkpoint != 0 then s.spool.checkpoint else start;
      s.(session := Some(Session(FirstPast(s.log, Max(start, s.slot.confirmed)), 0, IDLE, durable, Streaming)))
  }

  function Advance(log: seq<Item>, x: Session): Session
    requires x.cursor < |log|
  {
    if x.offset + 1 < |log[x.cursor].Wire()| then x.(offset := x.offset + 1)
    else x.(cursor := x.cursor + 1, offset := 0)
  }

  function DoReceive(cfg: Config, s: System, x: Session): System
    requires x.cursor < |s.log| && x.offset < |s.log[x.cursor].Wire()|
  {
    match Consume(cfg, x.machine, s.log[x.cursor].Wire()[x.offset])
    case Fail(_) => s.(session := None)
    case Next(m) => s.(session := Some(Advance(s.log, x).(machine := m)))
    case Emit(m, batch) => s.(session := Some(Advance(s.log, x).(machine := m, phase := Holding(batch))))
  }

  function DoPersist(cfg: Config, s: System, x: Session, clock: nat -> Time, commitOk: bool): System
    requires x.phase.Holding?
  {
    match Persist(cfg.hash, s.spool, x.phase.batch, clock)
    case Err(_) => s.(session := None)
    case Ok(p) =>
      if commitOk then s.(spool := p.spool, session := Some(x.(phase := Owing(p.result.durable))))
      else s.(session := None)
  }

  function DoInSession(cfg: Config, s: System, x: Session, act: SessionAction): System {
    match act
    case Receive =>
      if x.phase.Streaming? && x.cursor < |s.log| && x.offset < |s.log[x.cursor].Wire()| then DoReceive(cfg, s, x)
      else s
    case SkipEmpty =>
      if x.phase.Streaming? && x.offset == 0 && x.cursor < |s.log|
        && s.log[x.cursor].Transaction? && s.log[x.cursor].body == []
      then s.(session := Some(x.(cursor := x.cursor + 1))) else s
    case PersistBatch(clock, commitOk) =>
      if x.phase.Holding? then DoPersist(cfg, s, x, clock, commitOk) else s
    case Acknowledge =>
      if x.phase.Owing?
      then s.(sent := s.sent + [x.phase.ack], session := Some(x.(durable := x.phase.ack, phase := Streaming))) else s
    case StatusUpdate =>
      if x.phase.Streaming? then s.(sent := s.sent + [x.durable]) else s
  }

  /** A step that is not possible changes nothing. */
  function Do(cfg: Config, s: System, a: Action): System {
    match a
    case ServerAppends(item) => s.(log := s.log + [item])
    case ServerConfirms(i) =>
      if i < |s.sent| then s.(slot := s.slot.(confirmed := Max(s.slot.confirmed, s.sent[i]))) else s
    case Connect => if s.session.None? then DoConnect(s) else s
    case InSession(act) => if s.session.Some? then DoInSession(cfg, s, s.session.value, act) else s
    case EndSession => s.(session := None)
    case Elsewhere(op) => s.(spool := Apply(cfg.hash, s.spool, op))
    case ReplaceSlot(slot) => if s.session.None? then s.(slot := slot, sent := []) else s
  }

  /** What the environment promises about a step: the log grows by well-formed items, past the slot's positions. */
  ghost predicate Possible(s: System, a: Action) {
    match a
    case ServerAppends(item) =>
      LogOk(s.log + [item]) && s.slot.confirmed < item.Position() && s.slot.restart < item.Position()
    case Elsewhere(op) => !op.PersistOp?
    case _ => true
  }

  ghost predicate IsRun(cfg: Config, states: seq<System>, actions: seq<Action>) {
    && |states| == |actions| + 1
    && states[0].spool == EMPTY && states[0].session == None && states[0].sent == [] && LogOk(states[0].log)
    && forall i | 0 <= i < |actions| ::
        Possible(states[i], actions[i]) && states[i + 1] == Do(cfg, states[i], actions[i])
  }

  /** Where a sequence of actions leads. */
  ghost function Steps(cfg: Config, s: System, actions: seq<Action>): System {
    if |actions| == 0 then s else Do(cfg, Steps(cfg, s, actions[..|actions| - 1]), actions[|actions| - 1])
  }

  /** Where the slot stood when the spool was empty. */
  function Origin(slot: Slot): Lsn {
    if slot.confirmed != 0 then slot.confirmed else slot.restart
  }

  /** The origin after a step: a slot replaced before the first batch starts the history afresh. */
  function NextOrigin(origin: Lsn, s: System, a: Action): Lsn {
    if a.ReplaceSlot? && s.session.None? && s.spool.checkpoint == 0 then Origin(a.slot) else origin
  }

  ghost function OriginAt(states: seq<System>, actions: seq<Action>, n: nat): Lsn
    requires |states| == |actions| + 1 && n <= |actions|
  {
    if n == 0 then Origin(states[0].slot)
    else NextOrigin(OriginAt(states, actions, n - 1), states[n - 1], actions[n - 1])
  }

  /** From what startLSN reads: the slot has not moved past the position the session will ask for. */
  predicate NotAhead(checkpoint: Lsn, slot: Slot) {
    var start := StartLsn(checkpoint, slot);
    start.Some? ==> slot.confirmed <= start.value
  }

  /** Every slot that replaces another stands at or behind the spool. */
  ghost predicate SlotsBehind(states: seq<System>, actions: seq<Action>)
    requires |states| == |actions| + 1
  {
    forall i | 0 <= i < |actions| && actions[i].ReplaceSlot? :: NotAhead(states[i].spool.checkpoint, actions[i].slot)
  }

  /** The position up to which everything is represented: the checkpoint, or the origin before the first batch. */
  function Edge(origin: Lsn, s: System): Lsn {
    if s.spool.checkpoint != 0 then s.spool.checkpoint else origin
  }

  // ----- Invariant -----

  /** The spool holds exactly the first occurrences of a history free of conflicts. */
  ghost predicate SpoolFits(cfg: Config, origin: Lsn, spool: Spool, past: seq<CapturedEvent>) {
    && Inv(cfg.hash, spool)
    && (spool.checkpoint != 0 ==> 0 < origin < spool.checkpoint)
    && Represents(spool.events, past)
    && Compatible([], past, |past|)
  }

  /** The checkpoint is an item's end, and everything up to it is clean. */
  ghost predicate LogFits(cfg: Config, origin: Lsn, log: seq<Item>, checkpoint: Lsn) {
    && (checkpoint != 0 ==> exists i :: 0 <= i < |log| && log[i].Position() == checkpoint)
    && forall i | 0 <= i < |log| && origin < log[i].Position() <= checkpoint :: Clean(cfg, log[i])
  }

  ghost predicate SpoolOk(cfg: Config, origin: Lsn, s: System) {
    && SpoolFits(cfg, origin, s.spool, History(cfg, s.log, origin, s.spool.checkpoint, |s.log|))
    && LogFits(cfg, origin, s.log, s.spool.checkpoint)
  }

  ghost predicate SlotOk(origin: Lsn, s: System) {
    && (s.spool.checkpoint == 0 ==> Origin(s.slot) == origin)
    && s.slot.confirmed <= Edge(origin, s)
    && forall i | 0 <= i < |s.sent| :: origin <= s.sent[i] <= Edge(origin, s)
  }

  /** An item with nothing to capture. */
  ghost predicate Inert(cfg: Config, item: Item) {
    Clean(cfg, item) && ItemEvents(cfg, item) == []
  }

  /** Everything before index n is durable or contributes nothing; nothing from n on is durable. */
  ghost predicate CaughtUp(cfg: Config, origin: Lsn, s: System, n: nat) {
    && n <= |s.log|
    && (forall i | 0 <= i < n :: s.log[i].Position() <= Edge(origin, s) || Inert(cfg, s.log[i]))
    && (forall i | n <= i < |s.log| :: s.log[i].Position() > Edge(origin, s))
  }

  ghost predicate SessionOk(cfg: Config, origin: Lsn, s: System, x: Session) {
    origin > 0 && PhaseOk(cfg, origin, s, x)
  }

  ghost predicate PhaseOk(cfg: Config, origin: Lsn, s: System, x: Session) {
    match x.phase
    case Streaming =>
      && x.durable == Edge(origin, s)
      && CaughtUp(cfg, origin, s, x.cursor)
      && (if x.cursor < |s.log|
             then x.offset < |s.log[x.cursor].Wire()| && Fed(cfg, s.log[x.cursor].Wire(), x.offset) == Some(x.machine)
          else x.offset == 0 && x.machine == IDLE)
    case Holding(batch) =>
      && x.durable == Edge(origin, s)
      && x.offset == 0 && x.machine == IDLE && 0 < x.cursor <= |s.log|
      && CaughtUp(cfg, origin, s, x.cursor - 1)
      && var item := s.log[x.cursor - 1];
      item.Transaction? && Clean(cfg, item) && batch == BatchOf(cfg, item)
    case Owing(ack) =>
      && ack == s.spool.checkpoint != 0
      && x.offset == 0 && x.machine == IDLE
      && CaughtUp(cfg, origin, s, x.cursor)
  }

  ghost function BatchOf(cfg: Config, item: Item): CommittedBatch
    requires item.Transaction?
  {
    CommittedBatch(CommitInfo(item.xid, item.commitLsn, item.endLsn, item.time), ItemEvents(cfg, item))
  }

  ghost predicate SysInv(cfg: Config, origin: Lsn, s: System) {
    && LogOk(s.log) && SpoolOk(cfg, origin, s) && SlotOk(origin, s)
    && (s.session.Some? ==> SessionOk(cfg, origin, s, s.session.value))
  }

  // ----- Items -----

  lemma CleanFed(cfg: Config, item: Item, n: nat)
    requires n <= |item.Wire()| && Fed(cfg, item.Wire(), n).Some?
    ensures forall i | 0 <= i < n :: Acceptable(cfg, item.Wire(), i)
    ensures Tracks(cfg, item.Wire(), n, Fed(cfg, item.Wire(), n).value)
  {
    StreamTracked(cfg, item.Wire(), n);
  }

  lemma {:induction false} WireOpen(item: Item, n: nat)
    requires item.Transaction? && item.WellFormed() && 1 <= n < |item.Wire()|
    ensures OpenBegin(item.Wire(), n) == Some(0)
  {
    var w := item.Wire();
    if n == 1 {
      assert w[0] == Begin(item.xid);
    } else {
      WireOpen(item, n - 1);
      assert w[n - 1] == item.body[n - 2];
    }
  }

  /** Messages before the last neither begin nor end a batch; the last of a transaction ends it. */
  lemma WireEmits(cfg: Config, item: Item, n: nat)
    requires item.WellFormed() && n < |item.Wire()| && Fed(cfg, item.Wire(), n).Some? && ValidatorOk(cfg)
    ensures var step := Consume(cfg, Fed(cfg, item.Wire(), n).value, item.Wire()[n]);
      && (step.Emit? ==> item.Transaction? && n == |item.Wire()| - 1 && step.machine == IDLE
                         && step.batch == BatchOf(cfg, item) && AllValid(cfg.hash, step.batch, |step.batch.events|))
      && (step.Next? && n == |item.Wire()| - 1 ==> item.Loose?)
      && (!step.Fail? && n == |item.Wire()| - 1 ==> Clean(cfg, item))
  {
    if n == |item.Wire()| - 1 {
      WireClean(cfg, item, n);
      if item.Transaction? {
        LastEmits(cfg, item);
      }
    }
    OnlyCommitEmits(cfg, item, n);
  }

  lemma WireClean(cfg: Config, item: Item, n: nat)
    requires n == |item.Wire()| - 1 && Fed(cfg, item.Wire(), n).Some?
    ensures !Consume(cfg, Fed(cfg, item.Wire(), n).value, item.Wire()[n]).Fail? ==> Clean(cfg, item)
  {
    CleanFed(cfg, item, n);
    TracksStep(cfg, item.Wire(), n, Fed(cfg, item.Wire(), n).value);
  }

  lemma OnlyCommitEmits(cfg: Config, item: Item, n: nat)
    requires item.WellFormed() && n < |item.Wire()| && Fed(cfg, item.Wire(), n).Some?
    ensures Consume(cfg, Fed(cfg, item.Wire(), n).value, item.Wire()[n]).Emit? ==>
      item.Transaction? && n == |item.Wire()| - 1
  {
    if item.Transaction? && 0 < n < |item.Wire()| - 1 {
      assert item.Wire()[n] == item.body[n - 1];
    }
  }

  lemma LastEmits(cfg: Config, item: Item)
    requires item.Transaction? && item.WellFormed()
    requires Fed(cfg, item.Wire(), |item.Wire()| - 1).Some? && ValidatorOk(cfg)
    ensures var n := |item.Wire()| - 1;
      var step := Consume(cfg, Fed(cfg, item.Wire(), n).value, item.Wire()[n]);
      && !step.Next?
      && (step.Emit? ==>
            step.machine == IDLE && step.batch == BatchOf(cfg, item)
            && AllValid(cfg.hash, step.batch, |step.batch.events|))
  {
    var w, n := item.Wire(), |item.Wire()| - 1;
    EmitsExpected(cfg, w, n);
    WireOpen(item, n);
    assert w[n] == Commit(item.commitLsn, item.endLsn, item.time);
    assert w[0] == Begin(item.xid);
  }

  lemma LooseInert(cfg: Config, item: Item)
    requires item.Loose? && item.WellFormed() && Clean(cfg, item)
    ensures Inert(cfg, item)
    ensures Fed(cfg, item.Wire(), 1) == Some(IDLE)
  {
    StreamTracked(cfg, item.Wire(), 1);
    assert OpenBegin(item.Wire(), 1) == OpenBegin(item.Wire(), 0);
  }

  lemma EmptyInert(cfg: Config, item: Item)
    requires item.Transaction? && item.WellFormed() && item.body == []
    ensures Inert(cfg, item)
  {
    var w := item.Wire();
    assert w == [Begin(item.xid), Commit(item.commitLsn, item.endLsn, item.time)];
    WireOpen(item, 1);
    assert Captures(cfg, w, 1, 1) == [];
  }

  // ----- Histories -----

  lemma {:induction false} GatherSame(xs: seq<seq<CapturedEvent>>, ys: seq<seq<CapturedEvent>>, n: nat)
    requires n <= |xs| && n <= |ys| && forall i | 0 <= i < n :: xs[i] == ys[i]
    ensures Gather(xs, n) == Gather(ys, n)
  {
    if n != 0 {
      GatherSame(xs, ys, n - 1);
    }
  }

  lemma {:induction false} GatherStops(xs: seq<seq<CapturedEvent>>, m: nat, n: nat)
    requires m <= n <= |xs| && forall i | m <= i < n :: xs[i] == []
    ensures Gather(xs, n) == Gather(xs, m)
    decreases n
  {
    if m < n {
      GatherStops(xs, m, n - 1);
    }
  }

  /** Two sequences that agree up to j, of which the first then ends and the second has one more part. */
  lemma GatherOneMore(xs: seq<seq<CapturedEvent>>, ys: seq<seq<CapturedEvent>>, j: nat)
    requires j < |xs| == |ys| && forall i | 0 <= i < j :: xs[i] == ys[i]
    requires (forall i | j <= i < |xs| :: xs[i] == []) && (forall i | j < i < |ys| :: ys[i] == [])
    ensures Gather(ys, |ys|) == Gather(xs, |xs|) + ys[j]
  {
    GatherSame(xs, ys, j);
    GatherStops(xs, j, |xs|);
    GatherStops(ys, j + 1, |ys|);
  }

  /** Raising the bound to item j adds item j's events, if everything between was represented or empty. */
  lemma HistoryGrows(cfg: Config, log: seq<Item>, lo: Lsn, hi: Lsn, j: nat)
    requires LogOk(log) && j < |log| && Max(lo, hi) < log[j].Position()
    requires forall i | 0 <= i < j :: log[i].Position() <= Max(lo, hi) || ItemEvents(cfg, log[i]) == []
    ensures History(cfg, log, lo, log[j].Position(), |log|)
      == History(cfg, log, lo, hi, |log|) + ItemEvents(cfg, log[j])
  {
    SharesAround(cfg, log, lo, hi, j);
    GatherOneMore(Shares(cfg, log, lo, hi), Shares(cfg, log, lo, log[j].Position()), j);
  }

  lemma SharesAround(cfg: Config, log: seq<Item>, lo: Lsn, hi: Lsn, j: nat)
    requires LogOk(log) && j < |log| && Max(lo, hi) < log[j].Position()
    requires forall i | 0 <= i < j :: log[i].Position() <= Max(lo, hi) || ItemEvents(cfg, log[i]) == []
    ensures var hi' := log[j].Position();
      && (forall i | 0 <= i < j :: Share(cfg, log[i], lo, hi) == Share(cfg, log[i], lo, hi'))
      && (forall i | j <= i < |log| :: Share(cfg, log[i], lo, hi) == [])
      && (forall i | j < i < |log| :: Share(cfg, log[i], lo, hi') == [])
      && Share(cfg, log[j], lo, hi') == ItemEvents(cfg, log[j])
  {
    var hi' := log[j].Position();
    forall i | 0 <= i < j ensures Share(cfg, log[i], lo, hi) == Share(cfg, log[i], lo, hi') {
      assert log[i].Position() < hi';
    }
    forall i | j < i < |log| ensures Share(cfg, log[i], lo, hi) == [] && Share(cfg, log[i], lo, hi') == [] {
      assert hi' < log[i].Position();
    }
  }

  lemma HistoryPrefix(cfg: Config, log: seq<Item>, item: Item, lo: Lsn, hi: Lsn)
    requires !(lo < item.Position() <= hi)
    ensures History(cfg, log + [item], lo, hi, |log + [item]|) == History(cfg, log, lo, hi, |log|)
  {
    var xs, ys := Shares(cfg, log, lo, hi), Shares(cfg, log + [item], lo, hi);
    assert ys == xs + [[]];
    GatherSame(xs, ys, |xs|);
    GatherStops(ys, |xs|, |ys|);
  }

  lemma HistoryEmpty(cfg: Config, log: seq<Item>, lo: Lsn)
    ensures History(cfg, log, lo, 0, |log|) == []
  {
    GatherStops(Shares(cfg, log, lo, 0), 0, |log|);
  }

  /** A conflict-free history stays conflict-free when the spool accepts more events. */
  lemma CompatibleAppend(rows: seq<EventRow>, past: seq<CapturedEvent>, es: seq<CapturedEvent>)
    requires Represents(rows, past) && Compatible([], past, |past|) && Compatible(rows, es, |es|)
    ensures Compatible([], past + es, |past + es|)
  {
    var all := past + es;
    forall j: nat | j < |all| ensures NoConflict([], all, j) {
      if j < |past| {
        assert NoConflict([], past, j);
        assert forall i: nat | i <= j :: all[i] == past[i];
      } else {
        assert NoConflict(rows, es, j - |past|);
        forall i: nat | i < j && all[i].Ident() == all[j].Ident() ensures all[i].digest == all[j].digest {
          if i < |past| {
            RowOfPast(rows, past, i);
          } else {
            assert all[i] == es[i - |past|];
          }
        }
      }
    }
  }

  /** The row of an identity the history has used carries the digest the history gave it. */
  lemma RowOfPast(rows: seq<EventRow>, past: seq<CapturedEvent>, i: nat)
    requires Represents(rows, past) && Compatible([], past, |past|) && i < |past|
    ensures exists k: nat :: k < |rows| && rows[k].Ident() == past[i].Ident() && rows[k].event.digest == past[i].digest
  {
    var k := FirstOf(past, |past|, i);
    var j := FirstFrom(past, |past|, k);
    assert Holds(rows[k], past[j]);
    assert NoConflict([], past, i) && NoConflict([], past, j);
    assert rows[k].Ident() == past[i].Ident();
  }
}
