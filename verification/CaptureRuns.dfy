/** What every run of the capture protocol keeps, whatever crashes, disconnects and losses it contains. */
module CaptureRuns {
  import opened Basics
  import opened Timestamps
  import opened SpoolState
  import opened SpoolCapture
  import opened SpoolRuns
  import opened SpoolDelivery
  import opened StateMachines
  import opened Capture
  import opened Provenance

  // ----- Sequences of actions -----

  lemma StepsPush(cfg: Config, s: System, actions: seq<Action>, a: Action)
    ensures Steps(cfg, s, actions + [a]) == Do(cfg, Steps(cfg, s, actions), a)
  {
    assert (actions + [a])[..|actions|] == actions;
  }

  lemma {:induction false} StepsThen(cfg: Config, s: System, first: seq<Action>, second: seq<Action>)
    ensures Steps(cfg, s, first + second) == Steps(cfg, Steps(cfg, s, first), second)
  {
    if |second| == 0 {
      assert first + second == first;
    } else {
      var front, a := second[..|second| - 1], second[|second| - 1];
      StepsThen(cfg, s, first, front);
      StepsPush(cfg, s, first + front, a);
      StepsPush(cfg, Steps(cfg, s, first), front, a);
      assert second == front + [a];
      assert first + second == first + front + [a];
    }
  }

  lemma OneStep(cfg: Config, s: System, a: Action)
    ensures Steps(cfg, s, [a]) == Do(cfg, s, a)
  {
    assert [a][..0] == [];
    assert Steps(cfg, s, []) == s;
  }

  // ----- Steps that leave the spool alone -----

  lemma ConnectKeeps(cfg: Config, origin: Lsn, s: System)
    requires SysInv(cfg, origin, s)
    ensures SysInv(cfg, origin, DoConnect(s))
  {
    if StartLsn(s.spool.checkpoint, s.slot).Some? {
      ConnectSession(cfg, origin, s);
      SessionMoves(cfg, origin, s, DoConnect(s).session);
    }
  }

  lemma ConnectSession(cfg: Config, origin: Lsn, s: System)
    requires LogOk(s.log) && SlotOk(origin, s) && (s.spool.checkpoint != 0 ==> 0 < origin < s.spool.checkpoint)
    requires StartLsn(s.spool.checkpoint, s.slot).Some?
    ensures var t := DoConnect(s); t.session.Some? && SessionOk(cfg, origin, s, t.session.value)
  {
    var start := StartLsn(s.spool.checkpoint, s.slot).value;
    assert start == Edge(origin, s) == Max(start, s.slot.confirmed);
    var x := DoConnect(s).session.value;
    assert CaughtUp(cfg, origin, s, x.cursor);
  }

  lemma AppendLogFits(cfg: Config, origin: Lsn, log: seq<Item>, item: Item, c: Lsn)
    requires LogFits(cfg, origin, log, c) && LogOk(log + [item])
    ensures LogFits(cfg, origin, log + [item], c) && (c == 0 || c < item.Position())
  {
    var all := log + [item];
    if c != 0 {
      var i :| 0 <= i < |log| && log[i].Position() == c;
      assert all[i].Position() == c && all[i].Position() < all[|log|].Position();
    }
    forall i | 0 <= i < |all| && origin < all[i].Position() <= c ensures Clean(cfg, all[i]) {
      assert all[i] == if i < |log| then log[i] else item;
    }
  }

  lemma AppendKeeps(cfg: Config, origin: Lsn, s: System, item: Item)
    requires SysInv(cfg, origin, s) && Possible(s, ServerAppends(item))
    ensures SysInv(cfg, origin, s.(log := s.log + [item]))
  {
    AppendSpoolOk(cfg, origin, s, item);
    if s.session.Some? {
      AppendSession(cfg, origin, s, item);
    }
  }

  lemma AppendSpoolOk(cfg: Config, origin: Lsn, s: System, item: Item)
    requires SpoolOk(cfg, origin, s) && LogOk(s.log + [item]) && (s.spool.checkpoint == 0 ==> origin < item.Position())
    ensures SpoolOk(cfg, origin, s.(log := s.log + [item])) && Edge(origin, s) < item.Position()
  {
    AppendLogFits(cfg, origin, s.log, item, s.spool.checkpoint);
    HistoryPrefix(cfg, s.log, item, origin, s.spool.checkpoint);
  }

  lemma AppendSession(cfg: Config, origin: Lsn, s: System, item: Item)
    requires s.session.Some? && SessionOk(cfg, origin, s, s.session.value) && Edge(origin, s) < item.Position()
    ensures SessionOk(cfg, origin, s.(log := s.log + [item]), s.session.value)
  {
    var t, x := s.(log := s.log + [item]), s.session.value;
    assert forall i | 0 <= i < |s.log| :: t.log[i] == s.log[i];
    assert forall n: nat | CaughtUp(cfg, origin, s, n) :: CaughtUp(cfg, origin, t, n);
  }

  lemma ConfirmKeeps(cfg: Config, origin: Lsn, s: System, i: nat)
    requires SysInv(cfg, origin, s) && i < |s.sent|
    ensures SysInv(cfg, origin, s.(slot := s.slot.(confirmed := Max(s.slot.confirmed, s.sent[i]))))
  {
    var t := s.(slot := s.slot.(confirmed := Max(s.slot.confirmed, s.sent[i])));
    assert SpoolOk(cfg, origin, t);
    if s.session.Some? {
      SessionFrame(cfg, origin, s, t, s.session.value);
    }
  }

  /** A session depends only on the log and the checkpoint. */
  lemma SessionFrame(cfg: Config, origin: Lsn, s: System, t: System, x: Session)
    requires SessionOk(cfg, origin, s, x) && t.log == s.log && t.spool.checkpoint == s.spool.checkpoint
    ensures SessionOk(cfg, origin, t, x)
  {
    assert forall n: nat | CaughtUp(cfg, origin, s, n) :: CaughtUp(cfg, origin, t, n);
  }

  /** A step that only moves the session keeps everything else. */
  lemma SessionMoves(cfg: Config, origin: Lsn, s: System, session: Option<Session>)
    requires SysInv(cfg, origin, s)
    requires session.Some? ==> SessionOk(cfg, origin, s, session.value)
    ensures SysInv(cfg, origin, s.(session := session))
  {
    var t := s.(session := session);
    assert SpoolOk(cfg, origin, t) && SlotOk(origin, t);
    if session.Some? {
      SessionFrame(cfg, origin, s, t, session.value);
    }
  }

  /** Moving past an item that contributes nothing. */
  lemma PastInert(cfg: Config, origin: Lsn, s: System, x: Session)
    requires origin > 0 && x.phase.Streaming? && x.cursor < |s.log| && Inert(cfg, s.log[x.cursor]) && LogOk(s.log)
    requires x.durable == Edge(origin, s) && CaughtUp(cfg, origin, s, x.cursor)
    ensures SessionOk(cfg, origin, s, x.(cursor := x.cursor + 1, offset := 0, machine := IDLE))
  {
    CaughtUpOneMore(cfg, origin, s, x.cursor);
    assert x.cursor + 1 < |s.log| ==> Fed(cfg, s.log[x.cursor + 1].Wire(), 0) == Some(IDLE);
  }

  lemma CaughtUpOneMore(cfg: Config, origin: Lsn, s: System, n: nat)
    requires n < |s.log| && CaughtUp(cfg, origin, s, n) && Inert(cfg, s.log[n])
    ensures CaughtUp(cfg, origin, s, n + 1)
  {
    forall i | 0 <= i < n + 1 ensures s.log[i].Position() <= Edge(origin, s) || Inert(cfg, s.log[i]) {
      assert i < n ==> s.log[i].Position() <= Edge(origin, s) || Inert(cfg, s.log[i]);
    }
  }

  lemma SkipKeeps(cfg: Config, origin: Lsn, s: System, x: Session)
    requires SysInv(cfg, origin, s) && s.session == Some(x)
    requires x.phase.Streaming? && x.offset == 0 && x.cursor < |s.log|
    requires s.log[x.cursor].Transaction? && s.log[x.cursor].body == []
    ensures SysInv(cfg, origin, s.(session := Some(x.(cursor := x.cursor + 1))))
  {
    EmptyInert(cfg, s.log[x.cursor]);
    PastInert(cfg, origin, s, x);
    assert x.machine == IDLE;
    assert x.(cursor := x.cursor + 1) == x.(cursor := x.cursor + 1, offset := 0, machine := IDLE);
    SessionMoves(cfg, origin, s, Some(x.(cursor := x.cursor + 1)));
  }

  /** Sending a reportable position keeps everything else. */
  lemma SentKeeps(cfg: Config, origin: Lsn, s: System, l: Lsn)
    requires SysInv(cfg, origin, s) && origin <= l <= Edge(origin, s)
    ensures SysInv(cfg, origin, s.(sent := s.sent + [l]))
  {
    var t := s.(sent := s.sent + [l]);
    assert SpoolOk(cfg, origin, t);
    if s.session.Some? {
      SessionFrame(cfg, origin, s, t, s.session.value);
    }
  }

  lemma AckKeeps(cfg: Config, origin: Lsn, s: System, x: Session)
    requires SysInv(cfg, origin, s) && s.session == Some(x) && x.phase.Owing?
    ensures SysInv(cfg, origin,
                   s.(sent := s.sent + [x.phase.ack], session := Some(x.(durable := x.phase.ack, phase := Streaming))))
  {
    SentKeeps(cfg, origin, s, x.phase.ack);
    var t := s.(sent := s.sent + [x.phase.ack]);
    AckedSession(cfg, origin, t, x);
    SessionMoves(cfg, origin, t, Some(x.(durable := x.phase.ack, phase := Streaming)));
  }

  lemma StatusKeeps(cfg: Config, origin: Lsn, s: System, x: Session)
    requires SysInv(cfg, origin, s) && s.session == Some(x) && x.phase.Streaming?
    ensures SysInv(cfg, origin, s.(sent := s.sent + [x.durable]))
  {
    SentKeeps(cfg, origin, s, x.durable);
  }

  lemma AckedSession(cfg: Config, origin: Lsn, s: System, x: Session)
    requires LogOk(s.log) && SessionOk(cfg, origin, s, x) && x.phase.Owing?
    ensures SessionOk(cfg, origin, s, x.(durable := x.phase.ack, phase := Streaming))
  {
    assert x.cursor < |s.log| ==> Fed(cfg, s.log[x.cursor].Wire(), 0) == Some(IDLE);
  }

  /** The session after one more message. */
  lemma ReceiveSession(cfg: Config, origin: Lsn, s: System, x: Session)
    requires LogOk(s.log) && SessionOk(cfg, origin, s, x) && ValidatorOk(cfg)
    requires x.phase.Streaming? && x.cursor < |s.log| && x.offset < |s.log[x.cursor].Wire()|
    ensures var t := DoReceive(cfg, s, x); t.session.Some? ==> SessionOk(cfg, origin, s, t.session.value)
  {
    var item := s.log[x.cursor];
    var step := Consume(cfg, x.machine, item.Wire()[x.offset]);
    WireEmits(cfg, item, x.offset);
    if step.Next? && x.offset + 1 == |item.Wire()| {
      LooseInert(cfg, item);
      PastInert(cfg, origin, s, x);
    } else if step.Next? {
      MidItem(cfg, origin, s, x, step.machine);
    }
  }

  /** In the middle of an item. */
  lemma MidItem(cfg: Config, origin: Lsn, s: System, x: Session, m: Machine)
    requires SessionOk(cfg, origin, s, x) && x.phase.Streaming?
    requires x.cursor < |s.log| && x.offset + 1 < |s.log[x.cursor].Wire()|
    requires Consume(cfg, x.machine, s.log[x.cursor].Wire()[x.offset]) == Next(m)
    ensures SessionOk(cfg, origin, s, x.(offset := x.offset + 1, machine := m))
  {
    assert Fed(cfg, s.log[x.cursor].Wire(), x.offset + 1) == Some(m);
  }

  lemma ReceiveKeeps(cfg: Config, origin: Lsn, s: System, x: Session)
    requires SysInv(cfg, origin, s) && s.session == Some(x) && ValidatorOk(cfg)
    requires x.phase.Streaming? && x.cursor < |s.log| && x.offset < |s.log[x.cursor].Wire()|
    ensures SysInv(cfg, origin, DoReceive(cfg, s, x))
  {
    ReceiveSession(cfg, origin, s, x);
    SessionMoves(cfg, origin, s, DoReceive(cfg, s, x).session);
  }

  // ----- Persisting -----

  /** The history grows by the held transaction's events. */
  lemma HeldHistory(cfg: Config, origin: Lsn, s: System, x: Session)
    requires SysInv(cfg, origin, s) && s.session == Some(x) && x.phase.Holding?
    ensures Edge(origin, s) < s.log[x.cursor - 1].endLsn
    ensures History(cfg, s.log, origin, s.log[x.cursor - 1].endLsn, |s.log|)
         == History(cfg, s.log, origin, s.spool.checkpoint, |s.log|) + x.phase.batch.events
  {
    var j, c := x.cursor - 1, s.spool.checkpoint;
    assert Max(origin, c) == Edge(origin, s) < s.log[j].Position();
    HistoryGrows(cfg, s.log, origin, c, j);
  }

  /** Everything up to a held transaction is represented once it is persisted. */
  lemma PersistSpoolOk(cfg: Config, origin: Lsn, s: System, x: Session, clock: nat -> Time)
    requires SysInv(cfg, origin, s) && s.session == Some(x) && x.phase.Holding?
    requires Persist(cfg.hash, s.spool, x.phase.batch, clock).Ok?
    ensures var p := Persist(cfg.hash, s.spool, x.phase.batch, clock).value;
      SpoolOk(cfg, origin, s.(spool := p.spool)) && p.spool.checkpoint == s.log[x.cursor - 1].endLsn
  {
    HeldHistory(cfg, origin, s, x);
    PersistClean(cfg, origin, s, x);
    PersistUpTo(cfg, origin, s, x.phase.batch, s.log[x.cursor - 1].endLsn, clock);
  }

  lemma PersistUpTo(cfg: Config, origin: Lsn, s: System, b: CommittedBatch, end: Lsn, clock: nat -> Time)
    requires SpoolOk(cfg, origin, s) && LogFits(cfg, origin, s.log, end)
    requires b.commit.commitEndLsn == end && 0 < origin < end && s.spool.checkpoint < end
    requires History(cfg, s.log, origin, end, |s.log|)
      == History(cfg, s.log, origin, s.spool.checkpoint, |s.log|) + b.events
    requires Persist(cfg.hash, s.spool, b, clock).Ok?
    ensures var p := Persist(cfg.hash, s.spool, b, clock).value;
      SpoolOk(cfg, origin, s.(spool := p.spool)) && p.spool.checkpoint == end
  {
    PersistFits(cfg, origin, s.spool, History(cfg, s.log, origin, s.spool.checkpoint, |s.log|), b, clock);
  }

  lemma PersistFits(cfg: Config, origin: Lsn, spool: Spool, past: seq<CapturedEvent>, b: CommittedBatch,
                    clock: nat -> Time)
    requires SpoolFits(cfg, origin, spool, past) && 0 < origin < b.commit.commitEndLsn
    requires Persist(cfg.hash, spool, b, clock).Ok?
    ensures var p := Persist(cfg.hash, spool, b, clock).value;
      SpoolFits(cfg, origin, p.spool, past + b.events)
        && p.spool.checkpoint == Max(spool.checkpoint, b.commit.commitEndLsn)
  {
    PersistVerdict(cfg.hash, spool, b, clock);
    PersistRepresents(spool.events, past, b.events);
  }

  lemma PersistRepresents(rows: seq<EventRow>, past: seq<CapturedEvent>, es: seq<CapturedEvent>)
    requires Represents(rows, past) && Compatible([], past, |past|) && Compatible(rows, es, |es|)
    ensures Represents(AddAll(rows, es, |es|), past + es) && Compatible([], past + es, |past + es|)
  {
    RepresentsAddAll(rows, past, es, |es|);
    assert es[..|es|] == es;
    CompatibleAppend(rows, past, es);
  }

  lemma PersistClean(cfg: Config, origin: Lsn, s: System, x: Session)
    requires LogOk(s.log) && LogFits(cfg, origin, s.log, s.spool.checkpoint)
    requires SessionOk(cfg, origin, s, x) && x.phase.Holding?
    ensures LogFits(cfg, origin, s.log, s.log[x.cursor - 1].endLsn)
  {
    CleanUpTo(cfg, origin, s.log, s.spool.checkpoint, Edge(origin, s), x.cursor - 1);
  }

  lemma CleanUpTo(cfg: Config, origin: Lsn, log: seq<Item>, c: Lsn, edge: Lsn, j: nat)
    requires LogOk(log) && LogFits(cfg, origin, log, c) && edge <= Max(origin, c) && j < |log| && Clean(cfg, log[j])
    requires forall i | 0 <= i < j :: log[i].Position() <= edge || Inert(cfg, log[i])
    ensures LogFits(cfg, origin, log, log[j].Position())
  {
    forall i | 0 <= i < |log| && origin < log[i].Position() <= log[j].Position() ensures Clean(cfg, log[i]) {
      if i < j {
        assert log[i].Position() <= edge || Inert(cfg, log[i]);
      }
    }
  }

  lemma PersistKeeps(cfg: Config, origin: Lsn, s: System, x: Session, clock: nat -> Time, commitOk: bool)
    requires SysInv(cfg, origin, s) && s.session == Some(x) && x.phase.Holding?
    ensures SysInv(cfg, origin, DoPersist(cfg, s, x, clock, commitOk))
  {
    var r := Persist(cfg.hash, s.spool, x.phase.batch, clock);
    var t := DoPersist(cfg, s, x, clock, commitOk);
    if r.Ok? && commitOk {
      PersistSpoolOk(cfg, origin, s, x, clock);
      PersistVerdict(cfg.hash, s.spool, x.phase.batch, clock);
      assert SpoolOk(cfg, origin, t);
      assert Edge(origin, s) < t.spool.checkpoint == Edge(origin, t);
      PersistCaughtUp(cfg, origin, s, x, t);
    } else {
      SessionMoves(cfg, origin, s, None);
    }
  }

  lemma PersistCaughtUp(cfg: Config, origin: Lsn, s: System, x: Session, t: System)
    requires LogOk(s.log) && x.phase.Holding? && SessionOk(cfg, origin, s, x)
    requires t.log == s.log && t.spool.checkpoint == s.log[x.cursor - 1].endLsn != 0
    ensures CaughtUp(cfg, origin, t, x.cursor)
  {
    AllUpTo(cfg, origin, t, x.cursor - 1);
  }

  /** A checkpoint at the end of item j: everything up to it is durable, and nothing after it. */
  lemma AllUpTo(cfg: Config, origin: Lsn, s: System, j: nat)
    requires LogOk(s.log) && j < |s.log| && s.spool.checkpoint == s.log[j].Position() != 0
    ensures CaughtUp(cfg, origin, s, j + 1)
  {
    PositionsAround(s.log, j);
  }

  lemma PositionsAround(log: seq<Item>, j: nat)
    requires LogOk(log) && j < |log|
    ensures forall i | 0 <= i < j + 1 :: log[i].Position() <= log[j].Position()
    ensures forall i | j < i < |log| :: log[j].Position() < log[i].Position()
  {
  }

  // ----- Other operations on the spool -----

  lemma RepresentsEvolves(rows: seq<EventRow>, rows': seq<EventRow>, es: seq<CapturedEvent>)
    requires Represents(rows, es) && |rows'| == |rows| && forall i | 0 <= i < |rows| :: RowEvolves(rows[i], rows'[i])
    ensures Represents(rows', es)
  {
    var firsts := FirstOccurrences(es, |es|);
    forall i | 0 <= i < |rows'| ensures Holds(rows'[i], firsts[i]) {
      assert RowEvolves(rows[i], rows'[i]) && Holds(rows[i], firsts[i]);
    }
  }

  lemma ElsewhereKeeps(cfg: Config, origin: Lsn, s: System, op: Op)
    requires SysInv(cfg, origin, s) && !op.PersistOp?
    ensures SysInv(cfg, origin, s.(spool := Apply(cfg.hash, s.spool, op)))
  {
    var t := s.(spool := Apply(cfg.hash, s.spool, op));
    OtherOpEvents(cfg.hash, s.spool, op);
    RepresentsEvolves(s.spool.events, t.spool.events, History(cfg, s.log, origin, s.spool.checkpoint, |s.log|));
    assert SpoolOk(cfg, origin, t);
    if s.session.Some? {
      SessionFrame(cfg, origin, s, t, s.session.value);
    }
  }

  // ----- Runs -----

  /** A slot at or behind the spool can replace another; before the first batch, any slot can. */
  lemma ReplaceKeeps(cfg: Config, origin: Lsn, s: System, slot: Slot)
    requires SysInv(cfg, origin, s) && s.session.None? && NotAhead(s.spool.checkpoint, slot)
    ensures SysInv(cfg, NextOrigin(origin, s, ReplaceSlot(slot)), s.(slot := slot, sent := []))
  {
    if s.spool.checkpoint == 0 {
      HistoryEmpty(cfg, s.log, origin);
      HistoryEmpty(cfg, s.log, Origin(slot));
    }
  }

  lemma StepKeeps(cfg: Config, origin: Lsn, s: System, a: Action)
    requires SysInv(cfg, origin, s) && Possible(s, a) && ValidatorOk(cfg)
    requires a.ReplaceSlot? ==> NotAhead(s.spool.checkpoint, a.slot)
    ensures SysInv(cfg, NextOrigin(origin, s, a), Do(cfg, s, a))
  {
    match a
    case ServerAppends(item) => AppendKeeps(cfg, origin, s, item);
    case ServerConfirms(i) =>
      if i < |s.sent| {
        ConfirmKeeps(cfg, origin, s, i);
      }
    case Connect => ConnectKeeps(cfg, origin, s);
    case EndSession => assert SpoolOk(cfg, origin, s.(session := None));
    case Elsewhere(op) => ElsewhereKeeps(cfg, origin, s, op);
    case ReplaceSlot(slot) =>
      if s.session.None? {
        ReplaceKeeps(cfg, origin, s, slot);
      }
    case InSession(act) =>
      if s.session.Some? {
        InSessionKeeps(cfg, origin, s, s.session.value, act);
      }
  }

  lemma InSessionKeeps(cfg: Config, origin: Lsn, s: System, x: Session, act: SessionAction)
    requires SysInv(cfg, origin, s) && s.session == Some(x) && ValidatorOk(cfg)
    ensures SysInv(cfg, origin, DoInSession(cfg, s, x, act))
  {
    match act
    case Receive =>
      if x.phase.Streaming? && x.cursor < |s.log| && x.offset < |s.log[x.cursor].Wire()| {
        ReceiveKeeps(cfg, origin, s, x);
      }
    case SkipEmpty =>
      if x.phase.Streaming? && x.offset == 0 && x.cursor < |s.log|
        && s.log[x.cursor].Transaction? && s.log[x.cursor].body == [] {
        SkipKeeps(cfg, origin, s, x);
      }
    case PersistBatch(clock, commitOk) =>
      if x.phase.Holding? {
        PersistKeeps(cfg, origin, s, x, clock, commitOk);
      }
    case Acknowledge =>
      if x.phase.Owing? {
        AckKeeps(cfg, origin, s, x);
      }
    case StatusUpdate =>
      if x.phase.Streaming? {
        StatusKeeps(cfg, origin, s, x);
      }
  }

  lemma InitOk(cfg: Config, s: System)
    requires s.spool == EMPTY && s.session == None && s.sent == [] && LogOk(s.log)
    ensures SysInv(cfg, Origin(s.slot), s)
  {
    InvEmpty(cfg.hash);
    HistoryEmpty(cfg, s.log, Origin(s.slot));
  }

  lemma {:induction false} RunKeeps(cfg: Config, states: seq<System>, actions: seq<Action>, n: nat)
    requires IsRun(cfg, states, actions) && SlotsBehind(states, actions) && ValidatorOk(cfg) && n <= |actions|
    ensures SysInv(cfg, OriginAt(states, actions, n), states[n])
  {
    if n == 0 {
      InitOk(cfg, states[0]);
    } else {
      RunKeeps(cfg, states, actions, n - 1);
      StepKeeps(cfg, OriginAt(states, actions, n - 1), states[n - 1], actions[n - 1]);
    }
  }

  /**
   Capture refinement. On every run, the event rows are exactly the first occurrences, by (source, id), of the
   protected messages in transactions past the slot's initial position and up to the checkpoint: one row for each such
   message of the log, in log order, with its metadata, content, digest, position and commit. The checkpoint
   never passes a transaction with an invalid protected message, an exceeded limit or a conflicting identity. Slots
   may be replaced, as long as none stands ahead of the spool.
   */
  lemma CaptureRefinement(cfg: Config, states: seq<System>, actions: seq<Action>, n: nat)
    requires IsRun(cfg, states, actions) && SlotsBehind(states, actions) && ValidatorOk(cfg) && n <= |actions|
    ensures var s, origin := states[n], OriginAt(states, actions, n);
      var past := History(cfg, s.log, origin, s.spool.checkpoint, |s.log|);
      && Inv(cfg.hash, s.spool)
      && Represents(s.spool.events, past)
      && (exists at :: RowsTell(cfg, s.log, origin, s.spool.checkpoint, s.spool.events, at))
      && Compatible([], past, |past|)
      && forall i | 0 <= i < |s.log| && origin < s.log[i].Position() && !Clean(cfg, s.log[i]) ::
          s.spool.checkpoint < s.log[i].Position()
  {
    RunKeeps(cfg, states, actions, n);
    var s, origin := states[n], OriginAt(states, actions, n);
    var at := RowsFromLog(cfg, s.log, origin, s.spool.checkpoint, s.spool.events);
    assert RowsTell(cfg, s.log, origin, s.spool.checkpoint, s.spool.events, at);
  }

  /** From the log to the sink: on every run, what is sent is what the first message of that identity said. */
  lemma SendsWhatWasWritten(cfg: Config, states: seq<System>, actions: seq<Action>, n: nat, due: Time -> bool, r: Ref)
    returns (p: Place)
    requires IsRun(cfg, states, actions) && SlotsBehind(states, actions) && ValidatorOk(cfg) && n <= |actions|
    requires NextDue(states[n].spool, due) == Some(r)
    ensures var s := states[n];
      && r in s.spool.deliveries && r.event < |s.spool.events| && r.sink < |s.spool.sinks|
      && FirstUse(cfg, s.log, OriginAt(states, actions, n), s.spool.checkpoint, p)
      && ItemTells(cfg, s.log, p, ItemAt(s.spool, r))
  {
    RunKeeps(cfg, states, actions, n);
    var s := states[n];
    var at := RowsFromLog(cfg, s.log, OriginAt(states, actions, n), s.spool.checkpoint, s.spool.events);
    SelectedPayload(cfg.hash, s.spool, due, r);
    p := at[r.event];
    assert RowTells(cfg, s.log, p, s.spool.events[r.event]);
  }

  /**
   Acknowledgment safety. Every position sent, after a batch, on a timeout or to a keepalive, is at most the
   durable checkpoint of that moment, or the slot's own initial position while the spool is empty; the checkpoint
   never decreases; and the server's confirmed position never passes what is durable. What was sent to a slot that
   is then replaced is lost with it; nothing else forgets a position sent.
   */
  lemma AcknowledgmentSafety(cfg: Config, states: seq<System>, actions: seq<Action>, n: nat)
    requires IsRun(cfg, states, actions) && SlotsBehind(states, actions) && ValidatorOk(cfg) && n < |actions|
    ensures var s, t, origin := states[n], states[n + 1], OriginAt(states, actions, n + 1);
      && (if actions[n].ReplaceSlot? && s.session.None? then t.sent == [] && t.spool == s.spool
             else SafeChange(OriginAt(states, actions, n), s, t))
      && (t.slot.confirmed <= t.spool.checkpoint || t.slot.confirmed == origin || t.slot.confirmed == 0)
  {
    RunKeeps(cfg, states, actions, n);
    RunKeeps(cfg, states, actions, n + 1);
    if !(actions[n].ReplaceSlot? && states[n].session.None?) {
      SafeStep(cfg, OriginAt(states, actions, n), states[n], actions[n]);
    }
  }

  ghost predicate SafeChange(origin: Lsn, s: System, t: System) {
    && s.spool.checkpoint <= t.spool.checkpoint
    && s.sent <= t.sent
    && forall i | |s.sent| <= i < |t.sent| ::
        t.sent[i] <= s.spool.checkpoint || (s.spool.checkpoint == 0 && t.sent[i] == origin)
  }

  lemma SafeInSession(cfg: Config, origin: Lsn, s: System, x: Session, act: SessionAction)
    requires Inv(cfg.hash, s.spool) && SessionOk(cfg, origin, s, x)
    ensures SafeChange(origin, s, DoInSession(cfg, s, x, act))
  {
    if act.PersistBatch? && x.phase.Holding? {
      PersistVerdict(cfg.hash, s.spool, x.phase.batch, act.clock);
    }
  }

  lemma SafeStep(cfg: Config, origin: Lsn, s: System, a: Action)
    requires SysInv(cfg, origin, s) && Possible(s, a) && !(a.ReplaceSlot? && s.session.None?)
    ensures SafeChange(origin, s, Do(cfg, s, a))
  {
    match a
    case Elsewhere(op) => OtherOpEvents(cfg.hash, s.spool, op);
    case InSession(act) =>
      if s.session.Some? {
        SafeInSession(cfg, origin, s, s.session.value, act);
      }
    case _ =>
  }

  /** What the server was given in the first n steps. */
  ghost function Appended(actions: seq<Action>, n: nat): seq<Item>
    requires n <= |actions|
  {
    if n == 0 then []
    else Appended(actions, n - 1) + if actions[n - 1].ServerAppends? then [actions[n - 1].item] else []
  }

  /** The log is what the server was given, and nothing the relay does changes it. */
  lemma {:induction false} LogIsAppended(cfg: Config, states: seq<System>, actions: seq<Action>, n: nat)
    requires IsRun(cfg, states, actions) && n <= |actions|
    ensures states[n].log == states[0].log + Appended(actions, n)
  {
    if n != 0 {
      LogIsAppended(cfg, states, actions, n - 1);
      LogMoves(cfg, states[n - 1], actions[n - 1]);
    }
  }

  lemma LogMoves(cfg: Config, s: System, a: Action)
    ensures Do(cfg, s, a).log == s.log + if a.ServerAppends? then [a.item] else []
  {
  }

  /** The slot moves only by a status update that was sent, and only forward, unless it is replaced. */
  lemma SlotMoves(cfg: Config, s: System, a: Action)
    ensures var t := Do(cfg, s, a);
      if a.ServerConfirms? && a.i < |s.sent| then
        && s.sent[a.i] <= t.slot.confirmed && s.slot.confirmed <= t.slot.confirmed && t.slot.restart == s.slot.restart
        && (t.slot.confirmed == s.slot.confirmed || t.slot.confirmed == s.sent[a.i])
      else t.slot == if a.ReplaceSlot? && s.session.None? then a.slot else s.slot
  {
  }

  /** Reconnecting skips nothing: whatever is not durable yet is still ahead of the new session. */
  lemma ResumeSkipsNothing(cfg: Config, states: seq<System>, actions: seq<Action>, n: nat)
    requires IsRun(cfg, states, actions) && SlotsBehind(states, actions) && ValidatorOk(cfg) && n < |actions|
    requires actions[n].Connect? && states[n].session.None? && states[n + 1].session.Some?
    ensures var s, origin := states[n], OriginAt(states, actions, n);
      forall i | 0 <= i < |s.log| :: s.log[i].Position() > Edge(origin, s) <==> states[n + 1].session.value.cursor <= i
  {
    RunKeeps(cfg, states, actions, n);
    ConnectAtEdge(cfg, OriginAt(states, actions, n), states[n]);
  }

  lemma ConnectAtEdge(cfg: Config, origin: Lsn, s: System)
    requires LogOk(s.log) && SlotOk(origin, s) && StartLsn(s.spool.checkpoint, s.slot).Some?
    ensures var c := DoConnect(s).session.value.cursor;
      forall i | 0 <= i < |s.log| :: s.log[i].Position() > Edge(origin, s) <==> c <= i
  {
    var c := FirstPast(s.log, Edge(origin, s));
    assert DoConnect(s).session.value.cursor == c;
    if c < |s.log| {
      PositionsAround(s.log, c);
    }
  }
}
