/**
 Exactly when a replication slot may be dropped and created again: the start rule prefers the spool's checkpoint,
 but the server starts at the new slot's confirmed position when that is further on.
 */
module SlotReplacement {
  import opened Basics
  import opened Timestamps
  import opened SpoolState
  import opened SpoolCapture
  import opened StateMachines
  import opened Capture
  import opened CaptureRuns

  // ----- Runs from action sequences -----

  /** Actions about which the environment promises nothing. */
  ghost predicate Free(actions: seq<Action>) {
    forall i | 0 <= i < |actions| :: !actions[i].ServerAppends? && !actions[i].Elsewhere?
  }

  ghost function StatesOf(cfg: Config, s: System, actions: seq<Action>): seq<System> {
    seq(|actions| + 1, i requires 0 <= i < |actions| + 1 => Steps(cfg, s, actions[..i]))
  }

  lemma StatesAreRun(cfg: Config, s: System, actions: seq<Action>)
    requires s.spool == EMPTY && s.session == None && s.sent == [] && LogOk(s.log) && Free(actions)
    ensures IsRun(cfg, StatesOf(cfg, s, actions), actions)
  {
    var states := StatesOf(cfg, s, actions);
    assert actions[..0] == [] && states[0] == s;
    forall i | 0 <= i < |actions|
      ensures Possible(states[i], actions[i]) && states[i + 1] == Do(cfg, states[i], actions[i]) {
      assert actions[..i + 1][..i] == actions[..i] && actions[..i + 1][i] == actions[i];
    }
  }

  // ----- An empty transaction moves the checkpoint -----

  const RECEIVE := InSession(Receive)

  function Persisting(clock: nat -> Time): Action {
    InSession(PersistBatch(clock, true))
  }

  function EmptyAt(xid: nat, end: Lsn): Item {
    Transaction(xid, [], end, end, 0)
  }

  function EmptyBatch(xid: nat, end: Lsn): CommittedBatch {
    CommittedBatch(CommitInfo(xid, end, end, 0), [])
  }

  lemma PersistEmpty(h: Hash, s: Spool, xid: nat, end: Lsn, clock: nat -> Time)
    requires s.checkpoint < end
    ensures Persist(h, s, EmptyBatch(xid, end), clock) == Ok(Persisted(s.(checkpoint := end), PersistResult(0, 0, end)))
  {
  }

  lemma ReceiveBegin(cfg: Config, s: System, i: nat, xid: nat, end: Lsn, durable: Lsn)
    requires i < |s.log| && s.log[i] == EmptyAt(xid, end) && s.session == Some(Session(i, 0, IDLE, durable, Streaming))
    ensures Do(cfg, s, RECEIVE) == s.(session := Some(Session(i, 1, Machine(true, xid, [], 0), durable, Streaming)))
  {
    assert s.log[i].Wire() == [Begin(xid), Commit(end, end, 0)];
  }

  lemma ReceiveCommit(cfg: Config, s: System, i: nat, xid: nat, end: Lsn, durable: Lsn)
    requires i < |s.log| && s.log[i] == EmptyAt(xid, end)
    requires s.session == Some(Session(i, 1, Machine(true, xid, [], 0), durable, Streaming))
    ensures Do(cfg, s, RECEIVE) == s.(session := Some(Session(i + 1, 0, IDLE, durable, Holding(EmptyBatch(xid, end)))))
  {
    assert s.log[i].Wire() == [Begin(xid), Commit(end, end, 0)];
    assert Stamp([], CommitInfo(xid, end, end, 0)) == [];
  }

  /** Receiving and persisting an empty transaction. */
  lemma TakeEmpty(cfg: Config, s: System, i: nat, xid: nat, end: Lsn, durable: Lsn, clock: nat -> Time)
    requires i < |s.log| && s.log[i] == EmptyAt(xid, end) && s.session == Some(Session(i, 0, IDLE, durable, Streaming))
    requires s.spool.checkpoint < end
    ensures Steps(cfg, s, [RECEIVE, RECEIVE, Persisting(clock)])
         == s.(spool := s.spool.(checkpoint := end), session := Some(Session(i + 1, 0, IDLE, durable, Owing(end))))
  {
    var s1 := s.(session := Some(Session(i, 1, Machine(true, xid, [], 0), durable, Streaming)));
    var s2 := s.(session := Some(Session(i + 1, 0, IDLE, durable, Holding(EmptyBatch(xid, end)))));
    ReceiveBegin(cfg, s, i, xid, end, durable);
    ReceiveCommit(cfg, s1, i, xid, end, durable);
    PersistEmpty(cfg.hash, s2.spool, xid, end, clock);
    OneStep(cfg, s, RECEIVE);
    StepsThen(cfg, s, [RECEIVE], [RECEIVE]);
    OneStep(cfg, s1, RECEIVE);
    assert [RECEIVE] + [RECEIVE] == [RECEIVE, RECEIVE];
    StepsThen(cfg, s, [RECEIVE, RECEIVE], [Persisting(clock)]);
    OneStep(cfg, s2, Persisting(clock));
    assert [RECEIVE, RECEIVE] + [Persisting(clock)] == [RECEIVE, RECEIVE, Persisting(clock)];
  }

  // ----- A slot ahead of the spool loses an event -----

  /** The configuration accepts this payload as the only event of a transaction. */
  ghost predicate AcceptsAlone(cfg: Config, content: Bytes) {
    cfg.maxEvents > 0 && |content| <= cfg.maxBytes && cfg.validate(content, cfg.maxEventBytes).Some?
  }

  function EventAt(cfg: Config, content: Bytes, xid: nat, end: Lsn): Item {
    Transaction(xid, [Logical(cfg.prefix, true, content, end)], end, end, 0)
  }

  lemma EventContributes(cfg: Config, content: Bytes, xid: nat, end: Lsn)
    requires AcceptsAlone(cfg, content)
    ensures |ItemEvents(cfg, EventAt(cfg, content, xid, end))| == 1
  {
    var w := EventAt(cfg, content, xid, end).Wire();
    assert w == [Begin(xid), Logical(cfg.prefix, true, content, end), Commit(end, end, 0)];
    assert Captures(cfg, w, 1, 1) == [];
  }

  /** An empty transaction at the checkpoint, one with an event under the new slot, an empty one past it. */
  function Log(cfg: Config, content: Bytes, c: Lsn, slot: Slot): seq<Item> {
    [EmptyAt(1, c), EventAt(cfg, content, 2, c + 1), EmptyAt(3, Max(slot.confirmed, slot.restart) + 1)]
  }

  function Begins(cfg: Config, content: Bytes, c: Lsn, slot: Slot): System {
    System(Log(cfg, content, c, slot), Slot(1, 1), EMPTY, None, [])
  }

  /** Capture the first transaction, replace the slot, capture again. */
  function Losing(slot: Slot, clock: nat -> Time): seq<Action> {
    [Connect, RECEIVE, RECEIVE, Persisting(clock), EndSession,
     ReplaceSlot(slot), Connect, RECEIVE, RECEIVE, Persisting(clock)]
  }

  lemma FirstHalf(cfg: Config, content: Bytes, c: Lsn, slot: Slot, clock: nat -> Time)
    requires 2 <= c
    ensures var s := Begins(cfg, content, c, slot);
      Steps(cfg, s, [Connect, RECEIVE, RECEIVE, Persisting(clock)])
      == s.(spool := EMPTY.(checkpoint := c), session := Some(Session(1, 0, IDLE, 1, Owing(c))))
  {
    var s := Begins(cfg, content, c, slot);
    OneStep(cfg, s, Connect);
    assert FirstPast(s.log, 1) == 0;
    var s1 := s.(session := Some(Session(0, 0, IDLE, 1, Streaming)));
    TakeEmpty(cfg, s1, 0, 1, c, 1, clock);
    StepsThen(cfg, s, [Connect], [RECEIVE, RECEIVE, Persisting(clock)]);
    assert [Connect] + [RECEIVE, RECEIVE, Persisting(clock)] == [Connect, RECEIVE, RECEIVE, Persisting(clock)];
  }

  lemma Reconnects(cfg: Config, content: Bytes, c: Lsn, slot: Slot)
    requires 2 <= c < slot.confirmed
    ensures var s := Begins(cfg, content, c, slot).(
        spool := EMPTY.(checkpoint := c), session := Some(Session(1, 0, IDLE, 1, Owing(c))));
      Steps(cfg, s, [EndSession, ReplaceSlot(slot), Connect])
        == s.(slot := slot, session := Some(Session(2, 0, IDLE, c, Streaming)))
  {
    var s := Begins(cfg, content, c, slot).(
        spool := EMPTY.(checkpoint := c), session := Some(Session(1, 0, IDLE, 1, Owing(c))));
    var s1 := s.(session := None);
    var s2 := s1.(slot := slot);
    assert s.log[2].Position() > slot.confirmed && s.log[1].Position() <= slot.confirmed;
    assert FirstPast(s.log, slot.confirmed) == 2;
    OneStep(cfg, s, EndSession);
    StepsThen(cfg, s, [EndSession], [ReplaceSlot(slot)]);
    OneStep(cfg, s1, ReplaceSlot(slot));
    assert [EndSession] + [ReplaceSlot(slot)] == [EndSession, ReplaceSlot(slot)];
    StepsThen(cfg, s, [EndSession, ReplaceSlot(slot)], [Connect]);
    OneStep(cfg, s2, Connect);
    assert [EndSession, ReplaceSlot(slot)] + [Connect] == [EndSession, ReplaceSlot(slot), Connect];
  }

  /** The run ends with an empty spool whose checkpoint has passed the transaction with the event. */
  lemma LosingRun(cfg: Config, content: Bytes, c: Lsn, slot: Slot, clock: nat -> Time)
    requires 2 <= c < slot.confirmed
    ensures var t := Steps(cfg, Begins(cfg, content, c, slot), Losing(slot, clock));
      t.log == Log(cfg, content, c, slot) && t.spool == EMPTY.(checkpoint := Max(slot.confirmed, slot.restart) + 1)
  {
    var s := Begins(cfg, content, c, slot);
    var first, middle, last := [Connect, RECEIVE, RECEIVE, Persisting(clock)],
      [EndSession, ReplaceSlot(slot), Connect], [RECEIVE, RECEIVE, Persisting(clock)];
    var s1 := s.(spool := EMPTY.(checkpoint := c), session := Some(Session(1, 0, IDLE, 1, Owing(c))));
    var s2 := s1.(slot := slot, session := Some(Session(2, 0, IDLE, c, Streaming)));
    FirstHalf(cfg, content, c, slot, clock);
    Reconnects(cfg, content, c, slot);
    TakeEmpty(cfg, s2, 2, 3, Max(slot.confirmed, slot.restart) + 1, c, clock);
    StepsThen(cfg, s, first, middle);
    StepsThen(cfg, s, first + middle, last);
    assert first + middle + last == Losing(slot, clock);
  }

  lemma LosingHistory(cfg: Config, content: Bytes, c: Lsn, slot: Slot)
    requires 2 <= c < slot.confirmed && AcceptsAlone(cfg, content)
    ensures var log := Log(cfg, content, c, slot);
      |History(cfg, log, 1, Max(slot.confirmed, slot.restart) + 1, |log|)| == 1
  {
    var log, end := Log(cfg, content, c, slot), Max(slot.confirmed, slot.restart) + 1;
    var parts := Shares(cfg, log, 1, end);
    EmptyInert(cfg, log[0]);
    EventContributes(cfg, content, 2, c + 1);
    EmptyInert(cfg, log[2]);
    assert parts[0] == [] && |parts[1]| == 1 && parts[2] == [];
    OnlyTheSecond(parts);
  }

  lemma OnlyTheSecond(parts: seq<seq<CapturedEvent>>)
    requires |parts| == 3 && parts[0] == [] && parts[2] == []
    ensures Gather(parts, 3) == parts[1]
  {
    assert Gather(parts, 1) == Gather(parts, 0) + parts[0] == [];
    assert Gather(parts, 2) == Gather(parts, 1) + parts[1] == parts[1];
  }

  // ----- Exactly -----

  /** The event rows are the first occurrences of the history up to the checkpoint, at the end of the run. */
  ghost predicate Refined(cfg: Config, states: seq<System>, actions: seq<Action>)
    requires |states| == |actions| + 1
  {
    var s := states[|actions|];
    Represents(s.spool.events, History(cfg, s.log, OriginAt(states, actions, |actions|), s.spool.checkpoint, |s.log|))
  }

  /** The only replacements put this slot in place when the spool stands at this checkpoint. */
  ghost predicate ReplacesOnly(states: seq<System>, actions: seq<Action>, c: Lsn, slot: Slot)
    requires |states| == |actions| + 1
  {
    forall i | 0 <= i < |actions| && actions[i].ReplaceSlot? ::
      actions[i].slot == slot && states[i].spool.checkpoint == c
  }

  lemma {:induction false} OriginStays(states: seq<System>, actions: seq<Action>, c: Lsn, slot: Slot, n: nat)
    requires |states| == |actions| + 1 && ReplacesOnly(states, actions, c, slot) && c != 0 && n <= |actions|
    ensures OriginAt(states, actions, n) == Origin(states[0].slot)
  {
    if n != 0 {
      OriginStays(states, actions, c, slot, n - 1);
    }
  }

  lemma LosingReplaces(cfg: Config, content: Bytes, c: Lsn, slot: Slot, clock: nat -> Time)
    requires 2 <= c < slot.confirmed
    ensures ReplacesOnly(StatesOf(cfg, Begins(cfg, content, c, slot), Losing(slot, clock)),
                         Losing(slot, clock), c, slot)
  {
    var s, actions := Begins(cfg, content, c, slot), Losing(slot, clock);
    FirstHalf(cfg, content, c, slot, clock);
    StepsPush(cfg, s, [Connect, RECEIVE, RECEIVE, Persisting(clock)], EndSession);
    assert actions[..5] == [Connect, RECEIVE, RECEIVE, Persisting(clock)] + [EndSession];
    assert forall i | 0 <= i < |actions| && actions[i].ReplaceSlot? :: i == 5;
  }

  lemma LosingNotRefined(cfg: Config, content: Bytes, c: Lsn, slot: Slot, clock: nat -> Time)
    requires 2 <= c < slot.confirmed && AcceptsAlone(cfg, content)
    ensures !Refined(cfg, StatesOf(cfg, Begins(cfg, content, c, slot), Losing(slot, clock)), Losing(slot, clock))
  {
    var actions := Losing(slot, clock);
    var states := StatesOf(cfg, Begins(cfg, content, c, slot), actions);
    var log := Log(cfg, content, c, slot);
    LosingRun(cfg, content, c, slot, clock);
    assert actions[..|actions|] == actions && states[0] == Begins(cfg, content, c, slot) by {
      assert actions[..0] == [];
    }
    LosingReplaces(cfg, content, c, slot, clock);
    OriginStays(states, actions, c, slot, |actions|);
    LosingHistory(cfg, content, c, slot);
    var past := History(cfg, log, 1, Max(slot.confirmed, slot.restart) + 1, |log|);
    var _ := FirstOf(past, |past|, 0);
  }

  /** A run, with one replacement by a slot ahead of the spool, after which an event is missing for good. */
  lemma ReplacedSlotLoses(cfg: Config, content: Bytes, c: Lsn, slot: Slot)
    returns (states: seq<System>, actions: seq<Action>)
    requires 2 <= c < slot.confirmed && AcceptsAlone(cfg, content)
    ensures IsRun(cfg, states, actions) && ReplacesOnly(states, actions, c, slot) && !Refined(cfg, states, actions)
  {
    var clock: nat -> Time := _ => 0;
    var s := Begins(cfg, content, c, slot);
    actions := Losing(slot, clock);
    states := StatesOf(cfg, s, actions);
    assert LogOk(s.log);
    StatesAreRun(cfg, s, actions);
    LosingReplaces(cfg, content, c, slot, clock);
    LosingNotRefined(cfg, content, c, slot, clock);
  }

  /** A checkpoint lies past an initial position that is not zero, so no run reaches checkpoint 1. */
  lemma {:induction false} NoneAtOne(cfg: Config, states: seq<System>, actions: seq<Action>, slot: Slot, n: nat)
    requires IsRun(cfg, states, actions) && ValidatorOk(cfg) && ReplacesOnly(states, actions, 1, slot) && n <= |actions|
    ensures forall i | 0 <= i < n :: !actions[i].ReplaceSlot?
  {
    if n != 0 {
      NoneAtOne(cfg, states, actions, slot, n - 1);
      var before, first := states[..n], actions[..n - 1];
      assert IsRun(cfg, before, first) && SlotsBehind(before, first);
      RunKeeps(cfg, before, first, n - 1);
      assert states[n - 1].spool.checkpoint != 1;
    }
  }

  /**
   The guard that the start rule lacks, and its exactness: replacing slots by `slot` at checkpoint `c` keeps capture
   refinement on every run if and only if the slot's confirmed position is not past the start position it leads to
   (or `c` is 1, a checkpoint that no run reaches).
   */
  lemma ReplacementExactly(cfg: Config, content: Bytes, c: Lsn, slot: Slot)
    requires ValidatorOk(cfg) && AcceptsAlone(cfg, content)
    ensures (forall states, actions | IsRun(cfg, states, actions) && ReplacesOnly(states, actions, c, slot) ::
        Refined(cfg, states, actions))
      <==> c == 1 || NotAhead(c, slot)
  {
    if c == 1 || NotAhead(c, slot) {
      forall states, actions | IsRun(cfg, states, actions)
        && ReplacesOnly(states, actions, c, slot) ensures Refined(cfg, states, actions) {
        if c == 1 {
          NoneAtOne(cfg, states, actions, slot, |actions|);
        }
        CaptureRefinement(cfg, states, actions, |actions|);
      }
    } else {
      var states, actions := ReplacedSlotLoses(cfg, content, c, slot);
    }
  }
}
