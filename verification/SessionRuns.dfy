/** The session code refines the capture protocol: what RunOnce does to the spool and the slot is a run of its steps. */
module SessionRuns {
  import opened Basics
  import opened Timestamps
  import opened SpoolState
  import opened SpoolCapture
  import opened SpoolRuns
  import opened StateMachines
  import opened DiskGuard
  import opened Capture
  import opened Provenance
  import opened CaptureRuns
  import opened Replication

  // ----- What the server sends -----

  /** The next message of the server's stream: message `offset` of item `cursor`. */
  datatype Pos = Pos(cursor: nat, offset: nat)

  /** A server may leave out transactions that have nothing to send. */
  ghost predicate SkipsTo(log: seq<Item>, p: Pos, q: Pos) {
    || q == p
    || (p.offset == 0 && q.offset == 0 && p.cursor <= q.cursor <= |log|
        && forall i | p.cursor <= i < q.cursor :: log[i].Transaction? && log[i].body == [])
  }

  ghost predicate Readable(log: seq<Item>, p: Pos) {
    p.cursor < |log| && p.offset < |log[p.cursor].Wire()|
  }

  function NextPos(log: seq<Item>, p: Pos): Pos
    requires p.cursor < |log|
  {
    if p.offset + 1 < |log[p.cursor].Wire()| then Pos(p.cursor, p.offset + 1) else Pos(p.cursor + 1, 0)
  }

  ghost predicate SendsFrom(log: seq<Item>, msg: Message, p: Pos, r: Pos, q: Pos) {
    SkipsTo(log, p, r) && Readable(log, r) && msg == log[r.cursor].Wire()[r.offset] && q == NextPos(log, r)
  }

  /** A turn that receives a message receives the next one; any other leaves the stream where it is. */
  ghost predicate Sends(log: seq<Item>, turn: Turn, p: Pos, q: Pos) {
    if turn.incoming.Data? then exists r :: SendsFrom(log, turn.incoming.msg, p, r, q) else q == p
  }

  // ----- What else happens -----

  /** The server's log grows, it gets to a status update, or another part of the system works on the spool. */
  predicate Ambient(actions: seq<Action>) {
    forall i | 0 <= i < |actions| :: actions[i].ServerAppends? || actions[i].ServerConfirms? || actions[i].Elsewhere?
  }

  function OpsOf(actions: seq<Action>): seq<Op> {
    if |actions| == 0 then []
    else
      var last := actions[|actions| - 1];
      OpsOf(actions[..|actions| - 1]) + if last.Elsewhere? then [last.op] else []
  }

  /** What the environment promises holds of each action where it happens; no slot is replaced. */
  ghost predicate Allowed(cfg: Config, s: System, actions: seq<Action>) {
    forall i: nat | i < |actions| :: AllowedAt(cfg, s, actions, i)
  }

  ghost predicate AllowedAt(cfg: Config, s: System, actions: seq<Action>, i: nat)
    requires i < |actions|
  {
    Possible(Steps(cfg, s, actions[..i]), actions[i]) && !actions[i].ReplaceSlot?
  }

  lemma AllowedLeft(cfg: Config, s: System, first: seq<Action>, second: seq<Action>, i: nat)
    requires i < |first| && AllowedAt(cfg, s, first, i)
    ensures AllowedAt(cfg, s, first + second, i)
  {
    assert (first + second)[..i] == first[..i];
  }

  lemma AllowedRight(cfg: Config, s: System, first: seq<Action>, second: seq<Action>, j: nat)
    requires j < |second| && AllowedAt(cfg, Steps(cfg, s, first), second, j)
    ensures AllowedAt(cfg, s, first + second, |first| + j)
  {
    StepsThen(cfg, s, first, second[..j]);
    assert (first + second)[..|first| + j] == first + second[..j];
    assert (first + second)[|first| + j] == second[j];
  }

  lemma AllowedThen(cfg: Config, s: System, first: seq<Action>, second: seq<Action>)
    requires Allowed(cfg, s, first) && Allowed(cfg, Steps(cfg, s, first), second)
    ensures Allowed(cfg, s, first + second)
  {
    forall i: nat | i < |first + second| ensures AllowedAt(cfg, s, first + second, i) {
      if i < |first| {
        AllowedLeft(cfg, s, first, second, i);
      } else {
        AllowedRight(cfg, s, first, second, i - |first|);
      }
    }
  }

  ghost predicate Reaches(cfg: Config, s: System, actions: seq<Action>, t: System) {
    Allowed(cfg, s, actions) && Steps(cfg, s, actions) == t
  }

  lemma ReachesThen(cfg: Config, s: System, first: seq<Action>, t: System, second: seq<Action>, r: System)
    requires Reaches(cfg, s, first, t) && Reaches(cfg, t, second, r)
    ensures Reaches(cfg, s, first + second, r)
  {
    AllowedThen(cfg, s, first, second);
    StepsThen(cfg, s, first, second);
  }

  lemma OursAllowed(cfg: Config, s: System, actions: seq<Action>)
    requires Ours(actions)
    ensures Allowed(cfg, s, actions)
  {
  }

  /** Meanwhile the session and what it sent stay as they are, and the spool sees the others' operations. */
  lemma {:induction false} AmbientSteps(cfg: Config, s: System, actions: seq<Action>)
    requires Ambient(actions)
    ensures var t := Steps(cfg, s, actions);
      && t.session == s.session && t.sent == s.sent && s.log <= t.log
      && t.spool == RunOps(cfg.hash, s.spool, OpsOf(actions))
  {
    if |actions| != 0 {
      var front, a := actions[..|actions| - 1], actions[|actions| - 1];
      AmbientSteps(cfg, s, front);
      if a.Elsewhere? {
        RunOpsPush(cfg.hash, s.spool, OpsOf(front), a.op);
      } else {
        assert OpsOf(front) + [] == OpsOf(front);
      }
    }
  }

  // ----- One turn -----

  /** Actions of the daemon alone. */
  ghost predicate Ours(actions: seq<Action>) {
    forall i | 0 <= i < |actions| :: actions[i].Connect? || actions[i].InSession? || actions[i].EndSession?
  }

  function Streams(sys: System, a: Snapshot, p: Pos): System {
    sys.(spool := a.spool, sent := a.acks,
         session := Some(Session(p.cursor, p.offset, a.machine, a.durable, Streaming)))
  }

  function Stopped(sys: System, a: Snapshot): System {
    sys.(spool := a.spool, sent := a.acks, session := None)
  }

  /** The protocol state that a snapshot stands for. */
  function Stands(sys: System, a: Snapshot, p: Pos): System {
    if a.end.Some? then Stopped(sys, a) else Streams(sys, a, p)
  }

  const SKIP := InSession(SkipEmpty)

  lemma {:induction false} SkipSteps(cfg: Config, sys: System, a: Snapshot, p: Pos, q: Pos)
    returns (actions: seq<Action>)
    requires SkipsTo(sys.log, p, q)
    ensures Ours(actions) && Steps(cfg, Streams(sys, a, p), actions) == Streams(sys, a, q)
    decreases if q.cursor >= p.cursor then q.cursor - p.cursor else 0
  {
    if q == p {
      actions := [];
    } else {
      var before := Pos(q.cursor - 1, 0);
      actions := SkipSteps(cfg, sys, a, p, before);
      StepsPush(cfg, Streams(sys, a, p), actions, SKIP);
      SkipOne(cfg, sys, a, q);
      actions := actions + [SKIP];
    }
  }

  lemma SkipOne(cfg: Config, sys: System, a: Snapshot, q: Pos)
    requires 0 < q.cursor <= |sys.log| && q.offset == 0
    requires sys.log[q.cursor - 1].Transaction? && sys.log[q.cursor - 1].body == []
    ensures Do(cfg, Streams(sys, a, Pos(q.cursor - 1, 0)), SKIP) == Streams(sys, a, q)
  {
  }

  lemma QuietTurn(cfg: Config, disk: GuardConfig, sys: System, turn: Turn, a: Snapshot, b: Snapshot, p: Pos)
    returns (actions: seq<Action>)
    requires Turns(cfg, disk, turn, a, b) && (turn.incoming.Data? ==> b.end == Some(Paused))
    ensures Ours(actions) && Steps(cfg, Streams(sys, a, p), actions) == Stands(sys, b, p)
  {
    var s := Streams(sys, a, p);
    if b.end.Some? {
      actions := [EndSession];
      OneStep(cfg, s, EndSession);
    } else if Replies(turn.incoming) {
      actions := [InSession(StatusUpdate)];
      OneStep(cfg, s, InSession(StatusUpdate));
    } else {
      actions := [];
      assert a.acks + [] == a.acks;
    }
  }

  /** Receiving one message, by what the machine makes of it. */
  lemma Receives(cfg: Config, sys: System, a: Snapshot, r: Pos)
    requires Readable(sys.log, r)
    ensures var s, q := Streams(sys, a, r), NextPos(sys.log, r);
      Do(cfg, s, InSession(Receive)) ==
      match Consume(cfg, a.machine, sys.log[r.cursor].Wire()[r.offset])
      case Fail(_) => s.(session := None)
      case Next(m) => s.(session := Some(Session(q.cursor, q.offset, m, a.durable, Streaming)))
      case Emit(m, batch) => s.(session := Some(Session(q.cursor, q.offset, m, a.durable, Holding(batch))))
  {
  }

  function Holds(sys: System, a: Snapshot, q: Pos, m: Machine, batch: CommittedBatch): System {
    sys.(spool := a.spool, sent := a.acks, session := Some(Session(q.cursor, q.offset, m, a.durable, Holding(batch))))
  }

  /** After the message: persist and acknowledge, as far as the turn got. */
  lemma FinishesBatch(cfg: Config, disk: GuardConfig, sys: System, turn: Turn, a: Snapshot, b: Snapshot, q: Pos,
                      m: Machine, batch: CommittedBatch)
    returns (actions: seq<Action>)
    requires Turns(cfg, disk, turn, a, b) && turn.incoming.Data? && b.end != Some(Paused) && Inv(cfg.hash, a.spool)
    requires Consume(cfg, a.machine, turn.incoming.msg) == Emit(m, batch)
    ensures Ours(actions) && Steps(cfg, Holds(sys, a, q, m, batch), actions) == Stands(sys, b, q)
  {
    TurnFinishes(cfg, disk, turn, a, b, m, batch);
    if b.done.None? {
      actions := Drops(cfg, sys, turn, a, b, q, m, batch);
    } else {
      actions := Persists(cfg, sys, turn.clock, a, b, q, m, batch);
    }
  }

  /** What a turn that completed a batch did with it. */
  lemma TurnFinishes(cfg: Config, disk: GuardConfig, turn: Turn, a: Snapshot, b: Snapshot, m: Machine,
                     batch: CommittedBatch)
    requires Turns(cfg, disk, turn, a, b) && turn.incoming.Data? && b.end != Some(Paused) && Inv(cfg.hash, a.spool)
    requires Consume(cfg, a.machine, turn.incoming.msg) == Emit(m, batch)
    ensures var p := Persist(cfg.hash, a.spool, batch, turn.clock);
      if b.done.None? then
        b.end.Some? && b.spool == a.spool && b.acks == a.acks && (p.Err? || !turn.commitOk)
      else
        && p.Ok? && b.spool == p.value.spool && p.value.result.durable == b.spool.checkpoint == b.durable
        && if b.end.Some? then b.acks == a.acks else b.acks == a.acks + [b.durable] && b.machine == m
  {
    PersistVerdict(cfg.hash, a.spool, batch, turn.clock);
  }

  lemma Drops(cfg: Config, sys: System, turn: Turn, a: Snapshot, b: Snapshot, q: Pos, m: Machine, batch: CommittedBatch)
    returns (actions: seq<Action>)
    requires b.end.Some? && b.spool == a.spool && b.acks == a.acks
    requires Persist(cfg.hash, a.spool, batch, turn.clock).Err? || !turn.commitOk
    ensures Ours(actions) && Steps(cfg, Holds(sys, a, q, m, batch), actions) == Stands(sys, b, q)
  {
    var persist := InSession(PersistBatch(turn.clock, turn.commitOk));
    OneStep(cfg, Holds(sys, a, q, m, batch), persist);
    actions := [persist];
  }

  lemma Persists(cfg: Config, sys: System, clock: nat -> Time, a: Snapshot, b: Snapshot, q: Pos, m: Machine,
                 batch: CommittedBatch)
    returns (actions: seq<Action>)
    requires var p := Persist(cfg.hash, a.spool, batch, clock);
      p.Ok? && b.spool == p.value.spool && p.value.result.durable == b.spool.checkpoint == b.durable
    requires if b.end.Some? then b.acks == a.acks else b.acks == a.acks + [b.durable] && b.machine == m
    ensures Ours(actions) && Steps(cfg, Holds(sys, a, q, m, batch), actions) == Stands(sys, b, q)
  {
    var s, persist := Holds(sys, a, q, m, batch), InSession(PersistBatch(clock, true));
    var last := if b.end.Some? then EndSession else InSession(Acknowledge);
    OneStep(cfg, s, persist);
    StepsPush(cfg, s, [persist], last);
    actions := [persist] + [last];
  }

  lemma DataTurn(cfg: Config, disk: GuardConfig, sys: System, turn: Turn, a: Snapshot, b: Snapshot, r: Pos)
    returns (actions: seq<Action>)
    requires Turns(cfg, disk, turn, a, b) && turn.incoming.Data? && b.end != Some(Paused) && Inv(cfg.hash, a.spool)
    requires Readable(sys.log, r) && turn.incoming.msg == sys.log[r.cursor].Wire()[r.offset]
    ensures Ours(actions) && Steps(cfg, Streams(sys, a, r), actions) == Stands(sys, b, NextPos(sys.log, r))
  {
    var s, receive := Streams(sys, a, r), InSession(Receive);
    Receives(cfg, sys, a, r);
    OneStep(cfg, s, receive);
    actions := [receive];
    var step := Consume(cfg, a.machine, turn.incoming.msg);
    if step.Emit? {
      var more := FinishesBatch(cfg, disk, sys, turn, a, b, NextPos(sys.log, r), step.machine, step.batch);
      StepsThen(cfg, s, [receive], more);
      actions := [receive] + more;
    }
  }

  lemma TurnRefines(cfg: Config, disk: GuardConfig, sys: System, turn: Turn, a: Snapshot, b: Snapshot, p: Pos, q: Pos)
    returns (actions: seq<Action>)
    requires Turns(cfg, disk, turn, a, b) && Inv(cfg.hash, a.spool) && Sends(sys.log, turn, p, q)
    ensures Ours(actions) && Steps(cfg, Streams(sys, a, p), actions) == Stands(sys, b, q)
  {
    if turn.incoming.Data? && b.end != Some(Paused) {
      var r :| SendsFrom(sys.log, turn.incoming.msg, p, r, q);
      var skips := SkipSteps(cfg, sys, a, p, r);
      var rest := DataTurn(cfg, disk, sys, turn, a, b, r);
      StepsThen(cfg, Streams(sys, a, p), skips, rest);
      actions := skips + rest;
    } else {
      actions := QuietTurn(cfg, disk, sys, turn, a, b, p);
    }
  }

  // ----- A whole session -----

  /** The environment of a session: what happens before each turn, the protocol states that leads to, and the stream. */
  datatype Environment = Environment(before: seq<seq<Action>>, worlds: seq<System>, at: seq<Pos>)

  /** Before turn i the environment acts, and the turn receives the next message of the log as it stands then. */
  ghost predicate ServesTurn(cfg: Config, turns: seq<Turn>, trail: seq<Snapshot>, v: Environment, i: nat)
    requires i < |turns| == |v.before| && i < |trail| && |v.worlds| == |v.at| == |turns| + 1
  {
    var s := Streams(v.worlds[i], trail[i], v.at[i]);
    && Ambient(v.before[i]) && Allowed(cfg, s, v.before[i]) && OpsOf(v.before[i]) == turns[i].others
    && v.worlds[i + 1] == Steps(cfg, s, v.before[i])
    && Sends(v.worlds[i + 1].log, turns[i], v.at[i], v.at[i + 1])
  }

  ghost predicate Serves(cfg: Config, sys: System, turns: seq<Turn>, trail: seq<Snapshot>, v: Environment) {
    && |turns| == |v.before| && |v.worlds| == |v.at| == |turns| + 1 && |trail| <= |turns| + 1
    && v.worlds[0] == sys && v.at[0] == FirstPos(sys)
    && forall i: nat | i + 1 < |trail| :: ServesTurn(cfg, turns, trail, v, i)
  }

  /** Where the server starts a session that asks for what the start rule says. */
  function FirstPos(sys: System): Pos {
    match StartLsn(sys.spool.checkpoint, sys.slot)
    case None => Pos(0, 0)
    case Some(start) => Pos(FirstPast(sys.log, Max(start, sys.slot.confirmed)), 0)
  }

  /** The others' work, then the turn. */
  lemma InterleavedTurn(cfg: Config, disk: GuardConfig, turns: seq<Turn>, trail: seq<Snapshot>, v: Environment, n: nat)
    returns (actions: seq<Action>)
    requires IsTrail(cfg, disk, turns, trail) && n + 1 < |trail| && Inv(cfg.hash, trail[n].spool)
    requires |turns| == |v.before| && |v.worlds| == |v.at| == |turns| + 1 && ServesTurn(cfg, turns, trail, v, n)
    ensures Reaches(cfg, Streams(v.worlds[n], trail[n], v.at[n]), actions,
                    Stands(v.worlds[n + 1], trail[n + 1], v.at[n + 1]))
    ensures v.worlds[n].log <= v.worlds[n + 1].log
  {
    var s, t := Streams(v.worlds[n], trail[n], v.at[n]), v.worlds[n + 1];
    var a := Worked(cfg, turns[n], trail[n]);
    AmbientSteps(cfg, s, v.before[n]);
    assert t == Streams(t, a, v.at[n]);
    TurnIs(cfg, disk, turns, trail, n);
    RunsEvolve(cfg.hash, trail[n].spool, turns[n].others);
    var more := TurnRefines(cfg, disk, t, turns[n], a, trail[n + 1], v.at[n], v.at[n + 1]);
    OursAllowed(cfg, t, more);
    ReachesThen(cfg, s, v.before[n], t, more, Stands(t, trail[n + 1], v.at[n + 1]));
    actions := v.before[n] + more;
  }

  /** Only the last turn of a session ends it. */
  lemma TurnIs(cfg: Config, disk: GuardConfig, turns: seq<Turn>, trail: seq<Snapshot>, n: nat)
    requires IsTrail(cfg, disk, turns, trail) && n + 1 < |trail|
    ensures trail[n].end.None? && Turns(cfg, disk, turns[n], Worked(cfg, turns[n], trail[n]), trail[n + 1])
  {
    assert FollowsAt(cfg, disk, turns, trail, n);
  }

  lemma TrailInv(u: Setup, start: Lsn, trail: seq<Snapshot>, n: nat)
    requires Inv(u.cfg.hash, u.spool) && StartLsn(u.spool.checkpoint, u.slot) == Some(start)
    requires IsTrail(u.cfg, u.disk, u.turns, trail) && trail[0] == Opening(u.spool, u.acks, start) && n < |trail|
    ensures Inv(u.cfg.hash, trail[n].spool)
  {
    TrailProgress(u, start, trail, n);
  }

  /** The first n turns, with everything in between, are steps of the protocol. */
  ghost predicate RefinedBy(cfg: Config, sys: System, trail: seq<Snapshot>, v: Environment, n: nat,
                            actions: seq<Action>)
    requires n < |trail| && n < |v.worlds| == |v.at|
  {
    && Reaches(cfg, Streams(sys, trail[0], v.at[0]), actions, Stands(v.worlds[n], trail[n], v.at[n]))
    && sys.log <= v.worlds[n].log
  }

  lemma RefinedMore(u: Setup, sys: System, trail: seq<Snapshot>, v: Environment, n: nat, before: seq<Action>)
    returns (actions: seq<Action>)
    requires IsTrail(u.cfg, u.disk, u.turns, trail) && n + 1 < |trail| && Inv(u.cfg.hash, trail[n].spool)
    requires Serves(u.cfg, sys, u.turns, trail, v) && RefinedBy(u.cfg, sys, trail, v, n, before)
    ensures RefinedBy(u.cfg, sys, trail, v, n + 1, actions)
  {
    TurnIs(u.cfg, u.disk, u.turns, trail, n);
    assert ServesTurn(u.cfg, u.turns, trail, v, n);
    var more := InterleavedTurn(u.cfg, u.disk, u.turns, trail, v, n);
    ReachesThen(u.cfg, Streams(sys, trail[0], v.at[0]), before, Stands(v.worlds[n], trail[n], v.at[n]),
                more, Stands(v.worlds[n + 1], trail[n + 1], v.at[n + 1]));
    actions := before + more;
  }

  lemma {:induction false} TrailRefines(u: Setup, sys: System, start: Lsn, trail: seq<Snapshot>, v: Environment, n: nat)
    returns (actions: seq<Action>)
    requires Inv(u.cfg.hash, u.spool) && StartLsn(u.spool.checkpoint, u.slot) == Some(start)
    requires IsTrail(u.cfg, u.disk, u.turns, trail) && trail[0] == Opening(u.spool, u.acks, start) && n < |trail|
    requires Serves(u.cfg, sys, u.turns, trail, v)
    ensures RefinedBy(u.cfg, sys, trail, v, n, actions)
  {
    if n == 0 {
      actions := [];
    } else {
      var m: nat := n - 1;
      var before := TrailRefines(u, sys, start, trail, v, m);
      TrailInv(u, start, trail, m);
      actions := RefinedMore(u, sys, trail, v, m, before);
      assert m + 1 == n;
    }
  }

  /** The setup of a session that starts in a protocol state. */
  function SetupOf(cfg: Config, disk: GuardConfig, sys: System, turns: seq<Turn>): Setup {
    Setup(cfg, disk, sys.slot, turns, sys.spool, sys.sent)
  }

  /**
   One call of the session code is a sequence of protocol steps: the daemon's own, on a server that sends its log, and
   in between the log's growth, the server's progress and other work on the spool.
   */
  lemma SessionRefines(cfg: Config, disk: GuardConfig, sys: System, turns: seq<Turn>, v: Environment,
                       s: Spool, acks: seq<Lsn>, persisted: seq<CommittedBatch>,
                       trail: seq<Snapshot>, end: SessionEnd)
    returns (actions: seq<Action>)
    requires sys.session == None && Inv(cfg.hash, sys.spool) && Serves(cfg, sys, turns, trail, v)
    requires Ran(SetupOf(cfg, disk, sys, turns), s, acks, persisted, trail, end)
    ensures Allowed(cfg, sys, actions)
    ensures var t := Steps(cfg, sys, actions); t.spool == s && t.sent == acks && t.session == None && sys.log <= t.log
  {
    if trail == [] {
      actions := [];
    } else {
      var start, n := StartLsn(sys.spool.checkpoint, sys.slot).value, |trail| - 1;
      var more := TrailRefines(SetupOf(cfg, disk, sys, turns), sys, start, trail, v, n);
      OneStep(cfg, sys, Connect);
      assert Do(cfg, sys, Connect) == Streams(sys, trail[0], v.at[0]);
      OursAllowed(cfg, sys, [Connect]);
      AllowedThen(cfg, sys, [Connect], more);
      StepsThen(cfg, sys, [Connect], more);
      actions := Ends(cfg, sys, [Connect] + more);
    }
  }

  lemma Ends(cfg: Config, sys: System, actions: seq<Action>) returns (all: seq<Action>)
    requires Allowed(cfg, sys, actions)
    ensures Allowed(cfg, sys, all) && Steps(cfg, sys, all) == Steps(cfg, sys, actions).(session := None)
  {
    StepsPush(cfg, sys, actions, EndSession);
    OursAllowed(cfg, Steps(cfg, sys, actions), [EndSession]);
    AllowedThen(cfg, sys, actions, [EndSession]);
    all := actions + [EndSession];
  }

  // ----- Runs of the code -----

  lemma {:induction false} RunGoesOn(cfg: Config, states: seq<System>, actions: seq<Action>, more: seq<Action>)
    returns (states': seq<System>, actions': seq<Action>)
    requires IsRun(cfg, states, actions) && SlotsBehind(states, actions) && Allowed(cfg, states[|actions|], more)
    ensures IsRun(cfg, states', actions') && SlotsBehind(states', actions')
    ensures states'[|actions'|] == Steps(cfg, states[|actions|], more)
    ensures OriginAt(states', actions', |actions'|) == OriginAt(states, actions, |actions|)
    decreases |more|
  {
    if |more| == 0 {
      states', actions' := states, actions;
    } else {
      var front, a := more[..|more| - 1], more[|more| - 1];
      AllowedFront(cfg, states[|actions|], more);
      states', actions' := RunGoesOn(cfg, states, actions, front);
      RunPush(cfg, states', actions', a);
      states', actions' := states' + [Do(cfg, states'[|actions'|], a)], actions' + [a];
    }
  }

  lemma AllowedFront(cfg: Config, s: System, more: seq<Action>)
    requires Allowed(cfg, s, more) && |more| > 0
    ensures Allowed(cfg, s, more[..|more| - 1])
    ensures Possible(Steps(cfg, s, more[..|more| - 1]), more[|more| - 1]) && !more[|more| - 1].ReplaceSlot?
  {
    var front := more[..|more| - 1];
    assert AllowedAt(cfg, s, more, |more| - 1);
    forall i: nat | i < |front| ensures AllowedAt(cfg, s, front, i) {
      assert AllowedAt(cfg, s, more, i) && front[..i] == more[..i];
    }
  }

  lemma {:induction false} RunPush(cfg: Config, states: seq<System>, actions: seq<Action>, a: Action)
    requires IsRun(cfg, states, actions) && SlotsBehind(states, actions)
    requires Possible(states[|actions|], a) && !a.ReplaceSlot?
    ensures var states', actions' := states + [Do(cfg, states[|actions|], a)], actions + [a];
      && IsRun(cfg, states', actions') && SlotsBehind(states', actions')
      && OriginAt(states', actions', |actions'|) == OriginAt(states, actions, |actions|)
  {
    var states', actions' := states + [Do(cfg, states[|actions|], a)], actions + [a];
    forall i | 0 <= i < |actions'|
      ensures Possible(states'[i], actions'[i]) && states'[i + 1] == Do(cfg, states'[i], actions'[i])
    {
      if i < |actions| {
        assert states'[i] == states[i] && actions'[i] == actions[i];
      }
    }
    OriginPrefix(states, actions, states', actions', |actions|);
  }

  lemma {:induction false} OriginPrefix(states: seq<System>, actions: seq<Action>,
                                        states': seq<System>, actions': seq<Action>, n: nat)
    requires |states| == |actions| + 1 && |states'| == |actions'| + 1 && n <= |actions| <= |actions'|
    requires forall i | 0 <= i <= |actions| :: states'[i] == states[i]
    requires forall i | 0 <= i < |actions| :: actions'[i] == actions[i]
    ensures OriginAt(states', actions', n) == OriginAt(states, actions, n)
  {
    if n != 0 {
      OriginPrefix(states, actions, states', actions', n - 1);
    }
  }

  /**
   So capture refinement holds of the code: take any run of the protocol, and let the session code go on from its
   last state, on a server that sends its log, while the log grows and others work on the spool. The result is again a
   run of the protocol. The spool left behind holds exactly the first occurrences of the protected messages up to its
   checkpoint, and every position sent is durable or the slot's initial one.
   */
  lemma CodeRefinement(cfg: Config, states: seq<System>, actions: seq<Action>, disk: GuardConfig, turns: seq<Turn>,
                       v: Environment, s: Spool, acks: seq<Lsn>, persisted: seq<CommittedBatch>,
                       trail: seq<Snapshot>, end: SessionEnd)
    returns (states': seq<System>, actions': seq<Action>)
    requires IsRun(cfg, states, actions) && SlotsBehind(states, actions) && ValidatorOk(cfg)
    requires states[|actions|].session == None && Serves(cfg, states[|actions|], turns, trail, v)
    requires Ran(SetupOf(cfg, disk, states[|actions|], turns), s, acks, persisted, trail, end)
    ensures IsRun(cfg, states', actions') && SlotsBehind(states', actions')
    ensures var t, origin := states'[|actions'|], OriginAt(states, actions, |actions|);
      && t.spool == s && t.sent == acks && t.session == None && states[|actions|].log <= t.log
      && Represents(s.events, History(cfg, t.log, origin, s.checkpoint, |t.log|))
      && (exists at :: RowsTell(cfg, t.log, origin, s.checkpoint, s.events, at))
      && forall i | 0 <= i < |acks| :: acks[i] <= s.checkpoint || (s.checkpoint == 0 && acks[i] == origin)
  {
    RunKeeps(cfg, states, actions, |actions|);
    var more := SessionRefines(cfg, disk, states[|actions|], turns, v, s, acks, persisted, trail, end);
    states', actions' := RunGoesOn(cfg, states, actions, more);
    RunKeeps(cfg, states', actions', |actions'|);
    var t, origin := states'[|actions'|], OriginAt(states, actions, |actions|);
    var at := RowsFromLog(cfg, t.log, origin, s.checkpoint, s.events);
    assert RowsTell(cfg, t.log, origin, s.checkpoint, s.events, at);
  }
}
