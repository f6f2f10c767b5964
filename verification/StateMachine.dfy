/** The pgoutput state machine: from a stream of protocol messages to complete transactions. */
module StateMachines {
  import opened Basics
  import opened Timestamps
  import opened SpoolState
  import opened SpoolCapture

  datatype Message =
    | Begin(xid: nat)
    | Logical(prefix: string, transactional: bool, content: Bytes, lsn: Lsn)
    | Commit(commitLsn: Lsn, endLsn: Lsn, time: Time)
    | TableChange  // relation, type, insert, update, delete and truncate messages
    | Unexpected

  datatype CaptureError = ProtocolState | ProtectedEvent | TransactionLimit

  datatype Metadata = Metadata(source: string, id: string, kind: string, subject: string)

  /** Limits, the protected prefix, SHA-256 and event.Validate, of which only the contract below is used. */
  datatype Config = Config(
    prefix: string, maxEventBytes: nat, maxEvents: nat, maxBytes: nat,
    hash: Hash, validate: (Bytes, nat) -> Option<Metadata>)

  /** event.Validate accepts only payloads within the limit that name their source, id and type. */
  ghost predicate ValidatorOk(cfg: Config) {
    forall b, n :: cfg.validate(b, n).Some? ==>
      var m := cfg.validate(b, n).value;
      m.source != "" && m.id != "" && m.kind != "" && |b| <= n
  }

  // ----- One message, on values -----

  datatype Machine = Machine(inTransaction: bool, xid: nat, events: seq<CapturedEvent>, bufferedBytes: nat)

  const IDLE := Machine(false, 0, [], 0)

  const UNSTAMPED := CommitInfo(0, 0, 0, 0)

  datatype Step = Next(machine: Machine) | Emit(machine: Machine, batch: CommittedBatch) | Fail(error: CaptureError)

  predicate Protected(cfg: Config, msg: Message) {
    msg.Logical? && msg.prefix == cfg.prefix
  }

  function CapturedFrom(cfg: Config, msg: Message, m: Metadata): CapturedEvent
    requires msg.Logical?
  {
    CapturedEvent(m.source, m.id, m.kind, m.subject, msg.content, cfg.hash(msg.content), msg.lsn, UNSTAMPED, 0)
  }

  /** A protected message whose content the validator accepts. */
  ghost predicate Accepted(cfg: Config, msg: Message) {
    Protected(cfg, msg) && cfg.validate(msg.content, cfg.maxEventBytes).Some?
  }

  /** The event says what the message said: the metadata the validator read, the content, its digest and position. */
  ghost predicate Tells(cfg: Config, msg: Message, e: CapturedEvent) {
    && Accepted(cfg, msg)
    && var meta := cfg.validate(msg.content, cfg.maxEventBytes).value;
    && e.source == meta.source && e.id == meta.id && e.kind == meta.kind && e.subject == meta.subject
    && e.payload == msg.content && e.digest == cfg.hash(msg.content) && e.messageLsn == msg.lsn
  }

  function Stamp(es: seq<CapturedEvent>, info: CommitInfo): seq<CapturedEvent> {
    seq(|es|, i requires 0 <= i < |es| => es[i].(commit := info, messageIndex := i))
  }

  function ConsumeLogical(cfg: Config, m: Machine, msg: Message): Step
    requires msg.Logical?
  {
    if msg.prefix != cfg.prefix then Next(m)
    else if !msg.transactional then Fail(ProtectedEvent)
    else if !m.inTransaction then Fail(ProtocolState)
    else if |m.events| >= cfg.maxEvents then Fail(TransactionLimit)
    else if |msg.content| > cfg.maxBytes - m.bufferedBytes then Fail(TransactionLimit)
    else
      match cfg.validate(msg.content, cfg.maxEventBytes)
      case None => Fail(ProtectedEvent)
      case Some(meta) =>
        Next(m.(events := m.events + [CapturedFrom(cfg, msg, meta)], bufferedBytes := m.bufferedBytes + |msg.content|))
  }

  function Consume(cfg: Config, m: Machine, msg: Message): Step {
    match msg
    case Begin(xid) => if m.inTransaction then Fail(ProtocolState) else Next(Machine(true, xid, [], 0))
    case Logical(_, _, _, _) => ConsumeLogical(cfg, m, msg)
    case Commit(commitLsn, endLsn, time) =>
      if !m.inTransaction then Fail(ProtocolState)
      else
        var info := CommitInfo(m.xid, commitLsn, endLsn, time);
        Emit(IDLE, CommittedBatch(info, Stamp(m.events, info)))
    case TableChange => Next(m)
    case Unexpected => Next(m)
  }

  // ----- The object -----

  class StateMachine {
    const cfg: Config
    var inTransaction: bool
    var transactionId: nat
    var events: seq<CapturedEvent>
    var bufferedBytes: nat

    function View(): Machine
      reads this
    {
      Machine(inTransaction, transactionId, events, bufferedBytes)
    }

    constructor (cfg: Config)
      ensures this.cfg == cfg && View() == IDLE
    {
      this.cfg := cfg;
      inTransaction, transactionId, events, bufferedBytes := false, 0, [], 0;
    }

    method Reset()
      modifies this
      ensures View() == IDLE
    {
      inTransaction, transactionId, events, bufferedBytes := false, 0, [], 0;
    }

    /** One message. An error leaves the machine as it was; the session ends on it. */
    method ConsumeMessage(msg: Message) returns (batch: Option<CommittedBatch>, err: Option<CaptureError>)
      modifies this
      ensures match Consume(cfg, old(View()), msg)
        case Next(m) => View() == m && batch == None && err == None
        case Emit(m, b) => View() == m && batch == Some(b) && err == None
        case Fail(e) => View() == old(View()) && batch == None && err == Some(e)
    {
      batch, err := None, None;
      match msg {
        case Begin(xid) =>
          if inTransaction {
            err := Some(ProtocolState);
            return;
          }
          inTransaction, transactionId, events, bufferedBytes := true, xid, [], 0;
        case Logical(_, _, _, _) =>
          err := ConsumeLogicalMessage(msg);
        case Commit(commitLsn, endLsn, time) =>
          if !inTransaction {
            err := Some(ProtocolState);
            return;
          }
          var info := CommitInfo(transactionId, commitLsn, endLsn, time);
          var stamped := StampEvents(events, info);
          batch := Some(CommittedBatch(info, stamped));
          Reset();
        case TableChange =>
        case Unexpected =>
      }
    }

    method ConsumeLogicalMessage(msg: Message) returns (err: Option<CaptureError>)
      requires msg.Logical?
      modifies this
      ensures match ConsumeLogical(cfg, old(View()), msg)
        case Next(m) => View() == m && err == None
        case Emit(_, _) => false
        case Fail(e) => View() == old(View()) && err == Some(e)
      ensures Protected(cfg, msg) && err == None ==>
        && |events| == |old(events)| + 1 && old(events) <= events && Tells(cfg, msg, events[|old(events)|])
        && bufferedBytes == old(bufferedBytes) + |msg.content|
    {
      if msg.prefix != cfg.prefix {
        return None;
      }
      if !msg.transactional {
        return Some(ProtectedEvent);
      }
      if !inTransaction {
        return Some(ProtocolState);
      }
      if |events| >= cfg.maxEvents {
        return Some(TransactionLimit);
      }
      if |msg.content| > cfg.maxBytes - bufferedBytes {
        return Some(TransactionLimit);
      }
      var metadata := cfg.validate(msg.content, cfg.maxEventBytes);
      if metadata.None? {
        return Some(ProtectedEvent);
      }
      events := events + [CapturedFrom(cfg, msg, metadata.value)];
      bufferedBytes := bufferedBytes + |msg.content|;
      return None;
    }
  }

  /** The loop that writes the commit's metadata into each buffered event. */
  method StampEvents(es: seq<CapturedEvent>, info: CommitInfo) returns (stamped: seq<CapturedEvent>)
    ensures stamped == Stamp(es, info)
  {
    stamped := es;
    for i := 0 to |es|
      invariant |stamped| == |es|
      invariant forall j | 0 <= j < i :: stamped[j] == es[j].(commit := info, messageIndex := j)
      invariant forall j | i <= j < |es| :: stamped[j] == es[j]
    {
      stamped := stamped[i := stamped[i].(commit := info, messageIndex := i)];
    }
  }

  // ----- A whole stream, described without the machine -----

  /** The index of the Begin whose transaction is still open after n messages. */
  ghost function OpenBegin(msgs: seq<Message>, n: nat): (b: Option<nat>)
    requires n <= |msgs|
    ensures b.Some? ==> b.value < n && msgs[b.value].Begin?
  {
    if n == 0 || msgs[n - 1].Commit? then None
    else if msgs[n - 1].Begin? then Some(n - 1)
    else OpenBegin(msgs, n - 1)
  }

  /** The accepted protected messages in msgs[b..n], in order. */
  ghost function Captures(cfg: Config, msgs: seq<Message>, b: nat, n: nat): seq<CapturedEvent>
    requires b <= n <= |msgs|
  {
    if n == b then []
    else
      var msg := msgs[n - 1];
      Captures(cfg, msgs, b, n - 1) +
      if Protected(cfg, msg) && cfg.validate(msg.content, cfg.maxEventBytes).Some?
      then [CapturedFrom(cfg, msg, cfg.validate(msg.content, cfg.maxEventBytes).value)] else []
  }

  /** The events are the accepted protected messages of msgs[b..n], each once and in order: es[i] is message at[i]. */
  ghost predicate Reads(cfg: Config, msgs: seq<Message>, b: nat, n: nat, es: seq<CapturedEvent>, at: seq<nat>)
    requires b <= n <= |msgs|
  {
    && |at| == |es|
    && (forall i | 0 <= i < |at| :: b <= at[i] < n && Tells(cfg, msgs[at[i]], es[i]))
    && (forall i, j | 0 <= i < j < |at| :: at[i] < at[j])
    && (forall k: nat | b <= k < n && Accepted(cfg, msgs[k]) :: k in at)
  }

  lemma {:induction false} CapturesRead(cfg: Config, msgs: seq<Message>, b: nat, n: nat) returns (at: seq<nat>)
    requires b <= n <= |msgs|
    ensures Reads(cfg, msgs, b, n, Captures(cfg, msgs, b, n), at)
  {
    if n == b {
      at := [];
    } else {
      var front := CapturesRead(cfg, msgs, b, n - 1);
      at := CapturesNext(cfg, msgs, b, n - 1, front);
    }
  }

  lemma CapturesNext(cfg: Config, msgs: seq<Message>, b: nat, n: nat, at: seq<nat>) returns (at': seq<nat>)
    requires b <= n < |msgs| && Reads(cfg, msgs, b, n, Captures(cfg, msgs, b, n), at)
    ensures Reads(cfg, msgs, b, n + 1, Captures(cfg, msgs, b, n + 1), at')
  {
    if Accepted(cfg, msgs[n]) {
      at' := ReadsOneMore(cfg, msgs, b, n, Captures(cfg, msgs, b, n), at, Captures(cfg, msgs, b, n + 1));
    } else {
      at' := at;
    }
  }

  lemma ReadsOneMore(cfg: Config, msgs: seq<Message>, b: nat, n: nat, es: seq<CapturedEvent>, at: seq<nat>,
                     more: seq<CapturedEvent>)
    returns (at': seq<nat>)
    requires b <= n < |msgs| && Reads(cfg, msgs, b, n, es, at)
    requires |more| == |es| + 1 && es <= more && Tells(cfg, msgs[n], more[|es|])
    ensures Reads(cfg, msgs, b, n + 1, more, at')
  {
    at' := at + [n];
    assert at'[|at|] == n;
    forall k: nat | b <= k < n + 1 && Accepted(cfg, msgs[k]) ensures k in at' {
      assert k < n ==> k in at;
    }
  }

  /** Stamping changes nothing a message said. */
  lemma StampReads(cfg: Config, msgs: seq<Message>, b: nat, n: nat, es: seq<CapturedEvent>, at: seq<nat>,
                   info: CommitInfo)
    requires b <= n <= |msgs| && Reads(cfg, msgs, b, n, es, at)
    ensures Reads(cfg, msgs, b, n, Stamp(es, info), at)
    ensures forall i | 0 <= i < |es| :: Stamp(es, info)[i].commit == info && Stamp(es, info)[i].messageIndex == i
  {
  }

  ghost function PayloadBytes(es: seq<CapturedEvent>): nat {
    if es == [] then 0 else PayloadBytes(es[..|es| - 1]) + |es[|es| - 1].payload|
  }

  /** Whether message n is acceptable, judged from the messages before it alone. */
  ghost predicate Acceptable(cfg: Config, msgs: seq<Message>, n: nat)
    requires n < |msgs|
  {
    var begin := OpenBegin(msgs, n);
    match msgs[n]
    case Begin(_) => begin.None?
    case Commit(_, _, _) => begin.Some?
    case Logical(prefix, transactional, content, _) =>
      prefix == cfg.prefix ==>
        && transactional && begin.Some?
        && cfg.validate(content, cfg.maxEventBytes).Some?
        && var es := Captures(cfg, msgs, begin.value + 1, n);
        |es| < cfg.maxEvents && PayloadBytes(es) + |content| <= cfg.maxBytes
    case _ => true
  }

  /** The machine after n messages, or none once one was refused. */
  ghost function Fed(cfg: Config, msgs: seq<Message>, n: nat): Option<Machine>
    requires n <= |msgs|
  {
    if n == 0 then Some(IDLE)
    else
      match Fed(cfg, msgs, n - 1)
      case None => None
      case Some(m) =>
        match Consume(cfg, m, msgs[n - 1])
        case Next(m') => Some(m')
        case Emit(m', _) => Some(m')
        case Fail(_) => None
  }

  /** The machine holds exactly the open transaction: its id, its protected messages in order, and their total size. */
  ghost predicate Tracks(cfg: Config, msgs: seq<Message>, n: nat, m: Machine)
    requires n <= |msgs|
  {
    var begin := OpenBegin(msgs, n);
    && |m.events| <= cfg.maxEvents && m.bufferedBytes <= cfg.maxBytes
    && m.bufferedBytes == PayloadBytes(m.events)
    && if begin.None? then m == IDLE
       else m.inTransaction && m.xid == msgs[begin.value].xid && m.events == Captures(cfg, msgs, begin.value + 1, n)
  }

  lemma PayloadBytesAppend(es: seq<CapturedEvent>, e: CapturedEvent)
    ensures PayloadBytes(es + [e]) == PayloadBytes(es) + |e.payload|
  {
    assert (es + [e])[..|es|] == es;
  }

  lemma TracksStep(cfg: Config, msgs: seq<Message>, n: nat, m: Machine)
    requires n < |msgs| && Tracks(cfg, msgs, n, m)
    ensures var step := Consume(cfg, m, msgs[n]);
      && (step.Fail? <==> !Acceptable(cfg, msgs, n))
      && (!step.Fail? ==> Tracks(cfg, msgs, n + 1, step.machine))
  {
    var msg := msgs[n];
    if Protected(cfg, msg) && Acceptable(cfg, msgs, n) {
      var meta := cfg.validate(msg.content, cfg.maxEventBytes).value;
      PayloadBytesAppend(m.events, CapturedFrom(cfg, msg, meta));
    }
  }

  /** The events are the accepted protected messages of the open transaction. */
  ghost predicate ReadsOpen(cfg: Config, msgs: seq<Message>, n: nat, es: seq<CapturedEvent>, at: seq<nat>)
    requires n <= |msgs| && OpenBegin(msgs, n).Some?
  {
    Reads(cfg, msgs, OpenBegin(msgs, n).value + 1, n, es, at)
  }

  lemma {:induction false} StreamTracked(cfg: Config, msgs: seq<Message>, n: nat)
    requires n <= |msgs|
    ensures Fed(cfg, msgs, n).Some? <==> forall i | 0 <= i < n :: Acceptable(cfg, msgs, i)
    ensures Fed(cfg, msgs, n).Some? ==> Tracks(cfg, msgs, n, Fed(cfg, msgs, n).value)
  {
    if n != 0 {
      StreamTracked(cfg, msgs, n - 1);
      if Fed(cfg, msgs, n - 1).Some? {
        TracksStep(cfg, msgs, n - 1, Fed(cfg, msgs, n - 1).value);
      }
    }
  }

  /**
   A message is refused exactly when the reference says so, and otherwise the machine stays in step with it: while a
   transaction is open, the buffer holds its accepted protected messages, one by one and field by field.
   */
  lemma MachineTracksStream(cfg: Config, msgs: seq<Message>, n: nat)
    requires n <= |msgs|
    ensures Fed(cfg, msgs, n).Some? <==> forall i | 0 <= i < n :: Acceptable(cfg, msgs, i)
    ensures Fed(cfg, msgs, n).Some? ==> Tracks(cfg, msgs, n, Fed(cfg, msgs, n).value)
    ensures Fed(cfg, msgs, n).Some? && OpenBegin(msgs, n).Some? ==>
      exists at :: ReadsOpen(cfg, msgs, n, Fed(cfg, msgs, n).value.events, at)
  {
    StreamTracked(cfg, msgs, n);
    if Fed(cfg, msgs, n).Some? && OpenBegin(msgs, n).Some? {
      var _ := BufferReads(cfg, msgs, n, Fed(cfg, msgs, n).value);
    }
  }

  lemma BufferReads(cfg: Config, msgs: seq<Message>, n: nat, m: Machine) returns (at: seq<nat>)
    requires n <= |msgs| && OpenBegin(msgs, n).Some? && Tracks(cfg, msgs, n, m)
    ensures ReadsOpen(cfg, msgs, n, m.events, at)
  {
    at := CapturesRead(cfg, msgs, OpenBegin(msgs, n).value + 1, n);
  }

  /** The batch a Commit must produce: the protected messages since its own Begin and nothing else. */
  ghost function ExpectedBatch(cfg: Config, msgs: seq<Message>, n: nat): CommittedBatch
    requires n < |msgs| && msgs[n].Commit? && OpenBegin(msgs, n).Some?
  {
    var b := OpenBegin(msgs, n).value;
    var info := CommitInfo(msgs[b].xid, msgs[n].commitLsn, msgs[n].endLsn, msgs[n].time);
    CommittedBatch(info, Stamp(Captures(cfg, msgs, b + 1, n), info))
  }

  lemma {:induction false} CapturesValid(cfg: Config, msgs: seq<Message>, b: nat, n: nat)
    requires b <= n <= |msgs| && ValidatorOk(cfg)
    ensures forall i | 0 <= i < |Captures(cfg, msgs, b, n)| ::
      var e := Captures(cfg, msgs, b, n)[i];
      e.source != "" && e.id != "" && e.kind != ""
        && cfg.hash(e.payload) == e.digest && |e.payload| <= cfg.maxEventBytes
  {
    if n != b {
      CapturesValid(cfg, msgs, b, n - 1);
    }
  }

  /** The batch holds exactly the accepted protected messages since the Begin, field by field, and its own commit. */
  ghost predicate BatchTells(cfg: Config, msgs: seq<Message>, n: nat, batch: CommittedBatch, at: seq<nat>)
    requires n < |msgs| && msgs[n].Commit? && OpenBegin(msgs, n).Some?
  {
    var b := OpenBegin(msgs, n).value;
    && ReadsOpen(cfg, msgs, n, batch.events, at)
    && batch.commit.transactionId == msgs[b].xid && batch.commit.commitLsn == msgs[n].commitLsn
    && batch.commit.commitEndLsn == msgs[n].endLsn && batch.commit.commitTime == msgs[n].time
    && forall i | 0 <= i < |batch.events| :: batch.events[i].commit == batch.commit && batch.events[i].messageIndex == i
  }

  lemma ExpectedTells(cfg: Config, msgs: seq<Message>, n: nat) returns (at: seq<nat>)
    requires n < |msgs| && msgs[n].Commit? && OpenBegin(msgs, n).Some?
    ensures BatchTells(cfg, msgs, n, ExpectedBatch(cfg, msgs, n), at)
  {
    var b, batch := OpenBegin(msgs, n).value, ExpectedBatch(cfg, msgs, n);
    at := CapturesRead(cfg, msgs, b + 1, n);
    StampReads(cfg, msgs, b + 1, n, Captures(cfg, msgs, b + 1, n), at, batch.commit);
  }

  /** What consuming message n emits: the expected batch, exactly at an acceptable Commit. */
  lemma EmitsExpected(cfg: Config, msgs: seq<Message>, n: nat)
    requires n < |msgs| && Fed(cfg, msgs, n).Some? && ValidatorOk(cfg)
    ensures var step := Consume(cfg, Fed(cfg, msgs, n).value, msgs[n]);
      && (step.Emit? <==> msgs[n].Commit? && Acceptable(cfg, msgs, n))
      && (step.Emit? ==>
            && step.batch == ExpectedBatch(cfg, msgs, n) && step.machine == IDLE
            && |step.batch.events| <= cfg.maxEvents && PayloadBytes(step.batch.events) <= cfg.maxBytes
            && AllValid(cfg.hash, step.batch, |step.batch.events|))
  {
    StreamTracked(cfg, msgs, n);
    var m := Fed(cfg, msgs, n).value;
    if msgs[n].Commit? && OpenBegin(msgs, n).Some? {
      var b := OpenBegin(msgs, n).value;
      CapturesValid(cfg, msgs, b + 1, n);
      StampBytes(m.events, CommitInfo(m.xid, msgs[n].commitLsn, msgs[n].endLsn, msgs[n].time));
    }
  }

  /**
   For every stream: a batch is emitted exactly at an acceptable Commit. It is the accepted protected messages since
   its own Begin, one by one and field by field, it respects the limits, and every event in it passes the spool's own
   validation.
   */
  lemma EmittedBatches(cfg: Config, msgs: seq<Message>, n: nat)
    requires n < |msgs| && Fed(cfg, msgs, n).Some? && ValidatorOk(cfg)
    ensures var step := Consume(cfg, Fed(cfg, msgs, n).value, msgs[n]);
      && (step.Emit? <==> msgs[n].Commit? && Acceptable(cfg, msgs, n))
      && (step.Emit? ==>
            && step.batch == ExpectedBatch(cfg, msgs, n) && step.machine == IDLE
            && (exists at :: BatchTells(cfg, msgs, n, step.batch, at))
            && |step.batch.events| <= cfg.maxEvents && PayloadBytes(step.batch.events) <= cfg.maxBytes
            && AllValid(cfg.hash, step.batch, |step.batch.events|))
  {
    EmitsExpected(cfg, msgs, n);
    if msgs[n].Commit? && OpenBegin(msgs, n).Some? {
      var at := ExpectedTells(cfg, msgs, n);
      assert BatchTells(cfg, msgs, n, ExpectedBatch(cfg, msgs, n), at);
    }
  }

  /** A refused message is refused for the first thing wrong with it, again judged from the messages alone. */
  lemma RefusalReason(cfg: Config, msgs: seq<Message>, n: nat)
    requires n < |msgs| && Fed(cfg, msgs, n).Some? && !Acceptable(cfg, msgs, n)
    ensures var begin, msg := OpenBegin(msgs, n), msgs[n];
      Consume(cfg, Fed(cfg, msgs, n).value, msg) == Fail(
        if msg.Begin? || msg.Commit? then ProtocolState
        else if !msg.transactional then ProtectedEvent
        else if begin.None? then ProtocolState
        else
          var es := Captures(cfg, msgs, begin.value + 1, n);
          if |es| == cfg.maxEvents || PayloadBytes(es) + |msg.content| > cfg.maxBytes then TransactionLimit
          else ProtectedEvent)
  {
    StreamTracked(cfg, msgs, n);
    TracksStep(cfg, msgs, n, Fed(cfg, msgs, n).value);
  }

  lemma {:induction false} StampBytes(es: seq<CapturedEvent>, info: CommitInfo)
    ensures PayloadBytes(Stamp(es, info)) == PayloadBytes(es)
  {
    if es != [] {
      StampBytes(es[..|es| - 1], info);
      assert Stamp(es, info)[..|es| - 1] == Stamp(es[..|es| - 1], info);
    }
  }
}
