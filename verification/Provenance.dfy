/**
 Where captured events come from: the rows of the spool against the messages of the server's log, one by one and
 field by field, without the state machine.
 */
module Provenance {
  import opened Basics
  import opened SpoolState
  import opened SpoolCapture
  import opened SpoolDelivery
  import opened StateMachines
  import opened Capture

  /** A message of a transaction of the log. */
  datatype Place = Place(item: nat, message: nat)

  predicate Before(p: Place, q: Place) {
    p.item < q.item || (p.item == q.item && p.message < q.message)
  }

  predicate InLog(log: seq<Item>, p: Place) {
    p.item < |log| && log[p.item].Transaction? && p.message < |log[p.item].body|
  }

  function MessageAt(log: seq<Item>, p: Place): Message
    requires InLog(log, p)
  {
    log[p.item].body[p.message]
  }

  /** An accepted protected message of a transaction that ends in (lo, hi]. */
  ghost predicate Counts(cfg: Config, log: seq<Item>, lo: Lsn, hi: Lsn, p: Place) {
    InLog(log, p) && lo < log[p.item].endLsn <= hi && Accepted(cfg, MessageAt(log, p))
  }

  /** The identity a message gives its event. */
  ghost function Who(cfg: Config, log: seq<Item>, p: Place): Identity
    requires InLog(log, p) && Accepted(cfg, MessageAt(log, p))
  {
    var meta := cfg.validate(MessageAt(log, p).content, cfg.maxEventBytes).value;
    Identity(meta.source, meta.id)
  }

  /** The event says what the message at p says, and which transaction it was committed in. */
  ghost predicate TellsAt(cfg: Config, log: seq<Item>, p: Place, e: CapturedEvent)
    requires InLog(log, p)
  {
    var item := log[p.item];
    && Tells(cfg, MessageAt(log, p), e)
    && e.commit.transactionId == item.xid && e.commit.commitLsn == item.commitLsn
    && e.commit.commitEndLsn == item.endLsn && e.commit.commitTime == item.time
  }

  // ----- One transaction -----

  lemma ItemReads(cfg: Config, item: Item) returns (at: seq<nat>)
    requires item.Transaction?
    ensures Reads(cfg, item.body, 0, |item.body|, ItemEvents(cfg, item), at)
    ensures forall i | 0 <= i < |ItemEvents(cfg, item)| ::
      ItemEvents(cfg, item)[i].commit == CommitInfo(item.xid, item.commitLsn, item.endLsn, item.time)
  {
    var onWire := ItemReadsWire(cfg, item);
    WireHoldsBody(item);
    at := ReadsBody(cfg, item.Wire(), item.body, ItemEvents(cfg, item), onWire);
  }

  lemma WireHoldsBody(item: Item)
    requires item.Transaction?
    ensures |item.Wire()| == |item.body| + 2 && forall k | 0 <= k < |item.body| :: item.Wire()[k + 1] == item.body[k]
  {
  }

  lemma ItemReadsWire(cfg: Config, item: Item) returns (at: seq<nat>)
    requires item.Transaction?
    ensures Reads(cfg, item.Wire(), 1, |item.Wire()| - 1, ItemEvents(cfg, item), at)
    ensures forall i | 0 <= i < |ItemEvents(cfg, item)| ::
      ItemEvents(cfg, item)[i].commit == CommitInfo(item.xid, item.commitLsn, item.endLsn, item.time)
  {
    var w, n := item.Wire(), |item.Wire()| - 1;
    at := CapturesRead(cfg, w, 1, n);
    var info := CommitInfo(item.xid, item.commitLsn, item.endLsn, item.time);
    StampReads(cfg, w, 1, n, Captures(cfg, w, 1, n), at, info);
  }

  /** Positions on the wire, where a Begin comes first, and in the transaction's body. */
  lemma ReadsBody(cfg: Config, w: seq<Message>, body: seq<Message>, es: seq<CapturedEvent>, onWire: seq<nat>)
    returns (at: seq<nat>)
    requires |w| == |body| + 2 && (forall k | 0 <= k < |body| :: w[k + 1] == body[k])
    requires Reads(cfg, w, 1, |w| - 1, es, onWire)
    ensures Reads(cfg, body, 0, |body|, es, at)
  {
    at := seq(|onWire|, i requires 0 <= i < |onWire| => onWire[i] - 1);
    forall i | 0 <= i < |at| ensures 0 <= at[i] < |body| && Tells(cfg, body[at[i]], es[i]) {
      assert w[at[i] + 1] == body[at[i]];
    }
    forall k: nat | k < |body| && Accepted(cfg, body[k]) ensures k in at {
      assert w[k + 1] == body[k];
      OneBefore(onWire, at, k);
    }
  }

  lemma OneBefore(onWire: seq<nat>, at: seq<nat>, k: nat)
    requires |at| == |onWire| && (forall i | 0 <= i < |at| :: at[i] + 1 == onWire[i]) && k + 1 in onWire
    ensures k in at
  {
    var i :| 0 <= i < |onWire| && onWire[i] == k + 1;
    assert at[i] == k;
  }

  // ----- The whole log -----

  /** The events are the accepted messages of the first n items in (lo, hi], each once and in log order. */
  ghost predicate Story(cfg: Config, log: seq<Item>, lo: Lsn, hi: Lsn, n: nat, es: seq<CapturedEvent>, at: seq<Place>) {
    && |at| == |es|
    && (forall i | 0 <= i < |at| ::
          at[i].item < n && Counts(cfg, log, lo, hi, at[i]) && TellsAt(cfg, log, at[i], es[i]))
    && (forall i, j | 0 <= i < j < |at| :: Before(at[i], at[j]))
    && (forall p: Place | p.item < n && Counts(cfg, log, lo, hi, p) :: p in at)
  }

  ghost function PlacesOf(n: nat, at: seq<nat>): seq<Place> {
    seq(|at|, i requires 0 <= i < |at| => Place(n, at[i]))
  }

  lemma StoryTakes(cfg: Config, log: seq<Item>, lo: Lsn, hi: Lsn, n: nat, es: seq<CapturedEvent>, at: seq<Place>,
                   more: seq<CapturedEvent>, here: seq<nat>)
    requires n < |log| && log[n].Transaction? && lo < log[n].endLsn <= hi && Story(cfg, log, lo, hi, n, es, at)
    requires Reads(cfg, log[n].body, 0, |log[n].body|, more, here)
    requires forall i | 0 <= i < |more| ::
      more[i].commit == CommitInfo(log[n].xid, log[n].commitLsn, log[n].endLsn, log[n].time)
    ensures Story(cfg, log, lo, hi, n + 1, es + more, at + PlacesOf(n, here))
  {
    var all, places := es + more, at + PlacesOf(n, here);
    forall i | 0 <= i < |places|
      ensures places[i].item < n + 1 && Counts(cfg, log, lo, hi, places[i]) && TellsAt(cfg, log, places[i], all[i])
    {
      if |at| <= i {
        assert Tells(cfg, log[n].body[here[i - |at|]], more[i - |at|]);
      }
    }
    PlacesOrdered(n, at, here);
    forall p: Place | p.item < n + 1 && Counts(cfg, log, lo, hi, p) ensures p in places {
      PlaceFound(cfg, log, n, at, more, here, p);
    }
  }

  lemma PlacesOrdered(n: nat, at: seq<Place>, here: seq<nat>)
    requires (forall i, j | 0 <= i < j < |at| :: Before(at[i], at[j])) && (forall i | 0 <= i < |at| :: at[i].item < n)
    requires forall i, j | 0 <= i < j < |here| :: here[i] < here[j]
    ensures var places := at + PlacesOf(n, here); forall i, j | 0 <= i < j < |places| :: Before(places[i], places[j])
  {
  }

  lemma PlaceFound(cfg: Config, log: seq<Item>, n: nat, at: seq<Place>, more: seq<CapturedEvent>, here: seq<nat>,
                   p: Place)
    requires n < |log| && log[n].Transaction? && Reads(cfg, log[n].body, 0, |log[n].body|, more, here)
    requires InLog(log, p) && Accepted(cfg, MessageAt(log, p)) && (p.item < n ==> p in at) && p.item < n + 1
    ensures p in at + PlacesOf(n, here)
  {
    if p.item == n {
      assert p.message in here;
      var i :| 0 <= i < |here| && here[i] == p.message;
      assert (at + PlacesOf(n, here))[|at| + i] == p;
    }
  }

  lemma StorySkips(cfg: Config, log: seq<Item>, lo: Lsn, hi: Lsn, n: nat, es: seq<CapturedEvent>, at: seq<Place>)
    requires n < |log| && (log[n].Loose? || !(lo < log[n].endLsn <= hi)) && Story(cfg, log, lo, hi, n, es, at)
    ensures Story(cfg, log, lo, hi, n + 1, es, at)
  {
  }

  lemma {:induction false} GatheredStory(cfg: Config, log: seq<Item>, lo: Lsn, hi: Lsn, parts: seq<seq<CapturedEvent>>,
                                         n: nat)
    returns (at: seq<Place>)
    requires parts == Shares(cfg, log, lo, hi) && n <= |log|
    ensures Story(cfg, log, lo, hi, n, Gather(parts, n), at)
  {
    if n == 0 {
      at := [];
    } else {
      var front := GatheredStory(cfg, log, lo, hi, parts, n - 1);
      assert parts[n - 1] == Share(cfg, log[n - 1], lo, hi);
      at := StoryNext(cfg, log, lo, hi, n - 1, Gather(parts, n - 1), front);
    }
  }

  lemma StoryNext(cfg: Config, log: seq<Item>, lo: Lsn, hi: Lsn, n: nat, past: seq<CapturedEvent>, at: seq<Place>)
    returns (at': seq<Place>)
    requires n < |log| && Story(cfg, log, lo, hi, n, past, at)
    ensures Story(cfg, log, lo, hi, n + 1, past + Share(cfg, log[n], lo, hi), at')
  {
    var share := Share(cfg, log[n], lo, hi);
    if log[n].Transaction? && lo < log[n].endLsn <= hi {
      var here := ItemReads(cfg, log[n]);
      StoryTakes(cfg, log, lo, hi, n, past, at, share, here);
      at' := at + PlacesOf(n, here);
    } else {
      assert share == [] && past + share == past;
      StorySkips(cfg, log, lo, hi, n, past, at);
      at' := at;
    }
  }

  lemma HistoryStory(cfg: Config, log: seq<Item>, lo: Lsn, hi: Lsn) returns (at: seq<Place>)
    ensures Story(cfg, log, lo, hi, |log|, History(cfg, log, lo, hi, |log|), at)
  {
    at := GatheredStory(cfg, log, lo, hi, Shares(cfg, log, lo, hi), |log|);
  }

  // ----- The rows -----

  /** Where each first occurrence is in the history. */
  ghost predicate Firsts(es: seq<CapturedEvent>, n: nat, firsts: seq<CapturedEvent>, at: seq<nat>)
    requires n <= |es|
  {
    && |at| == |firsts|
    && (forall i | 0 <= i < |at| :: at[i] < n && IsFirst(es, at[i]) && firsts[i] == es[at[i]])
    && (forall i, j | 0 <= i < j < |at| :: at[i] < at[j])
    && (forall j: nat | j < n && IsFirst(es, j) :: j in at)
  }

  lemma {:induction false} FirstsAt(es: seq<CapturedEvent>, n: nat) returns (at: seq<nat>)
    requires n <= |es|
    ensures Firsts(es, n, FirstOccurrences(es, n), at)
  {
    if n == 0 {
      at := [];
    } else {
      at := FirstsAt(es, n - 1);
      if IsFirst(es, n - 1) {
        FirstsTake(es, n - 1, FirstOccurrences(es, n - 1), at);
        at := at + [n - 1];
      } else {
        FirstsSkip(es, n - 1, FirstOccurrences(es, n - 1), at);
      }
    }
  }

  lemma FirstsTake(es: seq<CapturedEvent>, n: nat, firsts: seq<CapturedEvent>, at: seq<nat>)
    requires n < |es| && IsFirst(es, n) && Firsts(es, n, firsts, at)
    ensures Firsts(es, n + 1, firsts + [es[n]], at + [n])
  {
    forall j: nat | j < n + 1 && IsFirst(es, j) ensures j in at + [n] {
      assert j < n ==> j in at;
      assert (at + [n])[|at|] == n;
    }
  }

  lemma FirstsSkip(es: seq<CapturedEvent>, n: nat, firsts: seq<CapturedEvent>, at: seq<nat>)
    requires n < |es| && !IsFirst(es, n) && Firsts(es, n, firsts, at)
    ensures Firsts(es, n + 1, firsts, at)
  {
  }

  /** The first message in (lo, hi] to use its identity. */
  ghost predicate FirstUse(cfg: Config, log: seq<Item>, lo: Lsn, hi: Lsn, p: Place) {
    && Counts(cfg, log, lo, hi, p)
    && forall q | Counts(cfg, log, lo, hi, q) && Before(q, p) :: Who(cfg, log, q) != Who(cfg, log, p)
  }

  /** The row is the message at p; a pruned row has lost the content and nothing else. */
  ghost predicate RowTells(cfg: Config, log: seq<Item>, p: Place, row: EventRow)
    requires InLog(log, p)
  {
    && Accepted(cfg, MessageAt(log, p)) && TellsAt(cfg, log, p, row.event.(payload := MessageAt(log, p).content))
    && row.event.payload == if row.Retained() then MessageAt(log, p).content else []
  }

  /** The rows are the messages that first use their identity, each once and in log order: row i is message at[i]. */
  ghost predicate RowsTell(cfg: Config, log: seq<Item>, lo: Lsn, hi: Lsn, rows: seq<EventRow>, at: seq<Place>) {
    && |at| == |rows|
    && (forall i | 0 <= i < |at| :: FirstUse(cfg, log, lo, hi, at[i]) && RowTells(cfg, log, at[i], rows[i]))
    && (forall i, j | 0 <= i < j < |at| :: Before(at[i], at[j]))
    && (forall p | FirstUse(cfg, log, lo, hi, p) :: p in at)
  }

  lemma FirstIsFirstUse(cfg: Config, log: seq<Item>, lo: Lsn, hi: Lsn, es: seq<CapturedEvent>, at: seq<Place>, j: nat)
    requires Story(cfg, log, lo, hi, |log|, es, at) && j < |es|
    ensures IsFirst(es, j) <==> FirstUse(cfg, log, lo, hi, at[j])
  {
    if IsFirst(es, j) {
      forall q | Counts(cfg, log, lo, hi, q) && Before(q, at[j]) ensures Who(cfg, log, q) != Who(cfg, log, at[j]) {
        assert q in at;
        var i :| 0 <= i < |at| && at[i] == q;
        assert i < j;
      }
    }
    if FirstUse(cfg, log, lo, hi, at[j]) {
      forall i: nat | i < j ensures es[i].Ident() != es[j].Ident() {
        assert Before(at[i], at[j]);
      }
    }
  }

  /** Rows that are the first occurrences of the log's history are the messages that first use their identity. */
  lemma RowsFromLog(cfg: Config, log: seq<Item>, lo: Lsn, hi: Lsn, rows: seq<EventRow>) returns (at: seq<Place>)
    requires Represents(rows, History(cfg, log, lo, hi, |log|))
    ensures RowsTell(cfg, log, lo, hi, rows, at)
  {
    var es := History(cfg, log, lo, hi, |log|);
    var places := HistoryStory(cfg, log, lo, hi);
    var firsts := FirstsAt(es, |es|);
    at := RowsAt(cfg, log, lo, hi, rows, es, places, firsts);
  }

  lemma RowsAt(cfg: Config, log: seq<Item>, lo: Lsn, hi: Lsn, rows: seq<EventRow>, es: seq<CapturedEvent>,
               places: seq<Place>, firsts: seq<nat>)
    returns (at: seq<Place>)
    requires Represents(rows, es) && Story(cfg, log, lo, hi, |log|, es, places)
    requires Firsts(es, |es|, FirstOccurrences(es, |es|), firsts)
    ensures RowsTell(cfg, log, lo, hi, rows, at)
  {
    at := seq(|firsts|, i requires 0 <= i < |firsts| => places[firsts[i]]);
    forall i | 0 <= i < |at| ensures FirstUse(cfg, log, lo, hi, at[i]) && RowTells(cfg, log, at[i], rows[i]) {
      FirstIsFirstUse(cfg, log, lo, hi, es, places, firsts[i]);
      assert Holds(rows[i], es[firsts[i]]);
    }
    forall p | FirstUse(cfg, log, lo, hi, p) ensures p in at {
      assert p in places;
      var j :| 0 <= j < |places| && places[j] == p;
      FirstIsFirstUse(cfg, log, lo, hi, es, places, j);
      assert j in firsts;
      var i :| 0 <= i < |firsts| && firsts[i] == j;
      assert at[i] == p;
    }
  }

  // ----- What a sink is handed -----

  /** The delivery carries the message at p: its metadata and its bytes. */
  ghost predicate ItemTells(cfg: Config, log: seq<Item>, p: Place, item: Delivery)
    requires InLog(log, p) && Accepted(cfg, MessageAt(log, p))
  {
    var msg := MessageAt(log, p);
    var meta := cfg.validate(msg.content, cfg.maxEventBytes).value;
    && item.source == meta.source && item.id == meta.id && item.kind == meta.kind && item.subject == meta.subject
    && item.payload == msg.content
  }
}
