/** The webhook sender's pure parts: response classification, Retry-After and the idempotency key. */
module Webhooks {
  import opened Basics

  const NUL: char := '\0'

  const MAX_INT64: nat := 0x7FFF_FFFF_FFFF_FFFF

  /** time.Second in nanoseconds. */
  const SECOND: nat := 1_000_000_000

  datatype AttemptResult = AttemptResult(success: bool, retryable: bool, retryAfter: nat, status: int, failure: string)

  /** The delta-seconds form of Retry-After; `seconds` is the parsed 64-bit integer. */
  function RetryAfterSeconds(seconds: int): (d: nat)
    requires -0x8000_0000_0000_0000 <= seconds <= MAX_INT64
    ensures d == if seconds <= 0 then 0 else Min(MAX_INT64, seconds * SECOND)
  {
    if seconds > 0 then
      if seconds > MAX_INT64 / SECOND then MAX_INT64 else seconds * SECOND
    else 0
  }

  /** What a response status means for the delivery. */
  function Classify(status: int, retryAfter: nat): AttemptResult {
    if 200 <= status < 300 then AttemptResult(true, false, 0, status, "")
    else AttemptResult(false, status == 408 || status == 425 || status == 429 || status >= 500,
                       retryAfter, status, "webhook returned HTTP")
  }

  /** Statuses that promise nothing was decided: request timeout, too early, too many requests and server errors. */
  predicate Transient(status: int) {
    status in {408, 425, 429} || status >= 500
  }

  /** Success is 200 to 299 and nothing else; a refusal is worth a retry for the transient statuses and no others. */
  lemma ClassifyVerdict(status: int, retryAfter: nat)
    ensures var r := Classify(status, retryAfter);
      && (r.success <==> 200 <= status <= 299) && (r.retryable <==> Transient(status))
      && r.status == status && (r.failure == "" <==> r.success) && r.retryAfter == if r.success then 0 else retryAfter
  {
  }

  // ----- The idempotency key -----

  /** The text that is hashed into the Idempotency-Key header. */
  function KeyText(sink: string, source: string, id: string): string {
    sink + [NUL] + source + [NUL] + id
  }

  predicate NoNul(s: string) {
    NUL !in s
  }

  /** What precedes the first NUL decides where it is. */
  lemma {:induction false} CutAtNul(a: string, x: string, b: string, y: string)
    requires NoNul(a) && NoNul(b) && a + [NUL] + x == b + [NUL] + y
    ensures a == b && x == y
  {
    var s, t := a + [NUL] + x, b + [NUL] + y;
    assert s[|a|] == NUL && t[|b|] == NUL;
    assert forall i | 0 <= i < |a| :: s[i] in a;
    assert forall i | 0 <= i < |b| :: t[i] in b;
    assert |a| == |b|;
    assert a == s[..|a|] && b == t[..|b|];
    assert x == s[|a| + 1..] && y == t[|b| + 1..];
  }

  /** Sink name, source and id are recoverable from the hashed text when name and source contain no NUL. */
  lemma KeyTextInjective(sink: string, source: string, id: string, sink': string, source': string, id': string)
    requires NoNul(sink) && NoNul(sink') && NoNul(source) && NoNul(source')
    requires KeyText(sink, source, id) == KeyText(sink', source', id')
    ensures sink == sink' && source == source' && id == id'
  {
    assert KeyText(sink, source, id) == sink + [NUL] + (source + [NUL] + id);
    assert KeyText(sink', source', id') == sink' + [NUL] + (source' + [NUL] + id');
    CutAtNul(sink, source + [NUL] + id, sink', source' + [NUL] + id');
    CutAtNul(source, id, source', id');
  }

  /** Another acceptable identity, of any sink, has the same key. Sink names have no NUL; sources and ids may. */
  ghost predicate SharesKey(sink: string, source: string, id: string, sink': string, source': string, id': string) {
    && NoNul(sink') && source' != "" && id' != "" && (sink' != sink || source' != source || id' != id)
    && KeyText(sink', source', id') == KeyText(sink, source, id)
  }

  /** A NUL of source and id joined, other than the one that joins them, with text on both sides of it. */
  predicate AnotherCut(source: string, id: string) {
    var t := source + [NUL] + id;
    exists k | 0 < k < |t| - 1 :: k != |source| && t[k] == NUL
  }

  /** Equal key texts agree on the sink and on the joined rest. */
  lemma SameRest(sink: string, source: string, id: string, sink': string, source': string, id': string)
    requires NoNul(sink) && NoNul(sink')
    ensures KeyText(sink', source', id') == KeyText(sink, source, id)
      <==> sink' == sink && source' + [NUL] + id' == source + [NUL] + id
  {
    assert KeyText(sink, source, id) == sink + [NUL] + (source + [NUL] + id);
    assert KeyText(sink', source', id') == sink' + [NUL] + (source' + [NUL] + id');
    if KeyText(sink', source', id') == KeyText(sink, source, id) {
      CutAtNul(sink', source' + [NUL] + id', sink, source + [NUL] + id);
    }
  }

  /** Cutting elsewhere gives another identity with the same key. */
  lemma CutElsewhere(sink: string, source: string, id: string)
    requires NoNul(sink) && AnotherCut(source, id)
    ensures exists sink', source', id' :: SharesKey(sink, source, id, sink', source', id')
  {
    var t := source + [NUL] + id;
    var k :| 0 < k < |t| - 1 && k != |source| && t[k] == NUL;
    assert t == t[..k] + [NUL] + t[k + 1..];
    SameRest(sink, source, id, sink, t[..k], t[k + 1..]);
    assert SharesKey(sink, source, id, sink, t[..k], t[k + 1..]);
  }

  /** And another identity with the same key is cut elsewhere. */
  lemma SharedIsCut(sink: string, source: string, id: string, sink': string, source': string, id': string)
    requires NoNul(sink) && SharesKey(sink, source, id, sink', source', id')
    ensures AnotherCut(source, id)
  {
    SameRest(sink, source, id, sink', source', id');
    var t, k := source + [NUL] + id, |source'|;
    assert t == source' + [NUL] + id';
    assert t[k] == NUL;
    assert source == t[..|source|] && id == t[|source| + 1..];
    assert source' == t[..k] && id' == t[k + 1..];
  }

  /**
   Exactly when a key is shared: an identity has the same key as another acceptable one if and only if its source
   and id, joined, hold a NUL besides the joining one, strictly inside.
   */
  lemma KeySharedExactly(sink: string, source: string, id: string)
    requires NoNul(sink) && source != "" && id != ""
    ensures (exists sink', source', id' :: SharesKey(sink, source, id, sink', source', id')) <==> AnotherCut(source, id)
  {
    if AnotherCut(source, id) {
      CutElsewhere(sink, source, id);
    }
    if sink', source', id' :| SharesKey(sink, source, id, sink', source', id') {
      SharedIsCut(sink, source, id, sink', source', id');
    }
  }

  /** Two acceptable identities that share a key, the first with a source free of NUL. */
  lemma KeysCollide(sink: string)
    requires NoNul(sink)
    ensures SharesKey(sink, "a", "b" + [NUL] + "c", sink, "a" + [NUL] + "b", "c")
  {
    assert "a" + [NUL] + ("b" + [NUL] + "c") == "a" + [NUL] + "b" + [NUL] + "c";
    SameRest(sink, "a", "b" + [NUL] + "c", sink, "a" + [NUL] + "b", "c");
  }
}
