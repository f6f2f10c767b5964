/** UTF-16 (section 3.9 of the Unicode Standard): scalar values, surrogates and the pairs they form. */
module Unicode {
  type CodeUnit = c: nat | c < 0x1_0000

  /** Every code point but the surrogates. */
  predicate Scalar(p: nat) {
    p <= 0x10_FFFF && !(0xD800 <= p <= 0xDFFF)
  }

  predicate High(c: nat) {
    0xD800 <= c <= 0xDBFF
  }

  predicate Low(c: nat) {
    0xDC00 <= c <= 0xDFFF
  }

  /** One scalar value: a unit, or past U+FFFF two. */
  function Units(p: nat): seq<CodeUnit>
    requires Scalar(p)
  {
    if p < 0x1_0000 then [p] else [0xD800 + (p - 0x1_0000) / 0x400, 0xDC00 + (p - 0x1_0000) % 0x400]
  }

  /** The code point of a surrogate pair. */
  function Pair(high: nat, low: nat): (p: nat)
    requires High(high) && Low(low)
    ensures p >= 0x1_0000
  {
    0x1_0000 + (high - 0xD800) * 0x400 + (low - 0xDC00)
  }

  /** Two units are a high and a low surrogate exactly if they are one scalar value, the one they pair up to. */
  lemma PairsExact(a: CodeUnit, b: CodeUnit)
    ensures High(a) && Low(b) <==> exists p :: Scalar(p) && Units(p) == [a, b]
    ensures High(a) && Low(b) ==> Scalar(Pair(a, b)) && Units(Pair(a, b)) == [a, b]
  {
    if High(a) && Low(b) {
      assert Units(Pair(a, b)) == [a, b];
    }
    if p :| Scalar(p) && Units(p) == [a, b] {
      assert Units(p)[0] == a && Units(p)[1] == b;
    }
  }

  /** A unit on its own is a scalar value exactly if it is no surrogate. */
  lemma SinglesExact(a: CodeUnit)
    ensures !High(a) && !Low(a) <==> exists p :: Scalar(p) && Units(p) == [a]
    ensures !High(a) && !Low(a) ==> Scalar(a) && Units(a) == [a]
  {
    if !High(a) && !Low(a) {
      assert Units(a) == [a];
    }
    if p :| Scalar(p) && Units(p) == [a] {
      assert Units(p)[0] == a;
    }
  }

  predicate Scalars(ps: seq<nat>) {
    forall i | 0 <= i < |ps| :: Scalar(ps[i])
  }

  function Encode(ps: seq<nat>): seq<CodeUnit>
    requires Scalars(ps)
  {
    if |ps| == 0 then [] else Units(ps[0]) + Encode(ps[1..])
  }
}
