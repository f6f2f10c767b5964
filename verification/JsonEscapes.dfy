/**
 The Go SDK's escape scanner. JSON texts are concrete syntax trees (RFC 8259), rendered to bytes; the scanner sees
 only the bytes and skips through them with a moving index.
 */
module JsonEscapes {
  import opened Basics
  import opened Unicode

  const QUOTE: byte := 0x22
  const BACKSLASH: byte := 0x5C
  const LOWER_U: byte := 0x75

  // ----- JSON text -----

  /** One character of a JSON string as written (section 7 of RFC 8259); UTF-8 sequences are several plain bytes. */
  datatype Unit = Plain(b: byte) | Short(c: byte) | Hex(d0: byte, d1: byte, d2: byte, d3: byte)

  datatype Value =
    | Token(text: Bytes)                            // true, false, null or a number
    | Text(units: seq<Unit>)
    | Array(pad: Bytes, items: Items)               // `pad` is the white space of an empty array
    | Object(pad: Bytes, members: Members)

  datatype Items = NoItems | Item(before: Bytes, value: Value, after: Bytes, rest: Items)

  datatype Members =
    | NoMembers
    | Member(before: Bytes, name: seq<Unit>, gap: Bytes, beforeValue: Bytes, value: Value, after: Bytes, rest: Members)

  datatype Document = Document(before: Bytes, value: Value, after: Bytes)

  predicate IsHex(b: byte) {
    0x30 <= b <= 0x39 || 0x41 <= b <= 0x46 || 0x61 <= b <= 0x66
  }

  predicate UnitOk(u: Unit) {
    match u
    case Plain(b) => b >= 0x20 && b != QUOTE && b != BACKSLASH
    case Short(c) => c == QUOTE || c == BACKSLASH || c == 0x2F
      || c == 0x62 || c == 0x66 || c == 0x6E || c == 0x72 || c == 0x74
    case Hex(a, b, c, d) => IsHex(a) && IsHex(b) && IsHex(c) && IsHex(d)
  }

  predicate UnitsOk(us: seq<Unit>) {
    forall i | 0 <= i < |us| :: UnitOk(us[i])
  }

  predicate Space(bs: Bytes) {
    forall i | 0 <= i < |bs| :: bs[i] == 0x20 || bs[i] == 0x09 || bs[i] == 0x0A || bs[i] == 0x0D
  }

  /** Literals and numbers; more than the grammar allows, which only makes the theorem cover more. */
  predicate TokenOk(bs: Bytes) {
    forall i | 0 <= i < |bs| :: bs[i] != QUOTE && bs[i] != BACKSLASH
  }

  predicate ValueOk(v: Value) {
    match v
    case Token(text) => TokenOk(text)
    case Text(units) => UnitsOk(units)
    case Array(pad, items) => Space(pad) && ItemsOk(items)
    case Object(pad, members) => Space(pad) && MembersOk(members)
  }

  predicate ItemsOk(xs: Items) {
    match xs
    case NoItems => true
    case Item(before, value, after, rest) => Space(before) && ValueOk(value) && Space(after) && ItemsOk(rest)
  }

  predicate MembersOk(ms: Members) {
    match ms
    case NoMembers => true
    case Member(before, name, gap, beforeValue, value, after, rest) =>
      Space(before) && UnitsOk(name) && Space(gap) && Space(beforeValue)
        && ValueOk(value) && Space(after) && MembersOk(rest)
  }

  predicate DocumentOk(d: Document) {
    Space(d.before) && ValueOk(d.value) && Space(d.after)
  }

  // ----- Pieces: the text as bytes outside escapes and string characters -----

  datatype Piece = Mark(b: byte) | Char(u: Unit)

  function Marks(bs: Bytes): seq<Piece> {
    seq(|bs|, i requires 0 <= i < |bs| => Mark(bs[i]))
  }

  function Chars(us: seq<Unit>): seq<Piece> {
    [Mark(QUOTE)] + seq(|us|, i requires 0 <= i < |us| => Char(us[i])) + [Mark(QUOTE)]
  }

  function ValuePieces(v: Value): seq<Piece> {
    match v
    case Token(text) => Marks(text)
    case Text(units) => Chars(units)
    case Array(pad, items) => [Mark(0x5B)] + Marks(pad) + ItemsPieces(items) + [Mark(0x5D)]
    case Object(pad, members) => [Mark(0x7B)] + Marks(pad) + MembersPieces(members) + [Mark(0x7D)]
  }

  function ItemsPieces(xs: Items): seq<Piece> {
    match xs
    case NoItems => []
    case Item(before, value, after, rest) =>
      Marks(before) + ValuePieces(value) + Marks(after)
        + (if rest.NoItems? then [] else [Mark(0x2C)] + ItemsPieces(rest))
  }

  function MembersPieces(ms: Members): seq<Piece> {
    match ms
    case NoMembers => []
    case Member(before, name, gap, beforeValue, value, after, rest) =>
      Marks(before) + Chars(name) + Marks(gap) + [Mark(0x3A)] + Marks(beforeValue) + ValuePieces(value) + Marks(after)
      + (if rest.NoMembers? then [] else [Mark(0x2C)] + MembersPieces(rest))
  }

  function DocumentPieces(d: Document): seq<Piece> {
    Marks(d.before) + ValuePieces(d.value) + Marks(d.after)
  }

  function PieceBytes(p: Piece): Bytes {
    match p
    case Mark(b) => [b]
    case Char(Plain(b)) => [b]
    case Char(Short(c)) => [BACKSLASH, c]
    case Char(Hex(a, b, c, d)) => [BACKSLASH, LOWER_U, a, b, c, d]
  }

  /** The bytes of the first n pieces. */
  function Spelling(ps: seq<Piece>, n: nat): Bytes
    requires n <= |ps|
  {
    if n == 0 then [] else Spelling(ps, n - 1) + PieceBytes(ps[n - 1])
  }

  function Render(d: Document): Bytes {
    Spelling(DocumentPieces(d), |DocumentPieces(d)|)
  }

  // ----- What the escapes denote -----

  function Digit(b: byte): nat
    requires IsHex(b)
  {
    if b <= 0x39 then b as nat - 0x30 else if b <= 0x46 then b as nat - 0x37 else b as nat - 0x57
  }

  predicate AllHex(bs: Bytes) {
    forall i | 0 <= i < |bs| :: IsHex(bs[i])
  }

  function HexValue(bs: Bytes): nat
    requires AllHex(bs)
  {
    if |bs| == 0 then 0 else HexValue(bs[..|bs| - 1]) * 16 + Digit(bs[|bs| - 1])
  }

  const LOWER_CASE: Bytes :=
    [0x30, 0x31, 0x32, 0x33, 0x34, 0x35, 0x36, 0x37, 0x38, 0x39, 0x61, 0x62, 0x63, 0x64, 0x65, 0x66]
  const UPPER_CASE: Bytes :=
    [0x30, 0x31, 0x32, 0x33, 0x34, 0x35, 0x36, 0x37, 0x38, 0x39, 0x41, 0x42, 0x43, 0x44, 0x45, 0x46]

  /** The digits, in the order of their values, in lower and in upper case. */
  lemma DigitsExact(b: byte)
    ensures IsHex(b) <==> b in LOWER_CASE || b in UPPER_CASE
    ensures IsHex(b) ==> Digit(b) < 16 && (b == LOWER_CASE[Digit(b)] || b == UPPER_CASE[Digit(b)])
  {
    if IsHex(b) {
      assert b == LOWER_CASE[Digit(b)] || b == UPPER_CASE[Digit(b)];
    }
  }

  lemma OneMoreDigit(bs: Bytes, b: byte)
    requires AllHex(bs) && IsHex(b)
    ensures AllHex(bs + [b]) && HexValue(bs + [b]) == 0x10 * HexValue(bs) + Digit(b)
  {
    assert (bs + [b])[..|bs|] == bs;
  }

  /** Four digits denote their values weighted by powers of sixteen. */
  lemma FourDigits(a: byte, b: byte, c: byte, d: byte)
    requires IsHex(a) && IsHex(b) && IsHex(c) && IsHex(d)
    ensures ParseHex([a, b, c, d]) == Some(0x1000 * Digit(a) + 0x100 * Digit(b) + 0x10 * Digit(c) + Digit(d))
  {
    OneMoreDigit([], a);
    OneMoreDigit([a], b);
    OneMoreDigit([a] + [b], c);
    OneMoreDigit([a] + [b] + [c], d);
    assert [a, b, c, d] == [a] + [b] + [c] + [d] && [] + [a] == [a];
  }

  /** strconv.ParseUint in base 16, on as many digits as fit in 16 bits. */
  function ParseHex(bs: Bytes): Option<nat> {
    if AllHex(bs) then Some(HexValue(bs)) else None
  }

  /** The code unit a \u escape denotes. */
  function Escaped(u: Unit): Option<nat> {
    if u.Hex? then ParseHex([u.d0, u.d1, u.d2, u.d3]) else None
  }

  predicate HighUnit(u: Unit) {
    Escaped(u).Some? && High(Escaped(u).value)
  }

  predicate LowUnit(u: Unit) {
    Escaped(u).Some? && Low(Escaped(u).value)
  }

  /**
   No escape denotes NUL, and surrogate escapes come in pairs: each high one right before a low one, and vice versa.
   */
  predicate StringOk(us: seq<Unit>) {
    forall i: nat | i < |us| :: StringOkAt(us, i)
  }

  predicate StringOkAt(us: seq<Unit>, i: nat)
    requires i < |us|
  {
    && Escaped(us[i]) != Some(0)
    && (HighUnit(us[i]) ==> i + 1 < |us| && LowUnit(us[i + 1]))
    && (LowUnit(us[i]) ==> i > 0 && HighUnit(us[i - 1]))
  }

  predicate ValueFine(v: Value) {
    match v
    case Token(_) => true
    case Text(units) => StringOk(units)
    case Array(_, items) => ItemsFine(items)
    case Object(_, members) => MembersFine(members)
  }

  predicate ItemsFine(xs: Items) {
    xs.Item? ==> ValueFine(xs.value) && ItemsFine(xs.rest)
  }

  /** Member names count too. */
  predicate MembersFine(ms: Members) {
    ms.Member? ==> StringOk(ms.name) && ValueFine(ms.value) && MembersFine(ms.rest)
  }

  // ----- The same on pieces -----

  predicate PieceOk(p: Piece) {
    match p
    case Mark(b) => b != BACKSLASH
    case Char(u) => UnitOk(u)
  }

  predicate PiecesOk(ps: seq<Piece>) {
    forall i | 0 <= i < |ps| :: PieceOk(ps[i])
  }

  predicate HighPiece(p: Piece) {
    p.Char? && HighUnit(p.u)
  }

  predicate LowPiece(p: Piece) {
    p.Char? && LowUnit(p.u)
  }

  predicate FineAt(ps: seq<Piece>, i: nat)
    requires i < |ps|
  {
    && (ps[i].Char? ==> Escaped(ps[i].u) != Some(0))
    && (HighPiece(ps[i]) ==> i + 1 < |ps| && LowPiece(ps[i + 1]))
    && (LowPiece(ps[i]) ==> i > 0 && HighPiece(ps[i - 1]))
  }

  predicate Fine(ps: seq<Piece>) {
    forall i: nat | i < |ps| :: FineAt(ps, i)
  }

  /** Pieces that do not begin or end inside a string. */
  predicate Closed(ps: seq<Piece>) {
    |ps| > 0 ==> ps[0].Mark? && ps[|ps| - 1].Mark?
  }

  /** A closed stretch of well-formed pieces whose escapes are fine exactly when `fine` holds. */
  ghost predicate Part(ps: seq<Piece>, fine: bool) {
    Closed(ps) && PiecesOk(ps) && (Fine(ps) <==> fine)
  }

  lemma FineLeft(a: seq<Piece>, b: seq<Piece>, i: nat)
    requires Closed(a) && Closed(b) && i < |a|
    ensures FineAt(a + b, i) <==> FineAt(a, i)
  {
    assert (a + b)[i] == a[i] && (i > 0 ==> (a + b)[i - 1] == a[i - 1]);
    assert i + 1 < |a| ==> (a + b)[i + 1] == a[i + 1];
  }

  lemma FineRight(a: seq<Piece>, b: seq<Piece>, i: nat)
    requires Closed(a) && Closed(b) && i < |b|
    ensures FineAt(a + b, |a| + i) <==> FineAt(b, i)
  {
    assert (a + b)[|a| + i] == b[i] && (i > 0 ==> (a + b)[|a| + i - 1] == b[i - 1]);
    assert i + 1 < |b| ==> (a + b)[|a| + i + 1] == b[i + 1];
  }

  /** A pair of escapes never straddles two closed parts. */
  lemma Join(a: seq<Piece>, x: bool, b: seq<Piece>, y: bool)
    requires Part(a, x) && Part(b, y)
    ensures Part(a + b, x && y)
  {
    var c := a + b;
    forall i: nat | i < |c| ensures FineAt(c, i) <==> if i < |a| then FineAt(a, i) else FineAt(b, i - |a|) {
      if i < |a| {
        FineLeft(a, b, i);
      } else {
        FineRight(a, b, i - |a|);
      }
    }
    if Fine(c) {
      forall i: nat | i < |b| ensures FineAt(b, i) {
        assert FineAt(c, |a| + i);
      }
      assert forall i: nat | i < |a| :: FineAt(c, i);
    }
  }

  lemma Join3(a: seq<Piece>, x: bool, b: seq<Piece>, y: bool, c: seq<Piece>, z: bool)
    requires Part(a, x) && Part(b, y) && Part(c, z)
    ensures Part(a + b + c, x && y && z)
  {
    Join(a, x, b, y);
    Join(a + b, x && y, c, z);
  }

  lemma MarkPart(b: byte)
    requires b != BACKSLASH
    ensures Part([Mark(b)], true)
  {
  }

  lemma MarksPart(bs: Bytes)
    requires Space(bs) || TokenOk(bs)
    ensures Part(Marks(bs), true)
  {
  }

  lemma CharAt(us: seq<Unit>, i: nat)
    requires i < |us|
    ensures Chars(us)[i + 1] == Char(us[i]) && (FineAt(Chars(us), i + 1) <==> StringOkAt(us, i))
  {
    assert i + 1 < |us| ==> Chars(us)[i + 2] == Char(us[i + 1]);
    assert i > 0 ==> Chars(us)[i] == Char(us[i - 1]);
  }

  lemma CharsPart(us: seq<Unit>)
    requires UnitsOk(us)
    ensures Part(Chars(us), StringOk(us))
  {
    var ps := Chars(us);
    forall i: nat | i < |us| ensures ps[i + 1] == Char(us[i]) && (FineAt(ps, i + 1) <==> StringOkAt(us, i)) {
      CharAt(us, i);
    }
    if StringOk(us) {
      forall i: nat | i < |ps| ensures FineAt(ps, i) {
        if 0 < i < |ps| - 1 {
          assert StringOkAt(us, i - 1);
          CharAt(us, i - 1);
        }
      }
    }
    if Fine(ps) {
      forall i: nat | i < |us| ensures StringOkAt(us, i) {
        assert FineAt(ps, i + 1);
      }
    }
  }

  lemma ValuePart(v: Value)
    requires ValueOk(v)
    ensures Part(ValuePieces(v), ValueFine(v))
  {
    match v
    case Token(text) => MarksPart(text);
    case Text(units) => CharsPart(units);
    case Array(pad, items) =>
      ItemsPart(items);
      Bracketed(0x5B, pad, ItemsPieces(items), ItemsFine(items), 0x5D);
    case Object(pad, members) =>
      MembersPart(members);
      Bracketed(0x7B, pad, MembersPieces(members), MembersFine(members), 0x7D);
  }

  lemma Bracketed(open: byte, pad: Bytes, ps: seq<Piece>, fine: bool, close: byte)
    requires open != BACKSLASH && close != BACKSLASH && Space(pad) && Part(ps, fine)
    ensures Part([Mark(open)] + Marks(pad) + ps + [Mark(close)], fine)
  {
    MarkPart(open);
    MarksPart(pad);
    MarkPart(close);
    Join3([Mark(open)], true, Marks(pad), true, ps, fine);
    Join([Mark(open)] + Marks(pad) + ps, fine, [Mark(close)], true);
  }

  lemma ItemsPart(xs: Items)
    requires ItemsOk(xs)
    ensures Part(ItemsPieces(xs), ItemsFine(xs))
  {
    match xs
    case NoItems =>
    case Item(before, value, after, rest) =>
      MarksPart(before);
      ValuePart(value);
      MarksPart(after);
      ItemsPart(rest);
      var tail := if rest.NoItems? then [] else [Mark(0x2C)] + ItemsPieces(rest);
      CommaPart(ItemsPieces(rest), ItemsFine(rest));
      Join3(Marks(before), true, ValuePieces(value), ValueFine(value), Marks(after), true);
      Join(Marks(before) + ValuePieces(value) + Marks(after), ValueFine(value), tail, ItemsFine(rest));
  }

  lemma CommaPart(ps: seq<Piece>, fine: bool)
    requires Part(ps, fine)
    ensures Part([Mark(0x2C)] + ps, fine) && Part([], true)
  {
    MarkPart(0x2C);
    Join([Mark(0x2C)], true, ps, fine);
  }

  lemma MembersPart(ms: Members)
    requires MembersOk(ms)
    ensures Part(MembersPieces(ms), MembersFine(ms))
  {
    match ms
    case NoMembers =>
    case Member(before, name, gap, beforeValue, value, after, rest) =>
      NamePart(before, name, gap, beforeValue);
      ValuePart(value);
      MarksPart(after);
      MembersPart(rest);
      var front := Marks(before) + Chars(name) + Marks(gap) + [Mark(0x3A)] + Marks(beforeValue);
      var tail := if rest.NoMembers? then [] else [Mark(0x2C)] + MembersPieces(rest);
      CommaPart(MembersPieces(rest), MembersFine(rest));
      Join3(front, StringOk(name), ValuePieces(value), ValueFine(value), Marks(after), true);
      Join(front + ValuePieces(value) + Marks(after), StringOk(name) && ValueFine(value), tail, MembersFine(rest));
  }

  lemma NamePart(before: Bytes, name: seq<Unit>, gap: Bytes, beforeValue: Bytes)
    requires Space(before) && UnitsOk(name) && Space(gap) && Space(beforeValue)
    ensures Part(Marks(before) + Chars(name) + Marks(gap) + [Mark(0x3A)] + Marks(beforeValue), StringOk(name))
  {
    MarksPart(before);
    CharsPart(name);
    MarksPart(gap);
    MarkPart(0x3A);
    MarksPart(beforeValue);
    Join3(Marks(before), true, Chars(name), StringOk(name), Marks(gap), true);
    Join3(Marks(before) + Chars(name) + Marks(gap), StringOk(name), [Mark(0x3A)], true, Marks(beforeValue), true);
  }

  lemma DocumentPart(d: Document)
    requires DocumentOk(d)
    ensures Part(DocumentPieces(d), ValueFine(d.value))
  {
    MarksPart(d.before);
    ValuePart(d.value);
    MarksPart(d.after);
    Join3(Marks(d.before), true, ValuePieces(d.value), ValueFine(d.value), Marks(d.after), true);
  }

  // ----- The scanner -----

  lemma {:induction false} SpellingGrows(ps: seq<Piece>, n: nat, m: nat)
    requires n <= m <= |ps|
    ensures Spelling(ps, n) <= Spelling(ps, m)
    decreases m
  {
    if n < m {
      SpellingGrows(ps, n, m - 1);
    }
  }

  /** What stands at position `at`, where piece p begins. */
  ghost predicate StandsAt(data: Bytes, at: nat, p: Piece) {
    match p
    case Mark(b) => at < |data| && data[at] == b
    case Char(Plain(b)) => at < |data| && data[at] == b
    case Char(Short(c)) => at + 1 < |data| && data[at] == BACKSLASH && data[at + 1] == c
    case Char(Hex(a, b, c, d)) =>
      at + 5 < |data| && data[at] == BACKSLASH && data[at + 1] == LOWER_U && data[at + 2..at + 6] == [a, b, c, d]
  }

  lemma BytesStand(data: Bytes, before: Bytes, p: Piece)
    requires before + PieceBytes(p) <= data
    ensures StandsAt(data, |before|, p)
  {
    var at, bytes := |before|, PieceBytes(p);
    assert (before + bytes)[at] == bytes[0];
    if |bytes| > 1 {
      assert (before + bytes)[at + 1] == bytes[1];
    }
    if |bytes| == 6 {
      assert (before + bytes)[at + 2..at + 6] == bytes[2..6];
      assert data[at + 2..at + 6] == (before + bytes)[at + 2..at + 6];
    }
  }

  /** A \u escape. */
  predicate IsEscape(p: Piece) {
    p.Char? && p.u.Hex?
  }

  function Length(p: Piece): nat {
    if p.Mark? || p.u.Plain? then 1 else if p.u.Short? then 2 else 6
  }

  /** Where piece n begins. */
  function Start(ps: seq<Piece>, n: nat): nat
    requires n <= |ps|
  {
    if n == 0 then 0 else Start(ps, n - 1) + Length(ps[n - 1])
  }

  /** The bytes spell the pieces, one after the other. */
  ghost predicate Spells(data: Bytes, ps: seq<Piece>) {
    |data| == Start(ps, |ps|) && forall n: nat | n < |ps| :: PieceStands(data, ps, n)
  }

  ghost predicate PieceStands(data: Bytes, ps: seq<Piece>, n: nat)
    requires n < |ps|
  {
    StandsAt(data, Start(ps, n), ps[n])
  }

  lemma {:induction false} SpellingLength(ps: seq<Piece>, n: nat)
    requires n <= |ps|
    ensures |Spelling(ps, n)| == Start(ps, n)
  {
    if n > 0 {
      SpellingLength(ps, n - 1);
    }
  }

  lemma RenderSpells(ps: seq<Piece>)
    ensures Spells(Spelling(ps, |ps|), ps)
  {
    var data := Spelling(ps, |ps|);
    SpellingLength(ps, |ps|);
    forall n: nat | n < |ps| ensures PieceStands(data, ps, n) {
      PieceInRender(ps, n);
    }
  }

  lemma PieceInRender(ps: seq<Piece>, n: nat)
    requires n < |ps|
    ensures PieceStands(Spelling(ps, |ps|), ps, n)
  {
    SpellingLength(ps, n);
    SpellingGrows(ps, n + 1, |ps|);
    BytesStand(Spelling(ps, |ps|), Spelling(ps, n), ps[n]);
  }

  /** The first one or two bytes of a piece tell what it is and how long. */
  lemma Opening(data: Bytes, at: nat, p: Piece)
    requires PieceOk(p) && StandsAt(data, at, p)
    ensures at + Length(p) <= |data|
    ensures data[at] != BACKSLASH ==> Length(p) == 1 && !IsEscape(p)
    ensures data[at] == BACKSLASH ==> at + 1 < |data| && (data[at + 1] == LOWER_U <==> IsEscape(p))
    ensures data[at] == BACKSLASH && data[at + 1] != LOWER_U ==> Length(p) == 2
    ensures IsEscape(p) ==> Length(p) == 6 && Escaped(p.u).Some? && ParseHex(data[at + 2..at + 6]) == Escaped(p.u)
  {
  }

  /** Whether the bytes after a high surrogate escape are a low one: if and only if the next piece is. */
  predicate LowFollows(data: Bytes, i: nat) {
    i + 6 < |data| && data[i + 1] == BACKSLASH && data[i + 2] == LOWER_U
    && (var low := ParseHex(data[i + 3..i + 7]); low.Some? && Low(low.value))
  }

  lemma LowFollowsPiece(data: Bytes, i: nat, p: Piece)
    requires PieceOk(p) && StandsAt(data, i + 1, p)
    ensures LowFollows(data, i) <==> LowPiece(p)
  {
    if p.Char? && p.u.Hex? {
      assert data[i + 3..i + 7] == [p.u.d0, p.u.d1, p.u.d2, p.u.d3];
    }
  }

  lemma LowFollowsExactly(ps: seq<Piece>, n: nat, data: Bytes, i: nat)
    requires 0 < n <= |ps| && PiecesOk(ps) && Spells(data, ps) && i + 1 == Start(ps, n)
    ensures LowFollows(data, i) <==> n < |ps| && LowPiece(ps[n])
    ensures LowFollows(data, i) ==> Start(ps, n + 1) == i + 7
  {
    if n < |ps| {
      assert PieceStands(data, ps, n) && PieceOk(ps[n]);
      LowFollowsPiece(data, i, ps[n]);
    }
  }

  /** The first n pieces are fine and do not end in the middle of a pair. */
  ghost predicate FineUpTo(ps: seq<Piece>, n: nat) {
    n <= |ps| && (forall m: nat | m < n :: FineAt(ps, m)) && (n > 0 ==> !HighPiece(ps[n - 1]))
  }

  /** Bytes and pieces in step: the index stands where piece n begins. */
  ghost predicate InStep(data: Bytes, ps: seq<Piece>, i: nat, n: nat) {
    PiecesOk(ps) && Spells(data, ps) && FineUpTo(ps, n) && i == Start(ps, n) <= |data|
  }

  lemma OpeningInStep(data: Bytes, ps: seq<Piece>, i: nat, n: nat)
    requires InStep(data, ps, i, n) && n < |ps|
    ensures i + Length(ps[n]) <= |data| && i < |data|
    ensures data[i] != BACKSLASH ==> InStep(data, ps, i + 1, n + 1)
    ensures data[i] == BACKSLASH ==> i + 1 < |data| && (data[i + 1] == LOWER_U <==> IsEscape(ps[n]))
    ensures data[i] == BACKSLASH && data[i + 1] != LOWER_U ==> InStep(data, ps, i + 2, n + 1)
    ensures IsEscape(ps[n]) ==>
      Length(ps[n]) == 6 && Escaped(ps[n].u).Some? && ParseHex(data[i + 2..i + 6]) == Escaped(ps[n].u)
  {
    assert PieceStands(data, ps, n) && PieceOk(ps[n]);
    Opening(data, i, ps[n]);
  }

  lemma EscapeInStep(data: Bytes, ps: seq<Piece>, i: nat, n: nat, code: nat)
    requires InStep(data, ps, i, n) && n < |ps| && IsEscape(ps[n]) && Escaped(ps[n].u) == Some(code)
    ensures code == 0 || Low(code) ==> !Fine(ps)
    ensures code != 0 && !Low(code) && !High(code) ==> InStep(data, ps, i + 6, n + 1)
    ensures High(code) && !LowFollows(data, i + 5) ==> !Fine(ps)
    ensures High(code) && LowFollows(data, i + 5) ==> n + 2 <= |ps| && InStep(data, ps, i + 12, n + 2)
  {
    assert PieceStands(data, ps, n) && PieceOk(ps[n]);
    LowFollowsExactly(ps, n + 1, data, i + 5);
    if code == 0 || Low(code) || (High(code) && !LowFollows(data, i + 5)) {
      assert !FineAt(ps, n);
    } else {
      assert FineAt(ps, n);
      if High(code) {
        assert FineAt(ps, n + 1);
      }
    }
  }

  /**
   The loop: in bounds, although the index jumps, and right on every text whose escapes are complete. `ps` is the
   text the bytes spell; the scan itself sees only the bytes.
   */
  method ScanEscapes(data: Bytes, ghost ps: seq<Piece>) returns (ok: bool)
    requires PiecesOk(ps) && Spells(data, ps)
    ensures ok <==> Fine(ps)
  {
    var i := 0;
    ghost var n := 0;
    while i < |data|
      invariant InStep(data, ps, i, n)
      decreases |data| - i
    {
      OpeningInStep(data, ps, i, n);
      if data[i] != BACKSLASH {
        i, n := i + 1, n + 1;
        continue;
      }
      i := i + 1;
      if data[i] != LOWER_U {
        i, n := i + 1, n + 1;
        continue;
      }
      var code := ParseHex(data[i + 1..i + 5]).value;
      EscapeInStep(data, ps, i - 1, n, code);
      i := i + 4;
      if code == 0 || Low(code) {
        return false;
      }
      n := n + 1;
      if High(code) {
        if i + 6 >= |data| || data[i + 1] != BACKSLASH || data[i + 2] != LOWER_U {
          return false;
        }
        var low := ParseHex(data[i + 3..i + 7]);
        if low.None? || !Low(low.value) {
          return false;
        }
        i, n := i + 6, n + 1;
      }
      i := i + 1;
    }
    EndInStep(data, ps, i, n);
    return true;
  }

  lemma EndInStep(data: Bytes, ps: seq<Piece>, i: nat, n: nat)
    requires InStep(data, ps, i, n) && i == |data|
    ensures Fine(ps)
  {
    if n < |ps| {
      OpeningInStep(data, ps, i, n);
    }
  }

  /**
   validJSON: accepts exactly the valid UTF-8 JSON texts in which no escape, of a value or a member name, denotes
   NUL or an unpaired surrogate. `syntax` is the verdict of the JSON parser and `d` the text it accepted.
   */
  method ValidJson(data: Bytes, utf8: bool, syntax: bool, ghost d: Document) returns (ok: bool)
    requires syntax ==> DocumentOk(d) && data == Render(d)
    ensures ok <==> utf8 && syntax && ValueFine(d.value)
  {
    if !utf8 || !syntax {
      return false;
    }
    DocumentPart(d);
    RenderSpells(DocumentPieces(d));
    ok := ScanEscapes(data, DocumentPieces(d));
  }
}
