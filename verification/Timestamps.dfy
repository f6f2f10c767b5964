/**
 The spool stores times as fixed-width UTC text and lets SQLite compare the text.
 This module models the layout "2006-01-02T15:04:05.000000000Z07:00" and proves that
 comparing two such texts byte by byte is comparing the instants they denote.
 */
module Timestamps {

  const NANOS_PER_SECOND := 1_000_000_000
  const SECONDS_PER_DAY := 86_400

  /** Days from 0000-01-01 to 10000-01-01 in the proleptic Gregorian calendar. */
  const DAY_LIMIT := 3_652_425

  /** Nanoseconds since 0000-01-01T00:00:00Z, for the years 0 to 9999. */
  type Time = t: int | 0 <= t < DAY_LIMIT * SECONDS_PER_DAY * NANOS_PER_SECOND

  // ----- Calendar -----

  predicate Leap(y: nat) {
    y % 4 == 0 && (y % 100 != 0 || y % 400 == 0)
  }

  function YearLength(y: nat): nat {
    if Leap(y) then 366 else 365
  }

  function DaysBeforeYear(y: nat): nat {
    if y == 0 then 0 else DaysBeforeYear(y - 1) + YearLength(y - 1)
  }

  lemma FourthYear(y: nat)
    ensures (y + 4) / 4 == (y + 3) / 4 + if y % 4 == 0 then 1 else 0
  {
  }

  lemma HundredthYear(y: nat)
    ensures (y + 100) / 100 == (y + 99) / 100 + if y % 100 == 0 then 1 else 0
  {
    var q, r := y / 100, y % 100;
    assert y == 100 * q + r;
    assert (y + 100) / 100 == q + 1;
    assert (y + 99) / 100 == if r == 0 then q else q + 1;
  }

  lemma FourHundredthYear(y: nat)
    ensures (y + 400) / 400 == (y + 399) / 400 + if y % 400 == 0 then 1 else 0
  {
    var q, r := y / 400, y % 400;
    assert y == 400 * q + r;
    assert (y + 400) / 400 == q + 1;
    assert (y + 399) / 400 == if r == 0 then q else q + 1;
  }

  lemma FourTimes(k: nat)
    ensures 4 * k % 4 == 0
  {
  }

  lemma CenturyIsFourth(y: nat)
    requires y % 100 == 0
    ensures y % 4 == 0
  {
    FourTimes(25 * (y / 100));
  }

  lemma HundredTimes(k: nat)
    ensures 100 * k % 100 == 0
  {
  }

  lemma FourCenturiesAreCentury(y: nat)
    requires y % 400 == 0
    ensures y % 100 == 0
  {
    HundredTimes(4 * (y / 400));
  }

  /** Leap years are the fourth years, less the hundredth, plus the four hundredth. */
  lemma LeapCounts(y: nat)
    ensures YearLength(y)
      == 365 + (if y % 4 == 0 then 1 else 0) - (if y % 100 == 0 then 1 else 0) + (if y % 400 == 0 then 1 else 0)
  {
    if y % 100 == 0 {
      CenturyIsFourth(y);
    }
    if y % 400 == 0 {
      FourCenturiesAreCentury(y);
    }
  }

  /** The Gregorian rule in closed form. */
  lemma {:induction false} DaysBeforeYearClosed(y: nat)
    ensures DaysBeforeYear(y) == 365 * y + (y + 3) / 4 - (y + 99) / 100 + (y + 399) / 400
  {
    if y > 0 {
      DaysBeforeYearClosed(y - 1);
      FourthYear(y - 1);
      HundredthYear(y - 1);
      FourHundredthYear(y - 1);
      LeapCounts(y - 1);
    }
  }

  lemma {:induction false} YearMonotone(y: nat, z: nat)
    requires y <= z
    ensures DaysBeforeYear(y) <= DaysBeforeYear(z)
    decreases z - y
  {
    if y < z {
      YearMonotone(y, z - 1);
    }
  }

  function YearFrom(d: nat, y: nat): (r: nat)
    requires DaysBeforeYear(y) <= d
    ensures DaysBeforeYear(r) <= d < DaysBeforeYear(r + 1)
    decreases d - DaysBeforeYear(y)
  {
    if d < DaysBeforeYear(y + 1) then y else YearFrom(d, y + 1)
  }

  function YearOf(d: nat): (r: nat)
    ensures DaysBeforeYear(r) <= d < DaysBeforeYear(r + 1)
  {
    YearFrom(d, 0)
  }

  /** Days before month m (0-based) of a year; month 12 stands for the year's end. */
  function DaysBeforeMonth(leap: bool, m: nat): nat
    requires m <= 12
  {
    if m == 0 then 0
    else DaysBeforeMonth(leap, m - 1) + MonthLength(leap, m - 1)
  }

  function MonthLength(leap: bool, m: nat): (n: nat)
    requires m < 12
    ensures 28 <= n <= 31
  {
    if m == 1 then if leap then 29 else 28
    else if m == 3 || m == 5 || m == 8 || m == 10 then 30
    else 31
  }

  function MonthFrom(leap: bool, doy: nat, m: nat): (r: nat)
    requires m < 12 && DaysBeforeMonth(leap, m) <= doy < DaysBeforeMonth(leap, 12)
    ensures m <= r < 12 && DaysBeforeMonth(leap, r) <= doy < DaysBeforeMonth(leap, r + 1)
    decreases 12 - m
  {
    if doy < DaysBeforeMonth(leap, m + 1) then m else MonthFrom(leap, doy, m + 1)
  }

  lemma MonthsFillYear(leap: bool)
    ensures DaysBeforeMonth(leap, 12) == if leap then 366 else 365
  {
    var feb := if leap then 29 else 28;
    assert DaysBeforeMonth(leap, 1) == 31;
    assert DaysBeforeMonth(leap, 2) == 31 + feb;
    assert DaysBeforeMonth(leap, 4) == 92 + feb;
    assert DaysBeforeMonth(leap, 6) == 153 + feb;
    assert DaysBeforeMonth(leap, 8) == 215 + feb;
    assert DaysBeforeMonth(leap, 10) == 276 + feb;
  }

  lemma {:induction false} MonthMonotone(leap: bool, m: nat, n: nat)
    requires m <= n <= 12
    ensures DaysBeforeMonth(leap, m) <= DaysBeforeMonth(leap, n)
    decreases n - m
  {
    if m < n {
      MonthMonotone(leap, m, n - 1);
    }
  }

  datatype Date = Date(year: nat, month: nat, day: nat)

  /** The civil date of a day number; month and day are 0-based here. */
  function DateOf(d: nat): (r: Date)
    ensures r.month < 12 && r.day < 31
    ensures d == DaysBeforeYear(r.year) + DaysBeforeMonth(Leap(r.year), r.month) + r.day
    ensures r.day < MonthLength(Leap(r.year), r.month)
    ensures d < DAY_LIMIT ==> r.year < 10000
  {
    var y := YearOf(d);
    MonthsFillYear(Leap(y));
    FourDigitYear(d, y);
    var doy := d - DaysBeforeYear(y);
    var m := MonthFrom(Leap(y), doy, 0);
    Date(y, m, doy - DaysBeforeMonth(Leap(y), m))
  }

  lemma FourDigitYear(d: nat, y: nat)
    requires DaysBeforeYear(y) <= d
    ensures d < DAY_LIMIT ==> y < 10000
  {
    DaysBeforeYearClosed(10000);
    if 10000 <= y {
      YearMonotone(10000, y);
    }
  }

  predicate DateLess(a: Date, b: Date) {
    || a.year < b.year
    || (a.year == b.year && a.month < b.month)
    || (a.year == b.year && a.month == b.month && a.day < b.day)
  }

  /** Day d falls in the month and year of date a. */
  ghost predicate Falls(d: nat, a: Date) {
    && a.month < 12 && d == DaysBeforeYear(a.year) + DaysBeforeMonth(Leap(a.year), a.month) + a.day
    && d < DaysBeforeYear(a.year) + DaysBeforeMonth(Leap(a.year), a.month + 1)
    && d < DaysBeforeYear(a.year + 1)
  }

  lemma DateFalls(d: nat)
    ensures Falls(d, DateOf(d))
  {
    var a := DateOf(d);
    MonthsFillYear(Leap(a.year));
    MonthMonotone(Leap(a.year), a.month + 1, 12);
  }

  lemma LaterYear(d: nat, e: nat, a: Date, b: Date)
    requires Falls(d, a) && Falls(e, b) && d < e
    ensures a.year <= b.year
  {
    if b.year < a.year {
      YearMonotone(b.year + 1, a.year);
    }
  }

  lemma LaterMonth(d: nat, e: nat, a: Date, b: Date)
    requires Falls(d, a) && Falls(e, b) && d < e && a.year == b.year
    ensures a.month <= b.month
  {
    if b.month < a.month {
      MonthMonotone(Leap(a.year), b.month + 1, a.month);
    }
  }

  /** Later days have later civil dates. */
  lemma DateMonotone(d: nat, e: nat)
    requires d < e
    ensures DateLess(DateOf(d), DateOf(e))
  {
    var a, b := DateOf(d), DateOf(e);
    DateFalls(d);
    DateFalls(e);
    LaterYear(d, e, a, b);
    if a.year == b.year {
      LaterMonth(d, e, a, b);
    }
  }

  // ----- Text -----

  function DigitChar(n: nat): (c: char)
    requires n < 10
  {
    '0' + n as char
  }

  function Pow10(w: nat): (p: nat)
    ensures p > 0
  {
    if w == 0 then 1 else 10 * Pow10(w - 1)
  }

  /** A number in decimal, padded with zeros to a fixed width. */
  function Digits(n: nat, w: nat): (s: string)
    requires n < Pow10(w)
    ensures |s| == w
  {
    if w == 0 then "" else Digits(n / 10, w - 1) + [DigitChar(n % 10)]
  }

  /** SQLite's BINARY collation on two texts. */
  predicate TextLess(a: string, b: string) {
    if b == "" then false
    else if a == "" then true
    else a[0] < b[0] || (a[0] == b[0] && TextLess(a[1..], b[1..]))
  }

  predicate TextLeq(a: string, b: string) {
    a == b || TextLess(a, b)
  }

  lemma {:induction false} TextAsymmetric(a: string, b: string)
    requires TextLess(a, b)
    ensures !TextLess(b, a) && a != b
  {
    if a != "" && a[0] == b[0] {
      TextAsymmetric(a[1..], b[1..]);
    }
  }

  lemma {:induction false} LessThenAnything(p: string, q: string, u: string, v: string)
    requires |p| == |q| && TextLess(p, q)
    ensures TextLess(p + u, q + v)
  {
    assert (p + u)[1..] == p[1..] + u && (q + v)[1..] == q[1..] + v;
    if p[0] == q[0] {
      LessThenAnything(p[1..], q[1..], u, v);
    }
  }

  lemma {:induction false} SameThenLess(p: string, u: string, v: string)
    requires TextLess(u, v)
    ensures TextLess(p + u, p + v)
  {
    if p == "" {
      assert p + u == u && p + v == v;
    } else {
      assert (p + u)[1..] == p[1..] + u && (p + v)[1..] == p[1..] + v;
      SameThenLess(p[1..], u, v);
    }
  }

  lemma {:induction false} DigitsLess(m: nat, n: nat, w: nat)
    requires m < n < Pow10(w)
    ensures TextLess(Digits(m, w), Digits(n, w))
  {
    var p, q := Digits(m / 10, w - 1), Digits(n / 10, w - 1);
    if m / 10 < n / 10 {
      DigitsLess(m / 10, n / 10, w - 1);
      LessThenAnything(p, q, [DigitChar(m % 10)], [DigitChar(n % 10)]);
    } else {
      assert TextLess([DigitChar(m % 10)], [DigitChar(n % 10)]);
      SameThenLess(p, [DigitChar(m % 10)], [DigitChar(n % 10)]);
    }
  }

  /** A fixed-width decimal field and the separator the layout string puts after it. */
  datatype Field = Field(width: nat, sep: string)

  predicate Fits(values: seq<nat>, layout: seq<Field>) {
    |values| == |layout| && forall i | 0 <= i < |values| :: values[i] < Pow10(layout[i].width)
  }

  function Render(values: seq<nat>, layout: seq<Field>): string
    requires Fits(values, layout)
  {
    if values == [] then ""
    else Digits(values[0], layout[0].width) + layout[0].sep + Render(values[1..], layout[1..])
  }

  /** Comparing rendered fields is comparing the values lexicographically. */
  lemma {:induction false} RenderLess(xs: seq<nat>, ys: seq<nat>, layout: seq<Field>, k: nat)
    requires Fits(xs, layout) && Fits(ys, layout) && k < |layout|
    requires xs[..k] == ys[..k] && xs[k] < ys[k]
    ensures TextLess(Render(xs, layout), Render(ys, layout))
  {
    var w, sep := layout[0].width, layout[0].sep;
    var restX, restY := Render(xs[1..], layout[1..]), Render(ys[1..], layout[1..]);
    if k == 0 {
      DigitsLess(xs[0], ys[0], w);
      LessThenAnything(Digits(xs[0], w), Digits(ys[0], w), sep, sep);
      LessThenAnything(Digits(xs[0], w) + sep, Digits(ys[0], w) + sep, restX, restY);
    } else {
      assert xs[0] == xs[..k][0] == ys[0];
      assert xs[1..][..k - 1] == xs[..k][1..] == ys[1..][..k - 1];
      RenderLess(xs[1..], ys[1..], layout[1..], k - 1);
      SameThenLess(Digits(xs[0], w) + sep, restX, restY);
    }
  }

  const LAYOUT :=
    [Field(4, "-"), Field(2, "-"), Field(2, "T"), Field(2, ":"), Field(2, ":"), Field(2, "."), Field(9, "Z")]

  lemma Widths()
    ensures Pow10(2) == 100 && Pow10(4) == 10_000 && Pow10(9) == 1_000_000_000
  {
    assert Pow10(2) == 100;
    assert Pow10(4) == 10_000;
    assert Pow10(6) == 1_000_000;
    assert Pow10(8) == 100_000_000;
  }

  function DayOf(t: Time): (d: nat)
    ensures d < DAY_LIMIT
  {
    t / NANOS_PER_SECOND / SECONDS_PER_DAY
  }

  function SecondOfDay(t: Time): (s: nat)
    ensures s < SECONDS_PER_DAY
  {
    t / NANOS_PER_SECOND % SECONDS_PER_DAY
  }

  function DateValues(t: Time): (vs: seq<nat>)
    ensures |vs| == 3 && vs[0] < 10_000 && vs[1] < 100 && vs[2] < 100
  {
    var date := DateOf(DayOf(t));
    [date.year, date.month + 1, date.day + 1]
  }

  function ClockValues(sec: nat): (vs: seq<nat>)
    requires sec < SECONDS_PER_DAY
    ensures |vs| == 3 && vs[0] < 100 && vs[1] < 100 && vs[2] < 100
  {
    var minute := sec / 60;
    [minute / 60, minute % 60, sec % 60]
  }

  function Values(t: Time): (vs: seq<nat>)
    ensures Fits(vs, LAYOUT)
  {
    Widths();
    DateValues(t) + ClockValues(SecondOfDay(t)) + [t % NANOS_PER_SECOND]
  }

  /** formatTimestamp. */
  function Format(t: Time): string {
    Render(Values(t), LAYOUT)
  }

  ghost predicate LexLessAt(xs: seq<nat>, ys: seq<nat>, k: nat) {
    k < |xs| && k < |ys| && xs[..k] == ys[..k] && xs[k] < ys[k]
  }

  lemma Sixtieths(x: nat, y: nat)
    requires x < y
    ensures x / 60 <= y / 60 && (x / 60 == y / 60 ==> x % 60 < y % 60)
  {
  }

  lemma SecondsMonotone(s: nat, t: nat) returns (k: nat)
    requires s < t < SECONDS_PER_DAY
    ensures LexLessAt(ClockValues(s), ClockValues(t), k)
  {
    var x, y := ClockValues(s), ClockValues(t);
    Sixtieths(s, t);
    if s / 60 == t / 60 {
      k := 2;
      assert x[..2] == y[..2];
    } else {
      Sixtieths(s / 60, t / 60);
      k := if x[0] < y[0] then 0 else 1;
    }
  }

  lemma DatesMonotone(a: Time, b: Time) returns (k: nat)
    requires DayOf(a) < DayOf(b)
    ensures LexLessAt(DateValues(a), DateValues(b), k)
  {
    DateMonotone(DayOf(a), DayOf(b));
    var x, y := DateOf(DayOf(a)), DateOf(DayOf(b));
    k := if x.year < y.year then 0 else if x.month < y.month then 1 else 2;
  }

  lemma LexFirst(xs: seq<nat>, ys: seq<nat>, us: seq<nat>, vs: seq<nat>, k: nat)
    requires LexLessAt(xs, ys, k)
    ensures LexLessAt(xs + us, ys + vs, k)
  {
    assert (xs + us)[..k] == xs[..k] && (ys + vs)[..k] == ys[..k];
  }

  lemma LexThen(ps: seq<nat>, us: seq<nat>, vs: seq<nat>, k: nat)
    requires LexLessAt(us, vs, k)
    ensures LexLessAt(ps + us, ps + vs, |ps| + k)
  {
    assert (ps + us)[..|ps| + k] == ps + us[..k] && (ps + vs)[..|ps| + k] == ps + vs[..k];
  }

  lemma InstantParts(a: Time, b: Time)
    requires a < b
    ensures DayOf(a) <= DayOf(b)
    ensures DayOf(a) == DayOf(b) ==> SecondOfDay(a) <= SecondOfDay(b)
    ensures DayOf(a) == DayOf(b) && SecondOfDay(a) == SecondOfDay(b) ==> a % NANOS_PER_SECOND < b % NANOS_PER_SECOND
  {
    var s, t := a / NANOS_PER_SECOND, b / NANOS_PER_SECOND;
    assert s <= t;
  }

  /** The first field in which a later instant differs is larger. */
  lemma ValuesMonotone(a: Time, b: Time) returns (k: nat)
    requires a < b
    ensures LexLessAt(Values(a), Values(b), k)
  {
    InstantParts(a, b);
    var p, q := ClockValues(SecondOfDay(a)), ClockValues(SecondOfDay(b));
    var m, n := [a % NANOS_PER_SECOND], [b % NANOS_PER_SECOND];
    if DayOf(a) < DayOf(b) {
      k := DatesMonotone(a, b);
      LexFirst(DateValues(a), DateValues(b), p, q, k);
      LexFirst(DateValues(a) + p, DateValues(b) + q, m, n, k);
    } else if SecondOfDay(a) < SecondOfDay(b) {
      var j := SecondsMonotone(SecondOfDay(a), SecondOfDay(b));
      k := 3 + j;
      LexThen(DateValues(a), p, q, j);
      LexFirst(DateValues(a) + p, DateValues(b) + q, m, n, k);
    } else {
      k := 6;
      assert LexLessAt(m, n, 0);
      LexThen(DateValues(a) + p, m, n, 0);
    }
  }

  lemma FormatLess(a: Time, b: Time)
    requires a < b
    ensures TextLess(Format(a), Format(b))
  {
    var k := ValuesMonotone(a, b);
    RenderLess(Values(a), Values(b), LAYOUT, k);
  }

  /** The text order SQLite uses is the time order, for every pair of instants in years 0 to 9999. */
  lemma TextOrderIsTimeOrder(a: Time, b: Time)
    ensures TextLeq(Format(a), Format(b)) <==> a <= b
    ensures Format(a) == Format(b) <==> a == b
  {
    if a < b {
      FormatLess(a, b);
      TextAsymmetric(Format(a), Format(b));
    } else if b < a {
      FormatLess(b, a);
      TextAsymmetric(Format(b), Format(a));
    }
  }

  // ----- Past the year 9999 -----

  /** The layout with a year of w digits: it pads to four and writes as many more as the year has. */
  function Wide(w: nat): seq<Field> {
    [Field(w, "-")] + LAYOUT[1..]
  }

  /** The layout writes this year with w digits. */
  predicate Written(year: nat, w: nat) {
    4 <= w && year < Pow10(w) && (w > 4 ==> Pow10(w - 1) <= year)
  }

  /** The number that the first v of w digits denote. */
  function Top(n: nat, w: nat, v: nat): nat
    requires v <= w
    decreases w
  {
    if v == w then n else Top(n / 10, w - 1, v)
  }

  lemma {:induction false} TopBounds(n: nat, w: nat, v: nat)
    requires v <= w && n < Pow10(w)
    ensures Top(n, w, v) < Pow10(v)
    ensures Top(n, w, v) * Pow10(w - v) <= n < (Top(n, w, v) + 1) * Pow10(w - v)
    decreases w
  {
    if v < w {
      TopBounds(n / 10, w - 1, v);
      TenTimes(Top(n, w, v), Pow10(w - 1 - v), n);
    }
  }

  lemma TenTimes(q: nat, p: nat, n: nat)
    requires q * p <= n / 10 < (q + 1) * p
    ensures q * (10 * p) <= n < (q + 1) * (10 * p)
  {
    var low, high := q * p, (q + 1) * p;
    assert q * (10 * p) == 10 * low && (q + 1) * (10 * p) == 10 * high;
  }

  /** Comparing with the leading digits is comparing with zeros appended. */
  lemma TopCompare(x: nat, y: nat, w: nat, v: nat)
    requires v <= w && y < Pow10(w)
    ensures x <= Top(y, w, v) <==> x * Pow10(w - v) <= y
  {
    var q, p := Top(y, w, v), Pow10(w - v);
    TopBounds(y, w, v);
    if x <= q {
      ScaleOrder(x, q, p);
    } else {
      ScaleOrder(q + 1, x, p);
    }
  }

  lemma ScaleOrder(a: nat, b: nat, p: nat)
    requires a <= b
    ensures a * p <= b * p
  {
    assert b * p - a * p == (b - a) * p;
  }

  lemma {:induction false} DigitsSplit(n: nat, w: nat, v: nat) returns (tail: string)
    requires v <= w && n < Pow10(w)
    ensures Top(n, w, v) < Pow10(v) && Digits(n, w) == Digits(Top(n, w, v), v) + tail
    ensures |tail| == w - v && forall i | 0 <= i < |tail| :: '0' <= tail[i]
    decreases w
  {
    if v == w {
      tail := "";
    } else {
      var rest := DigitsSplit(n / 10, w - 1, v);
      tail := rest + [DigitChar(n % 10)];
      assert Digits(n, w) == Digits(Top(n, w, v), v) + rest + [DigitChar(n % 10)];
    }
  }

  /** A shorter number and a dash against a longer number: the leading digits decide, and a dash sorts below a digit. */
  lemma ShorterAgainstLonger(x: nat, v: nat, restX: string, y: nat, w: nat, restY: string)
    requires v < w && x < Pow10(v) && y < Pow10(w)
    ensures TextLess(Digits(x, v) + "-" + restX, Digits(y, w) + restY) <==> x <= Top(y, w, v)
    ensures Top(y, w, v) < x ==> TextLess(Digits(y, w) + restY, Digits(x, v) + "-" + restX)
  {
    var tail := DigitsSplit(y, w, v);
    var q := Top(y, w, v);
    var a, b := Digits(x, v) + ("-" + restX), Digits(q, v) + (tail + restY);
    assert Digits(x, v) + "-" + restX == a && Digits(y, w) + restY == b;
    if x < q {
      DigitsLess(x, q, v);
      LessThenAnything(Digits(x, v), Digits(q, v), "-" + restX, tail + restY);
    } else if x == q {
      assert ("-" + restX)[0] == '-' && (tail + restY)[0] == tail[0];
      assert TextLess("-" + restX, tail + restY);
      SameThenLess(Digits(x, v), "-" + restX, tail + restY);
    } else {
      DigitsLess(q, x, v);
      LessThenAnything(Digits(q, v), Digits(x, v), tail + restY, "-" + restX);
      TextAsymmetric(b, a);
    }
  }

  /**
   Exactly when the texts of two years of different lengths sort right: the longer year is the later one, and its
   text sorts after if and only if it is at least the shorter year with zeros appended to the same length. Otherwise
   it sorts before.
   */
  lemma LongerYears(xs: seq<nat>, v: nat, ys: seq<nat>, w: nat)
    requires Fits(xs, Wide(v)) && Fits(ys, Wide(w)) && Written(xs[0], v) && Written(ys[0], w) && v < w
    ensures xs[0] < ys[0]
    ensures TextLess(Render(xs, Wide(v)), Render(ys, Wide(w))) <==> xs[0] * Pow10(w - v) <= ys[0]
    ensures ys[0] < xs[0] * Pow10(w - v) ==> TextLess(Render(ys, Wide(w)), Render(xs, Wide(v)))
  {
    Pow10Monotone(v, w - 1);
    var restX, restY := Render(xs[1..], Wide(v)[1..]), Render(ys[1..], Wide(w)[1..]);
    assert Render(xs, Wide(v)) == Digits(xs[0], v) + "-" + restX;
    assert Render(ys, Wide(w)) == Digits(ys[0], w) + ("-" + restY);
    ShorterAgainstLonger(xs[0], v, restX, ys[0], w, "-" + restY);
    TopCompare(xs[0], ys[0], w, v);
  }

  lemma {:induction false} Pow10Monotone(m: nat, n: nat)
    requires m <= n
    ensures Pow10(m) <= Pow10(n)
    decreases n
  {
    if m < n {
      Pow10Monotone(m, n - 1);
    }
  }

  /** The same for the instants of this model against any later year. */
  lemma LaterThanModelled(t: Time, ys: seq<nat>, w: nat)
    requires Fits(ys, Wide(w)) && Written(ys[0], w) && w > 4
    ensures TextLess(Format(t), Render(ys, Wide(w))) <==> Values(t)[0] * Pow10(w - 4) <= ys[0]
    ensures ys[0] < Values(t)[0] * Pow10(w - 4) ==> TextLess(Render(ys, Wide(w)), Format(t))
  {
    assert Wide(4) == LAYOUT;
    LongerYears(Values(t), 4, ys, w);
  }

  /** Midnight of 1 January 2000. */
  const YEAR_2000: Time := 730_485 * SECONDS_PER_DAY * NANOS_PER_SECOND

  lemma YearOfYear2000(t: Time)
    requires t == YEAR_2000
    ensures Values(t)[0] == 2000
  {
    var d := DayOf(t);
    var y := YearOf(d);
    assert d == 730_485;
    DaysBeforeYearClosed(2000);
    DaysBeforeYearClosed(2001);
    if y < 2000 {
      YearMonotone(y + 1, 2000);
    } else if 2000 < y {
      YearMonotone(2001, y);
    }
  }

  lemma FirstOfYearFits(ys: seq<nat>)
    requires ys == [10_000, 1, 1, 0, 0, 0, 0]
    ensures Fits(ys, Wide(5))
  {
    Widths();
    assert Pow10(5) == 100_000;
  }

  lemma SortsEarly(t: Time, ys: seq<nat>)
    requires Values(t)[0] == 2000 && Fits(ys, Wide(5)) && ys[0] == 10_000
    ensures TextLess(Render(ys, Wide(5)), Format(t))
  {
    assert Pow10(1) == 10 && Pow10(4) == 10_000 && Pow10(5) == 100_000;
    LaterThanModelled(t, ys, 5);
  }

  /** A failing pair: the first instant of year 10000 sorts before the first instant of year 2000. */
  lemma Year10000SortsEarly() returns (t: Time, ys: seq<nat>)
    ensures t == YEAR_2000 && ys == [10_000, 1, 1, 0, 0, 0, 0]
    ensures Fits(ys, Wide(5)) && TextLess(Render(ys, Wide(5)), Format(t))
  {
    t, ys := YEAR_2000, [10_000, 1, 1, 0, 0, 0, 0];
    FirstOfYearFits(ys);
    YearOfYear2000(t);
    SortsEarly(t, ys);
  }
}
