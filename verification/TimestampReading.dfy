/** Reading timestamps back: the text of an instant is an RFC 3339 date-time in UTC, and it denotes that instant. */
module TimestampReading {
  import opened Timestamps

  /** Lengths of the months, January first. */
  lemma MonthLengths(leap: bool, m: nat)
    requires m < 12
    ensures MonthLength(leap, m) == [31, if leap then 29 else 28, 31, 30, 31, 30, 31, 31, 30, 31, 30, 31][m]
  {
  }

  // ----- Fields -----

  /** A time of day and a civil date, with month and day counted from one, as nanoseconds since the year 0. */
  function Instant(vs: seq<nat>): int
    requires |vs| == 7 && 1 <= vs[1] <= 12
  {
    var days := DaysBeforeYear(vs[0]) + DaysBeforeMonth(Leap(vs[0]), vs[1] - 1) + vs[2] - 1;
    (days * SECONDS_PER_DAY + vs[3] * 3600 + vs[4] * 60 + vs[5]) * NANOS_PER_SECOND + vs[6]
  }

  predicate OnCalendar(vs: seq<nat>) {
    && |vs| == 7 && 1 <= vs[1] <= 12 && 1 <= vs[2] <= MonthLength(Leap(vs[0]), vs[1] - 1)
    && vs[3] < 24 && vs[4] < 60 && vs[5] < 60 && vs[6] < NANOS_PER_SECOND
  }

  /** The fields are a date and a time of day, and they give back the instant. */
  lemma FieldsDenote(t: Time)
    ensures OnCalendar(Values(t)) && Instant(Values(t)) == t
  {
    var d, sec, vs := DayOf(t), SecondOfDay(t), Values(t);
    assert vs[..3] == DateValues(t) && vs[3..6] == ClockValues(sec);
    DateDenotes(t);
    ClockDenotes(sec);
    Parts(t);
  }

  /** The units: the fraction of a second has nine digits, and a day 24 hours. */
  lemma TimeUnits()
    ensures NANOS_PER_SECOND == Pow10(9) && SECONDS_PER_DAY == 24 * 60 * 60
  {
    Widths();
  }

  lemma Parts(t: Time)
    ensures t == (DayOf(t) * SECONDS_PER_DAY + SecondOfDay(t)) * NANOS_PER_SECOND + t % NANOS_PER_SECOND
  {
  }

  lemma DateDenotes(t: Time)
    ensures var c := DateValues(t);
      && 1 <= c[1] <= 12 && 1 <= c[2] <= MonthLength(Leap(c[0]), c[1] - 1)
      && DaysBeforeYear(c[0]) + DaysBeforeMonth(Leap(c[0]), c[1] - 1) + c[2] - 1 == DayOf(t)
  {
  }

  lemma ClockDenotes(sec: nat)
    requires sec < SECONDS_PER_DAY
    ensures var c := ClockValues(sec);
      c[0] < 24 && c[1] < 60 && c[2] < 60 && c[0] * 3600 + c[1] * 60 + c[2] == sec
  {
  }

  // ----- Text -----

  predicate IsDigit(c: char) {
    '0' <= c <= '9'
  }

  predicate Decimal(s: string) {
    forall i | 0 <= i < |s| :: IsDigit(s[i])
  }

  function Number(s: string): nat
    requires Decimal(s)
  {
    if |s| == 0 then 0 else 10 * Number(s[..|s| - 1]) + (s[|s| - 1] - '0') as nat
  }

  lemma {:induction false} DigitsDenote(n: nat, w: nat)
    requires n < Pow10(w)
    ensures Decimal(Digits(n, w)) && Number(Digits(n, w)) == n
  {
    if w != 0 {
      DigitsDenote(n / 10, w - 1);
      var s := Digits(n, w);
      assert s[..|s| - 1] == Digits(n / 10, w - 1) && s[|s| - 1] == DigitChar(n % 10);
    }
  }

  /** Where field k of a layout begins in the text. */
  function Offset(layout: seq<Field>, k: nat): nat
    requires k <= |layout|
  {
    if k == 0 then 0 else Offset(layout, k - 1) + layout[k - 1].width + |layout[k - 1].sep|
  }

  lemma {:induction false} OffsetLater(layout: seq<Field>, k: nat)
    requires 0 < k <= |layout|
    ensures Offset(layout, k) == layout[0].width + |layout[0].sep| + Offset(layout[1..], k - 1)
  {
    if k > 1 {
      OffsetLater(layout, k - 1);
    }
  }

  /** A field and its separator stand at a position of the text. */
  ghost predicate StandsAt(s: string, at: nat, n: nat, field: Field)
    requires n < Pow10(field.width)
  {
    var end := at + field.width;
    end + |field.sep| <= |s| && s[at..end] == Digits(n, field.width) && s[end..end + |field.sep|] == field.sep
  }

  lemma StandsFirst(n: nat, field: Field, rest: string)
    requires n < Pow10(field.width)
    ensures StandsAt(Digits(n, field.width) + field.sep + rest, 0, n, field)
  {
  }

  lemma StandsLater(s: string, skip: nat, at: nat, n: nat, field: Field)
    requires n < Pow10(field.width) && skip <= |s| && StandsAt(s[skip..], at, n, field)
    ensures StandsAt(s, skip + at, n, field)
  {
    var end := at + field.width;
    SliceLater(s, skip, at, end);
    SliceLater(s, skip, end, end + |field.sep|);
  }

  /** Field k stands at its offset. */
  lemma {:induction false} FieldAt(values: seq<nat>, layout: seq<Field>, k: nat)
    requires Fits(values, layout) && k < |layout|
    ensures StandsAt(Render(values, layout), Offset(layout, k), values[k], layout[k])
  {
    var rest := Render(values[1..], layout[1..]);
    if k == 0 {
      StandsFirst(values[0], layout[0], rest);
    } else {
      FieldAt(values[1..], layout[1..], k - 1);
      OffsetLater(layout, k);
      var skip := layout[0].width + |layout[0].sep|;
      assert Render(values, layout)[skip..] == rest;
      StandsLater(Render(values, layout), skip, Offset(layout[1..], k - 1), values[k], layout[k]);
    }
  }

  lemma {:induction false} RenderLength(values: seq<nat>, layout: seq<Field>)
    requires Fits(values, layout)
    ensures |Render(values, layout)| == Offset(layout, |layout|)
  {
    if |layout| > 0 {
      RenderLength(values[1..], layout[1..]);
      OffsetLater(layout, |layout|);
    }
  }

  lemma SliceLater(s: string, skip: nat, a: nat, b: nat)
    requires skip + b <= |s| && a <= b
    ensures s[skip + a..skip + b] == s[skip..][a..b]
  {
  }

  /** The shape of a date-time in UTC with nanoseconds (section 5.6 of RFC 3339). */
  predicate IsDateTime(s: string) {
    && |s| == 30 && s[4] == '-' && s[7] == '-' && s[10] == 'T' && s[13] == ':' && s[16] == ':' && s[19] == '.'
    && s[29] == 'Z' && Decimal(s[0..4]) && Decimal(s[5..7]) && Decimal(s[8..10]) && Decimal(s[11..13])
    && Decimal(s[14..16]) && Decimal(s[17..19]) && Decimal(s[20..29])
  }

  function Read(s: string): (vs: seq<nat>)
    requires IsDateTime(s)
  {
    [Number(s[0..4]), Number(s[5..7]), Number(s[8..10]), Number(s[11..13]), Number(s[14..16]), Number(s[17..19]),
     Number(s[20..29])]
  }

  /** A field that stands somewhere reads as its value, and one character follows it. */
  lemma FieldReads(s: string, at: nat, n: nat, field: Field)
    requires n < Pow10(field.width) && StandsAt(s, at, n, field) && |field.sep| == 1
    ensures var end := at + field.width;
      end < |s| && Decimal(s[at..end]) && Number(s[at..end]) == n && s[end] == field.sep[0]
  {
    DigitsDenote(n, field.width);
    assert s[at + field.width] == s[at + field.width..at + field.width + 1][0];
  }

  lemma LayoutReads(vs: seq<nat>, s: string, k: nat)
    requires k < |LAYOUT| && Fits(vs, LAYOUT) && s == Render(vs, LAYOUT)
    ensures var at := Offset(LAYOUT, k);
      var end := at + LAYOUT[k].width;
      end < |s| && Decimal(s[at..end]) && Number(s[at..end]) == vs[k] && [s[end]] == LAYOUT[k].sep
  {
    FieldAt(vs, LAYOUT, k);
    FieldReads(s, Offset(LAYOUT, k), vs[k], LAYOUT[k]);
  }

  lemma RenderedReads(vs: seq<nat>, s: string)
    requires Fits(vs, LAYOUT) && s == Render(vs, LAYOUT)
    ensures IsDateTime(s) && Read(s) == vs
  {
    Offsets();
    RenderLength(vs, LAYOUT);
    LayoutReads(vs, s, 0);
    LayoutReads(vs, s, 1);
    LayoutReads(vs, s, 2);
    LayoutReads(vs, s, 3);
    LayoutReads(vs, s, 4);
    LayoutReads(vs, s, 5);
    LayoutReads(vs, s, 6);
  }

  /** Reading the stored text gives back the instant. */
  lemma TextDenotes(t: Time)
    ensures IsDateTime(Format(t)) && OnCalendar(Read(Format(t))) && Instant(Read(Format(t))) == t
  {
    RenderedReads(Values(t), Format(t));
    FieldsDenote(t);
  }

  lemma Offsets()
    ensures Offset(LAYOUT, 0) == 0 && Offset(LAYOUT, 1) == 5 && Offset(LAYOUT, 2) == 8 && Offset(LAYOUT, 3) == 11
    ensures Offset(LAYOUT, 4) == 14 && Offset(LAYOUT, 5) == 17 && Offset(LAYOUT, 6) == 20 && Offset(LAYOUT, 7) == 30
  {
  }
}
