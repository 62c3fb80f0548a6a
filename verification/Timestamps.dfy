/**
 Points in time with a UTC offset, as a calendar date and a clock time, and their ISO text.
 Times are compared as instants; texts are compared character by character.
 */
module Timestamps {

  datatype Moment = Moment(year: nat, month: nat, day: nat, hour: nat, minute: nat, second: nat, micro: nat, offset: int)

  predicate Leap(y: nat) { y % 4 == 0 && (y % 100 != 0 || y % 400 == 0) }

  function DaysInMonth(y: nat, m: nat): nat {
    if m == 2 then (if Leap(y) then 29 else 28) else if m == 4 || m == 6 || m == 9 || m == 11 then 30 else 31
  }

  predicate Valid(m: Moment) {
    1 <= m.year <= 9999 && 1 <= m.month <= 12 && 1 <= m.day <= DaysInMonth(m.year, m.month)
    && m.hour < 24 && m.minute < 60 && m.second < 60 && m.micro < 1_000_000 && -1440 < m.offset < 1440
  }

  // ---------------------------------------------------------------------
  // Instants
  // ---------------------------------------------------------------------

  // Days in the months before month m of year y.
  function DaysBeforeMonth(y: nat, m: nat): nat {
    if m <= 1 then 0 else DaysBeforeMonth(y, m - 1) + DaysInMonth(y, m - 1)
  }

  function DaysBeforeYear(y: nat): nat {
    if y <= 1 then 0 else DaysBeforeYear(y - 1) + DaysInYear(y - 1)
  }

  function DaysInYear(y: nat): nat { if Leap(y) then 366 else 365 }

  lemma YearLength(y: nat)
    ensures DaysBeforeMonth(y, 13) == DaysInYear(y)
  {
    assert DaysBeforeMonth(y, 2) == 31;
    assert DaysBeforeMonth(y, 3) == 31 + DaysInMonth(y, 2);
    assert DaysBeforeMonth(y, 5) == DaysBeforeMonth(y, 3) + 61;
    assert DaysBeforeMonth(y, 7) == DaysBeforeMonth(y, 5) + 61;
    assert DaysBeforeMonth(y, 9) == DaysBeforeMonth(y, 7) + 62;
    assert DaysBeforeMonth(y, 11) == DaysBeforeMonth(y, 9) + 61;
  }

  function DayNumber(y: nat, m: nat, d: nat): nat { DaysBeforeYear(y) + DaysBeforeMonth(y, m) + d }

  function SecondOfDay(m: Moment): nat { (m.hour * 60 + m.minute) * 60 + m.second }

  // Microseconds on the local clock and calendar.
  function Local(m: Moment): int {
    (DayNumber(m.year, m.month, m.day) * 86_400 + SecondOfDay(m)) * 1_000_000 + m.micro
  }

  /** Microseconds in UTC. */
  function Instant(m: Moment): int { Local(m) - m.offset * 60_000_000 }

  lemma {:induction false} MonthsGrow(y: nat, m: nat, n: nat)
    requires 1 <= m < n
    ensures DaysBeforeMonth(y, m) + DaysInMonth(y, m) <= DaysBeforeMonth(y, n)
    decreases n
  {
    if m < n - 1 {
      MonthsGrow(y, m, n - 1);
    }
  }

  lemma {:induction false} YearsGrow(y: nat, z: nat)
    requires 1 <= y < z
    ensures DaysBeforeYear(y) + DaysInYear(y) <= DaysBeforeYear(z)
    decreases z
  {
    if y < z - 1 {
      YearsGrow(y, z - 1);
    }
  }

  predicate DateLess(a: Moment, b: Moment) {
    a.year < b.year || (a.year == b.year && (a.month < b.month || (a.month == b.month && a.day < b.day)))
  }

  predicate ClockLess(a: Moment, b: Moment) {
    a.hour < b.hour || (a.hour == b.hour && (a.minute < b.minute || (a.minute == b.minute && a.second < b.second)))
  }

  predicate SameDate(a: Moment, b: Moment) { a.year == b.year && a.month == b.month && a.day == b.day }

  predicate SameClock(a: Moment, b: Moment) { a.hour == b.hour && a.minute == b.minute && a.second == b.second }

  predicate SecondLess(a: Moment, b: Moment) { DateLess(a, b) || (SameDate(a, b) && ClockLess(a, b)) }

  lemma DateOrder(a: Moment, b: Moment)
    requires Valid(a) && Valid(b) && DateLess(a, b)
    ensures DayNumber(a.year, a.month, a.day) < DayNumber(b.year, b.month, b.day)
  {
    if a.year < b.year {
      YearsGrow(a.year, b.year);
      MonthsGrow(a.year, a.month, 13);
      YearLength(a.year);
    } else if a.month < b.month {
      MonthsGrow(a.year, a.month, b.month);
    }
  }

  // An earlier second of the calendar is an earlier local time, whatever the microseconds.
  lemma SecondOrder(a: Moment, b: Moment)
    requires Valid(a) && Valid(b) && SecondLess(a, b)
    ensures Local(a) < Local(b)
  {
    var x, y := DayNumber(a.year, a.month, a.day) * 86_400 + SecondOfDay(a), DayNumber(b.year, b.month, b.day) * 86_400 + SecondOfDay(b);
    if DateLess(a, b) {
      DateOrder(a, b);
    }
    assert x < y;
  }

  /** Local times order as calendar and clock do. */
  lemma LocalOrder(a: Moment, b: Moment)
    requires Valid(a) && Valid(b)
    ensures Local(a) < Local(b) <==> SecondLess(a, b) || (SameDate(a, b) && SameClock(a, b) && a.micro < b.micro)
  {
    if SecondLess(a, b) {
      SecondOrder(a, b);
    } else if SecondLess(b, a) {
      SecondOrder(b, a);
    } else {
      assert SameDate(a, b) && SameClock(a, b);
    }
  }

  // ---------------------------------------------------------------------
  // Text
  // ---------------------------------------------------------------------

  /** Character by character; a proper prefix is less. */
  predicate StrLess(a: string, b: string) {
    b != "" && (a == "" || a[0] < b[0] || (a[0] == b[0] && StrLess(a[1..], b[1..])))
  }

  lemma {:induction false} StrIrreflexive(a: string)
    ensures !StrLess(a, a)
  {
    if a != "" {
      StrIrreflexive(a[1..]);
    }
  }

  lemma {:induction false} StrTransitive(a: string, b: string, c: string)
    requires StrLess(a, b) && StrLess(b, c)
    ensures StrLess(a, c)
  {
    if a != "" && a[0] == b[0] && b[0] == c[0] {
      StrTransitive(a[1..], b[1..], c[1..]);
    }
  }

  lemma {:induction false} StrTotal(a: string, b: string)
    ensures a == b || StrLess(a, b) || StrLess(b, a)
  {
    if a != "" && b != "" && a[0] == b[0] {
      StrTotal(a[1..], b[1..]);
      assert a == [a[0]] + a[1..] && b == [b[0]] + b[1..];
    }
  }

  /** Texts that begin with parts of one length compare by these parts first. */
  lemma {:induction false} StrParts(a: string, b: string, x: string, y: string)
    requires |a| == |b|
    ensures StrLess(a + x, b + y) <==> StrLess(a, b) || (a == b && StrLess(x, y))
    ensures a + x == b + y <==> a == b && x == y
    decreases |a|
  {
    if a == "" {
      assert a + x == x && b + y == y;
    } else {
      StrParts(a[1..], b[1..], x, y);
      assert (a + x)[1..] == a[1..] + x && (b + y)[1..] == b[1..] + y;
      assert a == [a[0]] + a[1..] && b == [b[0]] + b[1..];
      assert a + x == [a[0]] + (a[1..] + x) && b + y == [b[0]] + (b[1..] + y);
    }
  }

  function Digit(n: nat): char
    requires n < 10
  {
    '0' + n as char
  }

  function Pow10(k: nat): nat { if k == 0 then 1 else 10 * Pow10(k - 1) }

  // The last k decimal digits of n.
  function Digits(n: nat, k: nat): (s: string)
    ensures |s| == k
    decreases k
  {
    if k == 0 then "" else Digits(n / 10, k - 1) + [Digit(n % 10)]
  }

  /** Numbers that fit compare as their digits do. */
  lemma {:induction false} DigitsOrder(n: nat, m: nat, k: nat)
    requires n < Pow10(k) && m < Pow10(k)
    ensures StrLess(Digits(n, k), Digits(m, k)) <==> n < m
    ensures Digits(n, k) == Digits(m, k) <==> n == m
    decreases k
  {
    if k > 0 {
      DigitsOrder(n / 10, m / 10, k - 1);
      var x, y := [Digit(n % 10)], [Digit(m % 10)];
      StrParts(Digits(n / 10, k - 1), Digits(m / 10, k - 1), x, y);
      assert StrLess(x, y) <==> n % 10 < m % 10;
      assert x == y <==> n % 10 == m % 10;
    }
  }

  // A number of fixed width, then a separator.
  datatype Field = Field(value: nat, width: nat, separator: string)

  function Fields(fs: seq<Field>, tail: string): string {
    if fs == [] then tail else Digits(fs[0].value, fs[0].width) + (fs[0].separator + Fields(fs[1..], tail))
  }

  predicate Aligned(fs: seq<Field>, gs: seq<Field>) {
    |fs| == |gs|
    && forall i {:trigger fs[i]} {:trigger gs[i]} | 0 <= i < |fs| ::
         && fs[i].width == gs[i].width && fs[i].separator == gs[i].separator
         && fs[i].value < Pow10(fs[i].width) && gs[i].value < Pow10(fs[i].width)
  }

  // The first difference decides.
  predicate FirstLess(fs: seq<Field>, gs: seq<Field>)
    requires |fs| == |gs|
  {
    fs != [] && (fs[0].value < gs[0].value || (fs[0].value == gs[0].value && FirstLess(fs[1..], gs[1..])))
  }

  lemma {:induction false} FieldsOrder(fs: seq<Field>, gs: seq<Field>, x: string, y: string)
    requires Aligned(fs, gs)
    ensures StrLess(Fields(fs, x), Fields(gs, y)) <==> FirstLess(fs, gs) || (fs == gs && StrLess(x, y))
    ensures Fields(fs, x) == Fields(gs, y) <==> fs == gs && x == y
    decreases |fs|
  {
    if fs != [] {
      FieldsOrder(fs[1..], gs[1..], x, y);
      FieldOrder(fs[0], gs[0], Fields(fs[1..], x), Fields(gs[1..], y));
      SameFields(fs, gs);
    }
  }

  lemma SameFields(fs: seq<Field>, gs: seq<Field>)
    requires fs != [] && gs != []
    ensures fs == gs <==> fs[0] == gs[0] && fs[1..] == gs[1..]
  {
    assert fs == [fs[0]] + fs[1..] && gs == [gs[0]] + gs[1..];
  }

  // One field in front.
  lemma FieldOrder(f: Field, g: Field, x: string, y: string)
    requires f.width == g.width && f.separator == g.separator && f.value < Pow10(f.width) && g.value < Pow10(g.width)
    ensures var a, b := Digits(f.value, f.width) + (f.separator + x), Digits(g.value, g.width) + (g.separator + y);
            && (StrLess(a, b) <==> f.value < g.value || (f.value == g.value && StrLess(x, y)))
            && (a == b <==> f == g && x == y)
  {
    DigitsOrder(f.value, g.value, f.width);
    StrIrreflexive(f.separator);
    StrParts(f.separator, g.separator, x, y);
    StrParts(Digits(f.value, f.width), Digits(g.value, g.width), f.separator + x, g.separator + y);
  }

  function Clock(m: Moment): seq<Field> {
    [Field(m.year, 4, "-"), Field(m.month, 2, "-"), Field(m.day, 2, "T"), Field(m.hour, 2, ":"), Field(m.minute, 2, ":"),
     Field(m.second, 2, "")]
  }

  function OffsetText(offset: int): string {
    var size := if offset < 0 then -offset else offset;
    [if offset < 0 then '-' else '+'] + Digits(size / 60, 2) + ":" + Digits(size % 60, 2)
  }

  // Microseconds are written only when there are any.
  function Tail(m: Moment): string {
    (if m.micro == 0 then "" else "." + Digits(m.micro, 6)) + OffsetText(m.offset)
  }

  /** The text of a point in time, as in 2024-05-01T08:30:00.250000+02:00. */
  function Iso(m: Moment): string { Fields(Clock(m), Tail(m)) }

  // One field at a time.
  lemma FirstLessAt(fs: seq<Field>, gs: seq<Field>, i: nat)
    requires |fs| == |gs| && i < |fs|
    ensures FirstLess(fs[i..], gs[i..]) <==>
            fs[i].value < gs[i].value || (fs[i].value == gs[i].value && FirstLess(fs[i + 1..], gs[i + 1..]))
  {
  }

  lemma ClockPart(a: Moment, b: Moment)
    ensures FirstLess(Clock(a)[3..], Clock(b)[3..]) <==> ClockLess(a, b)
  {
    FirstLessAt(Clock(a), Clock(b), 5);
    FirstLessAt(Clock(a), Clock(b), 4);
    FirstLessAt(Clock(a), Clock(b), 3);
  }

  lemma ClockFirst(a: Moment, b: Moment)
    ensures FirstLess(Clock(a), Clock(b)) <==> SecondLess(a, b)
    ensures Clock(a) == Clock(b) <==> SameDate(a, b) && SameClock(a, b)
  {
    var fs, gs := Clock(a), Clock(b);
    ClockPart(a, b);
    FirstLessAt(fs, gs, 2);
    FirstLessAt(fs, gs, 1);
    FirstLessAt(fs, gs, 0);
    assert fs[0..] == fs && gs[0..] == gs;
    if fs == gs {
      assert fs[0] == gs[0] && fs[1] == gs[1] && fs[2] == gs[2] && fs[3] == gs[3] && fs[4] == gs[4] && fs[5] == gs[5];
    }
  }

  // With one offset, the tails compare as the microseconds do: a sign comes before a point.
  lemma TailOrder(a: Moment, b: Moment)
    requires Valid(a) && Valid(b) && a.offset == b.offset
    ensures StrLess(Tail(a), Tail(b)) <==> a.micro < b.micro
    ensures Tail(a) == Tail(b) <==> a.micro == b.micro
  {
    var o := OffsetText(a.offset);
    StrIrreflexive(o);
    assert Pow10(6) == 1_000_000 by {
      assert Pow10(3) == 1000;
      assert Pow10(6) == 10 * (10 * (10 * Pow10(3)));
    }
    if a.micro != 0 && b.micro != 0 {
      DigitsOrder(a.micro, b.micro, 6);
      StrParts(".", ".", Digits(a.micro, 6), Digits(b.micro, 6));
      StrParts("." + Digits(a.micro, 6), "." + Digits(b.micro, 6), o, o);
      StrIrreflexive(".");
    } else {
      assert "" + o == o;
      assert a.micro == 0 ==> Tail(a)[0] == o[0];
      assert b.micro == 0 ==> Tail(b)[0] == o[0];
      assert a.micro != 0 ==> Tail(a)[0] == '.';
      assert b.micro != 0 ==> Tail(b)[0] == '.';
    }
  }

  /** Points in time with one offset order as their texts do. */
  lemma SameOffsetOrder(a: Moment, b: Moment)
    requires Valid(a) && Valid(b) && a.offset == b.offset
    ensures StrLess(Iso(a), Iso(b)) <==> Instant(a) < Instant(b)
    ensures Iso(a) == Iso(b) <==> Instant(a) == Instant(b)
  {
    LocalOrder(a, b);
    LocalOrder(b, a);
    ClockFirst(a, b);
    ClockFirst(b, a);
    TailOrder(a, b);
    FieldsOrder(Clock(a), Clock(b), Tail(a), Tail(b));
  }

  // ---------------------------------------------------------------------
  // A time as it is compared and as it is written
  // ---------------------------------------------------------------------

  datatype Time = Time(instant: int, text: string)

  function TimeOf(m: Moment): Time { Time(Instant(m), Iso(m)) }

  ghost predicate HasOffset(t: Time, offset: int) {
    exists m :: Valid(m) && m.offset == offset && t == TimeOf(m)
  }

  /** Times with one offset order as their texts do. */
  lemma OneOffsetOrder(a: Time, b: Time, offset: int)
    requires HasOffset(a, offset) && HasOffset(b, offset)
    ensures StrLess(a.text, b.text) <==> a.instant < b.instant
    ensures a.text == b.text <==> a.instant == b.instant
  {
    var m :| Valid(m) && m.offset == offset && a == TimeOf(m);
    var n :| Valid(n) && n.offset == offset && b == TimeOf(n);
    SameOffsetOrder(m, n);
  }

  /** 01:00 at two hours east of UTC is before 00:30 in UTC, but its text is greater. */
  /** How a time is written, in full. */
  lemma IsoText(m: Moment)
    ensures Iso(m) == Digits(m.year, 4) + ("-" + (Digits(m.month, 2) + ("-" + (Digits(m.day, 2) + ("T" + (
                      Digits(m.hour, 2) + (":" + (Digits(m.minute, 2) + (":" + (Digits(m.second, 2) + ZoneText(m)))))))))))
  {
    var fs := Clock(m);
    FieldsFrom(fs, 5, Tail(m));
    FieldsFrom(fs, 4, Tail(m));
    FieldsFrom(fs, 3, Tail(m));
    FieldsFrom(fs, 2, Tail(m));
    FieldsFrom(fs, 1, Tail(m));
    FieldsFrom(fs, 0, Tail(m));
    assert fs[0..] == fs;
    assert fs[6..] == [] && "" + Fields([], Tail(m)) == Tail(m);
    ZoneIsTail(m);
  }

  // Microseconds, if there are any, and the offset in hours and minutes.
  function ZoneText(m: Moment): string {
    (if m.micro == 0 then "" else "." + Digits(m.micro, 6))
    + if m.offset < 0 then "-" + Digits((0 - m.offset) / 60, 2) + ":" + Digits((0 - m.offset) % 60, 2)
      else "+" + Digits(m.offset / 60, 2) + ":" + Digits(m.offset % 60, 2)
  }

  lemma ZoneIsTail(m: Moment)
    ensures Tail(m) == ZoneText(m)
  {
  }

  lemma FieldsFrom(fs: seq<Field>, i: nat, tail: string)
    requires i < |fs|
    ensures Fields(fs[i..], tail) == Digits(fs[i].value, fs[i].width) + (fs[i].separator + Fields(fs[i + 1..], tail))
  {
    assert fs[i..][1..] == fs[i + 1..];
  }

  /** The calendar: a year has a 29th of February if four divides it and a hundred does not, or four hundred does. */
  lemma CalendarIsGregorian(y: nat)
    ensures DaysInMonth(y, 2) == 29 <==> (y % 4 == 0 && y % 100 != 0) || y % 400 == 0
    ensures DaysInMonth(y, 2) == 29 || DaysInMonth(y, 2) == 28
    ensures DaysInMonth(y, 1) + DaysInMonth(y, 2) + DaysInMonth(y, 3) + DaysInMonth(y, 4) + DaysInMonth(y, 5) + DaysInMonth(y, 6)
            + DaysInMonth(y, 7) + DaysInMonth(y, 8) + DaysInMonth(y, 9) + DaysInMonth(y, 10) + DaysInMonth(y, 11)
            + DaysInMonth(y, 12) == if DaysInMonth(y, 2) == 29 then 366 else 365
    ensures DaysInMonth(y, 4) == DaysInMonth(y, 6) == DaysInMonth(y, 9) == DaysInMonth(y, 11) == 30
  {
  }

  lemma MixedOffsets()
    ensures var a, b := TimeOf(Moment(1, 1, 2, 1, 0, 0, 0, 120)), TimeOf(Moment(1, 1, 2, 0, 30, 0, 0, 0));
            a.instant < b.instant && StrLess(b.text, a.text)
  {
    var a, b := Moment(1, 1, 2, 1, 0, 0, 0, 120), Moment(1, 1, 2, 0, 30, 0, 0, 0);
    ClockFirst(b, a);
    FieldsOrder(Clock(b), Clock(a), Tail(b), Tail(a));
    assert DayNumber(1, 1, 2) == 2;
  }
}
