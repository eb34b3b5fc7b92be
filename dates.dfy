/**
 * Calendar dates as the renderer's `Date` objects see them in local time:
 * the proleptic Gregorian calendar, `new Date(y, m, d)` with its overflow of
 * months and days into neighbouring ones and its reading of a year 0..99 as
 * 1900 + y, the same arithmetic without that reading behind `setMonth` and
 * `setDate`, `getDay()`, and the `YYYY-MM-DD`
 * text that src/utils/format.js and src/renderer/js/schedule.js both build
 * from `getFullYear()`, `getMonth() + 1` and `getDate()`.
 */
module Dates {
  import opened Wrappers
  import opened Text

  /** `getFullYear()`, `getMonth()` (0 for January) and `getDate()`. */
  datatype Date = Date(year: int, month: int, day: int)

  predicate IsLeapYear(y: int)
  {
    (y % 4 == 0 && y % 100 != 0) || y % 400 == 0
  }

  function DaysInMonth(y: int, m: int): (n: int)
    requires 0 <= m < 12
    ensures 28 <= n <= 31
  {
    if m == 1 then (if IsLeapYear(y) then 29 else 28)
    else if m == 3 || m == 5 || m == 8 || m == 10 then 30
    else 31
  }

  /** A date some `Date` object can hold: a month 0..11 and a day of that month. */
  predicate ValidDate(d: Date)
  {
    0 <= d.month < 12 && 1 <= d.day <= DaysInMonth(d.year, d.month)
  }

  /** The month before and the month after, across a year boundary. */
  function PrevMonth(y: int, m: int): (r: (int, int))
    requires 0 <= m < 12
    ensures 0 <= r.1 < 12
  {
    if m == 0 then (y - 1, 11) else (y, m - 1)
  }

  function NextMonth(y: int, m: int): (r: (int, int))
    requires 0 <= m < 12
    ensures 0 <= r.1 < 12
  {
    if m == 11 then (y + 1, 0) else (y, m + 1)
  }

  /**
   * Day `d` of month `m` of year `y` when `d` may lie outside the month: day
   * 0 is the last day of the month before, day 32 of January is 1 February,
   * and so on.
   */
  function NormalizeDay(y: int, m: int, d: int): (r: Date)
    requires 0 <= m < 12
    ensures ValidDate(r)
    decreases if d < 1 then 1 else 0, if d < 1 then 1 - d else d
  {
    if d < 1 then
      var p := PrevMonth(y, m);
      NormalizeDay(p.0, p.1, d + DaysInMonth(p.0, p.1))
    else if d > DaysInMonth(y, m) then
      var n := NextMonth(y, m);
      NormalizeDay(n.0, n.1, d - DaysInMonth(y, m))
    else Date(y, m, d)
  }

  /**
   * The date of year `y`, month `m` and day `d` for integer arguments, as
   * `setMonth` and `setDate` compute it: month overflow moves the year, then
   * day overflow moves the month.
   */
  function MakeDate(y: int, m: int, d: int): (r: Date)
    ensures ValidDate(r)
  {
    NormalizeDay(y + m / 12, m % 12, d)
  }

  /** The year `new Date(y, …)` uses: a year from 0 to 99 is read as 1900 + y. */
  function FullYear(y: int): (r: int)
    ensures 0 <= y <= 99 ==> r == 1900 + y
    ensures !(0 <= y <= 99) ==> r == y
    ensures !(0 <= r <= 99)
  {
    if 0 <= y <= 99 then 1900 + y else y
  }

  /** `new Date(y, m, d)` for integer arguments: the full year, then the overflow of `MakeDate`. */
  function NewDate(y: int, m: int, d: int): (r: Date)
    ensures ValidDate(r)
  {
    MakeDate(FullYear(y), m, d)
  }

  /**
   * A date already in range is left as it is by the setters, and by the
   * constructor unless its year is one of 0..99, which moves to the 1900s.
   */
  lemma NewDateValid(d: Date)
    requires ValidDate(d)
    ensures MakeDate(d.year, d.month, d.day) == d
    ensures !(0 <= d.year <= 99) ==> NewDate(d.year, d.month, d.day) == d
    ensures 0 <= d.year <= 99 ==> NewDate(d.year, d.month, d.day) == MakeDate(1900 + d.year, d.month, d.day)
  {
  }

  /** Day 0 of the next month is the last day of this one: `new Date(y, m + 1, 0).getDate()`. */
  lemma LastDayOfMonth(y: int, m: int)
    requires 0 <= m < 12
    ensures MakeDate(y, m + 1, 0) == Date(y, m, DaysInMonth(y, m))
  {
    var n := NextMonth(y, m);
    assert (m + 1) / 12 == (if m == 11 then 1 else 0);
    assert (m + 1) % 12 == n.1;
    assert PrevMonth(n.0, n.1) == (y, m);
  }

  /** Day 0 of this month is the last day of the month before. */
  lemma LastDayOfPrevMonth(y: int, m: int)
    requires 0 <= m < 12
    ensures var p := PrevMonth(y, m);
      MakeDate(y, m, 0) == Date(p.0, p.1, DaysInMonth(p.0, p.1))
  {
  }

  /**
   * Days since 1 January 1970 of day `d` of month `m` (0-based) of year `y`,
   * by the usual era-of-400-years count from 1 March.
   */
  function DayNumber(y: int, m: int, d: int): int
    requires 0 <= m < 12
  {
    var y2 := if m <= 1 then y - 1 else y;
    var era := y2 / 400;
    var yoe := y2 - era * 400;
    var mp := if m >= 2 then m - 2 else m + 10;
    var doy := (153 * mp + 2) / 5 + d - 1;
    var doe := yoe * 365 + yoe / 4 - yoe / 100 + doy;
    era * 146097 + doe - 719468
  }

  /** `getDay()`: 0 for Sunday to 6 for Saturday; 1 January 1970 was a Thursday. */
  function Weekday(d: Date): (w: int)
    requires 0 <= d.month < 12
    ensures 0 <= w < 7
  {
    (DayNumber(d.year, d.month, d.day) + 4) % 7
  }

  /** Within a month the weekday advances by one a day, so day `k` falls `k - 1` days after the first. */
  lemma WeekdayInMonth(y: int, m: int, k: int)
    requires 0 <= m < 12
    ensures Weekday(Date(y, m, k)) == (Weekday(Date(y, m, 1)) + k - 1) % 7
  {
    var base := DayNumber(y, m, 1);
    assert DayNumber(y, m, k) == base + k - 1;
    ModShift(base + 4, k - 1);
  }

  lemma ModShift(a: int, b: int)
    ensures (a + b) % 7 == (a % 7 + b) % 7
  {
    var q := a / 7;
    assert a == 7 * q + a % 7;
    assert a + b == 7 * q + (a % 7 + b);
  }

  /** Three parts joined by `-`. */
  function Dashed(a: string, b: string, c: string): string
  {
    a + "-" + b + "-" + c
  }

  /** `String(y)`, then month and day padded to two digits, joined by `-`. */
  function IsoDate(d: Date): (s: string)
    requires ValidDate(d)
  {
    Dashed(IntToString(d.year), Pad2(d.month + 1), Pad2(d.day))
  }

  lemma DashedSlices(a: string, b: string, c: string)
    requires |a| == 4 && |b| == 2 && |c| == 2
    ensures var s := Dashed(a, b, c);
      |s| == 10 && s[4] == '-' && s[7] == '-' && s[..4] == a && s[5..7] == b && s[8..] == c
  {
    var s := Dashed(a, b, c);
    assert s == a + ['-'] + b + ['-'] + c;
    assert s[..4] == a;
    assert s[5..7] == b;
    assert s[8..] == c;
  }

  /** For a four-digit year the text is `YYYY-MM-DD`: ten characters, dashes at 4 and 7, and the three numbers. */
  lemma IsoDateShape(d: Date)
    requires ValidDate(d) && 1000 <= d.year <= 9999
    ensures var s := IsoDate(d);
      && |s| == 10 && s[4] == '-' && s[7] == '-'
      && AllDigits(s[..4]) && AllDigits(s[5..7]) && AllDigits(s[8..])
      && DigitsValue(s[..4]) == d.year && DigitsValue(s[5..7]) == d.month + 1 && DigitsValue(s[8..]) == d.day
  {
    var y := NatToString(d.year);
    NatLength4(d.year);
    NatToStringRoundTrip(d.year);
    Pad2Value(d.month + 1);
    Pad2Value(d.day);
    DashedSlices(y, Pad2(d.month + 1), Pad2(d.day));
  }

  lemma NatLength4(n: nat)
    requires 1000 <= n <= 9999
    ensures |NatToString(n)| == 4
  {
    assert |NatToString(n / 10)| == 3 by {
      assert |NatToString(n / 100)| == 2 by {
        assert NatToString(n / 100) == NatToString(n / 1000) + [DigitChar(n / 100 % 10)];
      }
    }
  }

  /**
   * `Number(part)` for the parts a date key splits into: the empty text is
   * 0, a run of decimal digits its value; anything else is NaN, `None` here.
   */
  function NumberOf(s: string): (r: Option<int>)
    ensures AllDigits(s) ==> r == Some(if s == [] then 0 else DigitsValue(s))
  {
    if s == [] then Some(0) else if AllDigits(s) then Some(DigitsValue(s)) else None
  }

  /**
   * `parseDateKey(str)`: the `-`-separated year, month and day passed to
   * `new Date(y, m - 1, d)`; a missing or unparseable part makes an invalid
   * date, `None` here.
   */
  function ParseDateKey(str: string): Option<Date>
  {
    var parts := Split(str, '-');
    var y := NumberOf(parts[0]);
    var m := if |parts| > 1 then NumberOf(parts[1]) else None;
    var d := if |parts| > 2 then NumberOf(parts[2]) else None;
    if y.None? || m.None? || d.None? then None
    else Some(NewDate(y.value, m.value - 1, d.value))
  }

  lemma {:induction false} FirstIndexAfter(a: string, b: string, c: char)
    requires c !in a
    ensures c in a + [c] + b && FirstIndex(a + [c] + b, c) == |a|
    decreases |a|
  {
    var s := a + [c] + b;
    assert s[|a|] == c;
    if a != [] {
      assert s[1..] == a[1..] + [c] + b;
      FirstIndexAfter(a[1..], b, c);
    }
  }

  lemma SplitAt(a: string, b: string, c: char)
    requires c !in a
    ensures Split(a + [c] + b, c) == [a] + Split(b, c)
  {
    FirstIndexAfter(a, b, c);
    var s := a + [c] + b;
    assert s[..|a|] == a && s[|a| + 1..] == b;
  }

  lemma NoDash(s: string)
    requires AllDigits(s)
    ensures '-' !in s
  {
  }

  lemma SplitDashed(a: string, b: string, c: string)
    requires '-' !in a && '-' !in b && '-' !in c
    ensures Split(Dashed(a, b, c), '-') == [a, b, c]
  {
    assert Dashed(a, b, c) == a + ['-'] + (b + ['-'] + c);
    SplitAt(a, b + ['-'] + c, '-');
    SplitAt(b, c, '-');
  }

  /**
   * A key built from a date with a non-negative year parses to `new Date` of
   * its three numbers: the date itself from year 100 on, the same day of the
   * 1900s for a year 0..99.
   */
  lemma DateKeyRoundTrip(d: Date)
    requires ValidDate(d) && d.year >= 0
    ensures ParseDateKey(IsoDate(d)) == Some(NewDate(d.year, d.month, d.day))
    ensures d.year >= 100 ==> ParseDateKey(IsoDate(d)) == Some(d)
    ensures d.year <= 99 ==> ParseDateKey(IsoDate(d)) == Some(MakeDate(1900 + d.year, d.month, d.day))
  {
    var y := NatToString(d.year);
    var m := Pad2(d.month + 1);
    var dd := Pad2(d.day);
    NoDash(y);
    NoDash(m);
    NoDash(dd);
    assert IsoDate(d) == Dashed(y, m, dd);
    SplitDashed(y, m, dd);
    NatToStringRoundTrip(d.year);
    Pad2Value(d.month + 1);
    Pad2Value(d.day);
    ParseParts(IsoDate(d), Some(d.year), Some(d.month + 1), Some(d.day));
    NewDateValid(d);
  }

  /**
   * The key of a date before year 0 starts with `-`, so it splits into four
   * parts: an empty year read as 0, that is 1900, the year's digits as the
   * month, counted on from January 1900, and the month's as the day.
   */
  lemma DateKeyNegativeYear(d: Date)
    requires ValidDate(d) && d.year < 0
    ensures ParseDateKey(IsoDate(d)) == Some(Date(1900 + (-d.year - 1) / 12, (-d.year - 1) % 12, d.month + 1))
  {
    NegativeKeyParts(d);
    KeyAfterLeadingDash(d);
  }

  /** The key of a negative year whose parts are known parses to day `month + 1` of month `-year - 1` counted from January 1900. */
  lemma KeyAfterLeadingDash(d: Date)
    requires ValidDate(d) && d.year < 0
    requires var parts := Split(IsoDate(d), '-');
      |parts| >= 3 && parts[0] == "" && parts[1] == NatToString(-d.year) && parts[2] == Pad2(d.month + 1)
    ensures ParseDateKey(IsoDate(d)) == Some(Date(1900 + (-d.year - 1) / 12, (-d.year - 1) % 12, d.month + 1))
  {
    KeyPartsParse(IsoDate(d), d.year, d.month + 1);
  }

  /** A key `-n-mo-…` for a year `y = -n` and a day `mo` every month has parses to day `mo` of month `n - 1` counted from January 1900. */
  lemma KeyPartsParse(str: string, y: int, mo: int)
    requires y < 0 && 1 <= mo <= 28
    requires var parts := Split(str, '-'); |parts| >= 3 && parts[0] == "" && parts[1] == NatToString(-y) && parts[2] == Pad2(mo)
    ensures ParseDateKey(str) == Some(Date(1900 + (-y - 1) / 12, (-y - 1) % 12, mo))
  {
    NatToStringRoundTrip(-y);
    Pad2Value(mo);
    ParseParts(str, Some(0), Some(-y), Some(mo));
    MakeDateInMonth(1900, -y - 1, mo);
  }

  /** A day every month has stays in the month the arithmetic lands on. */
  lemma MakeDateInMonth(y: int, m: int, d: int)
    requires 1 <= d <= 28
    ensures MakeDate(y, m, d) == Date(y + m / 12, m % 12, d)
  {
  }

  /** A negative year's key starts with the minus sign, an empty part before the first dash. */
  lemma NegativeKeyParts(d: Date)
    requires ValidDate(d) && d.year < 0
    ensures Split(IsoDate(d), '-') == ["", NatToString(-d.year), Pad2(d.month + 1), Pad2(d.day)]
  {
    var y := NatToString(-d.year);
    var m := Pad2(d.month + 1);
    var dd := Pad2(d.day);
    assert IsoDate(d) == "-" + Dashed(y, m, dd);
    SplitLeadingDash(y, m, dd);
  }

  lemma SplitLeadingDash(y: string, m: string, dd: string)
    requires AllDigits(y) && AllDigits(m) && AllDigits(dd)
    ensures Split("-" + Dashed(y, m, dd), '-') == ["", y, m, dd]
  {
    NoDash(y);
    NoDash(m);
    NoDash(dd);
    assert "-" + Dashed(y, m, dd) == [] + ['-'] + Dashed(y, m, dd);
    SplitAt([], Dashed(y, m, dd), '-');
    SplitDashed(y, m, dd);
  }

  /** `parseDateKey` from the numbers of its first three parts. */
  lemma ParseParts(str: string, y: Option<int>, m: Option<int>, d: Option<int>)
    requires var parts := Split(str, '-');
      |parts| >= 3 && NumberOf(parts[0]) == y && NumberOf(parts[1]) == m && NumberOf(parts[2]) == d
    requires y.Some? && m.Some? && d.Some?
    ensures ParseDateKey(str) == Some(NewDate(y.value, m.value - 1, d.value))
  {
  }

  /** `formatYearMonth(date)`: year and padded month. */
  function YearMonth(d: Date): string
    requires ValidDate(d)
  {
    IntToString(d.year) + "-" + Pad2(d.month + 1)
  }

  /** The year-month text is the date key up to the second dash: seven characters for a four-digit year. */
  lemma YearMonthPrefix(d: Date)
    requires ValidDate(d)
    ensures StartsWith(IsoDate(d), YearMonth(d))
    ensures IsoDate(d) == YearMonth(d) + "-" + Pad2(d.day)
    ensures 1000 <= d.year <= 9999 ==> |YearMonth(d)| == 7 && YearMonth(d) == IsoDate(d)[..7]
  {
    var ym := YearMonth(d);
    assert IsoDate(d) == ym + "-" + Pad2(d.day) by {
      assert IntToString(d.year) + "-" + Pad2(d.month + 1) + "-" + Pad2(d.day)
        == (IntToString(d.year) + "-" + Pad2(d.month + 1)) + "-" + Pad2(d.day);
    }
    assert IsoDate(d)[..|ym|] == ym;
    if 1000 <= d.year <= 9999 {
      NatLength4(d.year);
    }
  }

  /** `date.setMonth(month)`: the same day number in the new month, overflowing as `new Date` does. */
  function SetMonth(d: Date, month: int): (r: Date)
    ensures ValidDate(r)
  {
    MakeDate(d.year, month, d.day)
  }

  /** The March-based year count inside `DayNumber`: days from 1 March of year 0 to 1 March of year `y2`. */
  function YearStart(y2: int): int
  {
    var era := y2 / 400;
    var yoe := y2 - era * 400;
    era * 146097 + yoe * 365 + yoe / 4 - yoe / 100
  }

  /** From 1 March to the next 1 March is 366 days exactly when the February between falls in a leap year. */
  lemma YearStartNext(y: int)
    ensures YearStart(y) == YearStart(y - 1) + (if IsLeapYear(y) then 366 else 365)
  {
    var era := (y - 1) / 400;
    var yoe := (y - 1) - era * 400;
    assert 0 <= yoe < 400;
    assert YearStart(y - 1) == era * 146097 + yoe * 365 + yoe / 4 - yoe / 100;
    if yoe == 399 {
      assert YearStart(y) == (era + 1) * 146097 by { YearStartOf(y, era + 1, 0); }
      assert IsLeapYear(y) by { DivUnique(y, 400, era + 1, 0); }
    } else {
      var z := yoe + 1;
      assert YearStart(y) == era * 146097 + z * 365 + z / 4 - z / 100 by { YearStartOf(y, era, z); }
      assert IsLeapYear(y) == IsLeapYear(z) by { LeapShift(y, era, z); }
      var step4 := z / 4 - yoe / 4;
      var step100 := z / 100 - yoe / 100;
      assert step4 == (if z % 4 == 0 then 1 else 0) by { NextQuotient(yoe, 4); }
      assert step100 == (if z % 100 == 0 then 1 else 0) by { NextQuotient(yoe, 100); }
      assert IsLeapYear(z) == (step4 == 1 && step100 == 0) && (step100 == 1 ==> step4 == 1) by { LeapInEra(z); }
      assert YearStart(y) - YearStart(y - 1) == 365 + step4 - step100;
    }
  }

  /** Within an era, year 0 aside, a leap year is a multiple of 4 that is not one of 100, and every multiple of 100 is one of 4. */
  lemma LeapInEra(z: int)
    requires 1 <= z < 400
    ensures IsLeapYear(z) == (z % 4 == 0 && z % 100 != 0)
    ensures z % 100 == 0 ==> z % 4 == 0
  {
    assert z % 400 == z by { DivUnique(z, 400, 0, z); }
    if z % 100 == 0 {
      DivUnique(z, 4, (z / 100) * 25, 0);
    }
  }

  /** `YearStart` in terms of a 400-year era and the year within it. */
  lemma YearStartOf(y: int, era: int, yoe: int)
    requires 0 <= yoe < 400 && y == era * 400 + yoe
    ensures YearStart(y) == era * 146097 + yoe * 365 + yoe / 4 - yoe / 100
  {
    DivUnique(y, 400, era, yoe);
  }

  /** Whole 400-year eras do not change whether a year is a leap year. */
  lemma LeapShift(y: int, era: int, z: int)
    requires 0 <= z < 400 && y == era * 400 + z
    ensures IsLeapYear(y) == IsLeapYear(z)
  {
    DivUnique(y, 400, era, z);
    DivUnique(y, 4, era * 100 + z / 4, z % 4);
    DivUnique(y, 100, era * 4 + z / 100, z % 100);
  }

  /** Euclidean division is determined by any quotient and remainder in range. */
  lemma DivUnique(a: int, k: int, q: int, r: int)
    requires k > 0 && 0 <= r < k && a == q * k + r
    ensures a / k == q && a % k == r
  {
    var q0, r0 := a / k, a % k;
    assert a == q0 * k + r0;
    var e := q - q0;
    assert e * k == r0 - r by { Distribute(q, q0, k); }
    if e >= 1 {
      MulAtLeast(e, k);
    } else if e <= -1 {
      Distribute(0, e, k);
      MulAtLeast(-e, k);
    }
  }

  lemma Distribute(q: int, q0: int, k: int)
    ensures (q - q0) * k == q * k - q0 * k
  {
  }

  lemma MulAtLeast(e: int, k: int)
    requires e >= 1 && k > 0
    ensures e * k >= k
  {
    assert (e - 1) * k >= 0;
    Distribute(e, 1, k);
  }

  /** Stepping the dividend by one moves the quotient on exactly at a multiple of `k`. */
  lemma NextQuotient(a: int, k: int)
    requires a >= 0 && k > 0
    ensures (a + 1) / k == a / k + (if (a + 1) % k == 0 then 1 else 0)
  {
    var q, r := a / k, a % k;
    if r == k - 1 {
      DivUnique(a + 1, k, q + 1, 0);
    } else {
      DivUnique(a + 1, k, q, r + 1);
    }
  }

  /** `DayNumber` split into its year part and its day of the March-based year. */
  lemma DayNumberParts(y: int, m: int, d: int)
    requires 0 <= m < 12
    ensures DayNumber(y, m, d) == YearStart(if m <= 1 then y - 1 else y) + MarchOffset(m) + d - 1 - 719468
  {
  }

  /** Days from 1 March to the first of month `m` (0-based, January and February counted in the year before). */
  function MarchOffset(m: int): int
    requires 0 <= m < 12
  {
    (153 * (if m >= 2 then m - 2 else m + 10) + 2) / 5
  }

  /** Within one March-to-February year, each month starts where the one before ends. */
  lemma MarchOffsetStep(y: int, m: int)
    requires 0 <= m < 11 && m != 1
    ensures MarchOffset(m + 1) == MarchOffset(m) + DaysInMonth(y, m)
  {
  }

  /** The first of the next month is numbered right after the last day of this month. */
  lemma DayNumberNextMonth(y: int, m: int)
    requires 0 <= m < 12
    ensures var n := NextMonth(y, m);
      DayNumber(n.0, n.1, 1) == DayNumber(y, m, 1) + DaysInMonth(y, m)
  {
    var n := NextMonth(y, m);
    var here, there := DayNumber(y, m, 1), DayNumber(n.0, n.1, 1);
    if m == 11 {
      var ys := YearStart(y);
      assert here == ys + 275 - 719468 by { DayNumberParts(y, m, 1); }
      assert there == ys + 306 - 719468 by { DayNumberParts(y + 1, 0, 1); }
    } else if m == 1 {
      var ys := YearStart(y);
      assert here == YearStart(y - 1) + 337 - 719468 by { DayNumberParts(y, m, 1); }
      assert there == ys - 719468 by { DayNumberParts(y, 2, 1); }
      YearStartNext(y);
    } else {
      var ys := YearStart(if m == 0 then y - 1 else y);
      assert here == ys + MarchOffset(m) - 719468 by { DayNumberParts(y, m, 1); }
      assert there == ys + MarchOffset(m + 1) - 719468 by { DayNumberParts(y, m + 1, 1); }
      MarchOffsetStep(y, m);
    }
  }

  /** Overflowing days count on from the month's first day: `NormalizeDay` keeps the day number. */
  lemma {:induction false} NormalizeDayNumber(y: int, m: int, d: int)
    requires 0 <= m < 12
    ensures var r := NormalizeDay(y, m, d);
      DayNumber(r.year, r.month, r.day) == DayNumber(y, m, 1) + d - 1
    decreases if d < 1 then 1 else 0, if d < 1 then 1 - d else d
  {
    if d < 1 {
      var p := PrevMonth(y, m);
      NormalizeDayNumber(p.0, p.1, d + DaysInMonth(p.0, p.1));
      DayNumberNextMonth(p.0, p.1);
      assert NextMonth(p.0, p.1) == (y, m);
    } else if d > DaysInMonth(y, m) {
      var n := NextMonth(y, m);
      NormalizeDayNumber(n.0, n.1, d - DaysInMonth(y, m));
      DayNumberNextMonth(y, m);
    } else {
      assert DayNumber(y, m, d) == DayNumber(y, m, 1) + d - 1;
    }
  }

  /** `setDate(getDate() + k)` on a valid date moves its day number by exactly `k`. */
  lemma ShiftDayNumber(d: Date, k: int)
    requires ValidDate(d)
    ensures var r := MakeDate(d.year, d.month, d.day + k);
      DayNumber(r.year, r.month, r.day) == DayNumber(d.year, d.month, d.day) + k
  {
    NormalizeDayNumber(d.year, d.month, d.day + k);
    assert DayNumber(d.year, d.month, d.day) == DayNumber(d.year, d.month, 1) + d.day - 1;
  }
}
