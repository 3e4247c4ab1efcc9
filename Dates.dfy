/**
 * Calendar dates as the screens see them through JavaScript's `Date`: a
 * proleptic Gregorian (year, month, day), the day count behind `getTime()`
 * comparisons of local midnights, the weekday `getDay()` returns (0 is
 * Sunday), the `YYYY-MM-DD` strings the screens write and read back, and
 * the month cursor arithmetic of `new Date(y, m + delta, 1)`.
 * Months are numbered 1..12 here (JavaScript's `getMonth()` is this minus one).
 */
module Dates {
  import opened Wrappers
  import Text

  datatype Date = Date(year: int, month: int, day: int)

  predicate IsLeapYear(y: int) {
    y % 4 == 0 && (y % 100 != 0 || y % 400 == 0)
  }

  function YearLength(y: int): int {
    if IsLeapYear(y) then 366 else 365
  }

  /** `new Date(y, m, 0).getDate()` with JavaScript's month index m: the length of month m. */
  function DaysInMonth(y: int, m: int): (n: int)
    requires 1 <= m <= 12
    ensures 28 <= n <= 31
  {
    if m == 2 then (if IsLeapYear(y) then 29 else 28)
    else if m == 4 || m == 6 || m == 9 || m == 11 then 30
    else 31
  }

  /** A date a JavaScript `Date` can denote: month 1..12 and a day within the month. */
  predicate Valid(d: Date) {
    1 <= d.month <= 12 && 1 <= d.day <= DaysInMonth(d.year, d.month)
  }

  /** Days from 0001-01-01 to the first of January of year y. */
  function DaysBeforeYear(y: int): int {
    365 * (y - 1) + (y - 1) / 4 - (y - 1) / 100 + (y - 1) / 400
  }

  /** Days from the first of January to the first of month m of year y. */
  function DaysBeforeMonth(y: int, m: int): nat
    requires 1 <= m <= 12
  {
    if m == 1 then 0 else DaysBeforeMonth(y, m - 1) + DaysInMonth(y, m - 1)
  }

  /** Days since 0001-01-01 (a Monday): what comparing `getTime()` of two local midnights compares. */
  function DayNumber(d: Date): int
    requires Valid(d)
  {
    DaysBeforeYear(d.year) + DaysBeforeMonth(d.year, d.month) + d.day - 1
  }

  /** `getDay()`: 0 for Sunday through 6 for Saturday. */
  function Weekday(d: Date): (w: nat)
    requires Valid(d)
    ensures w < 7
  {
    (DayNumber(d) + 1) % 7
  }

  /** Known dates: 2024-01-01 was a Monday, 1970-01-01 a Thursday, 2026-10-17 a Saturday. */
  lemma WeekdayAnchors()
    ensures Weekday(Date(2024, 1, 1)) == 1
    ensures Weekday(Date(1970, 1, 1)) == 4
    ensures Weekday(Date(2026, 10, 17)) == 6
  {
  }

  /** The calendar day after `d`, across month and year ends. */
  function NextDay(d: Date): (r: Date)
    requires Valid(d)
    ensures Valid(r) && OnOrBefore(d, r) && r != d
  {
    if d.day < DaysInMonth(d.year, d.month) then Date(d.year, d.month, d.day + 1)
    else if d.month < 12 then Date(d.year, d.month + 1, 1)
    else Date(d.year + 1, 1, 1)
  }

  /** The next day is one day number later, so its weekday is the following one. */
  lemma NextDayWeekday(d: Date)
    requires Valid(d)
    ensures DayNumber(NextDay(d)) == DayNumber(d) + 1
    ensures Weekday(NextDay(d)) == (Weekday(d) + 1) % 7
  {
    var n := DayNumber(d);
    if d.day < DaysInMonth(d.year, d.month) {
      assert DayNumber(NextDay(d)) == n + 1;
    } else if d.month < 12 {
      assert DaysBeforeMonth(d.year, d.month + 1) == DaysBeforeMonth(d.year, d.month) + DaysInMonth(d.year, d.month);
    } else {
      YearStep(d.year);
      MonthsFillYear(d.year);
    }
    NextResidue(n + 1);
  }

  lemma NextResidue(n: int)
    ensures (n + 1) % 7 == (n % 7 + 1) % 7
  {
  }

  /** A week later in the same month falls on the same weekday. */
  lemma WeekLaterSameWeekday(d: Date)
    requires Valid(d) && Valid(Date(d.year, d.month, d.day + 7))
    ensures Weekday(Date(d.year, d.month, d.day + 7)) == Weekday(d)
  {
    var n := DayNumber(d);
    assert DayNumber(Date(d.year, d.month, d.day + 7)) == n + 7;
    WeekLater(n + 1);
  }

  lemma WeekLater(n: int)
    ensures (n + 7) % 7 == n % 7
  {
  }

  /** Calendar order: `a` is the same day as `b` or an earlier one. */
  predicate OnOrBefore(a: Date, b: Date) {
    || a.year < b.year
    || (a.year == b.year && a.month < b.month)
    || (a.year == b.year && a.month == b.month && a.day <= b.day)
  }

  /** Each year adds its own length to the day count. */
  lemma YearStep(y: int)
    ensures DaysBeforeYear(y + 1) == DaysBeforeYear(y) + YearLength(y)
  {
    assert y / 4 - (y - 1) / 4 == if y % 4 == 0 then 1 else 0;
    assert y / 100 - (y - 1) / 100 == if y % 100 == 0 then 1 else 0;
    assert y / 400 - (y - 1) / 400 == if y % 400 == 0 then 1 else 0;
  }

  /** Later years start later: the first of January of y2 is after the whole of year y1. */
  lemma {:induction false} YearsAscend(y1: int, y2: int)
    requires y1 < y2
    ensures DaysBeforeYear(y1 + 1) <= DaysBeforeYear(y2)
    decreases y2 - y1
  {
    if y1 + 1 < y2 {
      YearsAscend(y1, y2 - 1);
      YearStep(y2 - 1);
    }
  }

  /** Later months of a year start after the whole of an earlier month. */
  lemma {:induction false} MonthsAscend(y: int, m1: int, m2: int)
    requires 1 <= m1 < m2 <= 12
    ensures DaysBeforeMonth(y, m1) + DaysInMonth(y, m1) <= DaysBeforeMonth(y, m2)
  {
    if m1 + 1 < m2 {
      MonthsAscend(y, m1, m2 - 1);
    }
  }

  /** December ends the year: the twelve months add up to the year's length. */
  lemma MonthsFillYear(y: int)
    ensures DaysBeforeMonth(y, 12) + DaysInMonth(y, 12) == YearLength(y)
  {
    var leap := if IsLeapYear(y) then 1 else 0;
    assert DaysBeforeMonth(y, 2) == 31;
    assert DaysBeforeMonth(y, 3) == 59 + leap;
    assert DaysBeforeMonth(y, 4) == 90 + leap;
    assert DaysBeforeMonth(y, 5) == 120 + leap;
    assert DaysBeforeMonth(y, 6) == 151 + leap;
    assert DaysBeforeMonth(y, 7) == 181 + leap;
    assert DaysBeforeMonth(y, 8) == 212 + leap;
    assert DaysBeforeMonth(y, 9) == 243 + leap;
    assert DaysBeforeMonth(y, 10) == 273 + leap;
    assert DaysBeforeMonth(y, 11) == 304 + leap;
    assert DaysBeforeMonth(y, 12) == 334 + leap;
  }

  /** A valid date's day number lies within its own year. */
  lemma DayWithinYear(d: Date)
    requires Valid(d)
    ensures DaysBeforeYear(d.year) <= DayNumber(d) < DaysBeforeYear(d.year + 1)
  {
    YearStep(d.year);
    MonthsFillYear(d.year);
    if d.month < 12 {
      MonthsAscend(d.year, d.month, 12);
    }
  }

  /**
   * Comparing day numbers (the source's `getTime()` comparison) is calendar
   * order, and equal day numbers are the same calendar day.
   */
  lemma DayNumberOrder(a: Date, b: Date)
    requires Valid(a) && Valid(b)
    ensures DayNumber(a) <= DayNumber(b) <==> OnOrBefore(a, b)
    ensures DayNumber(a) == DayNumber(b) <==> a == b
  {
    DayWithinYear(a);
    DayWithinYear(b);
    if a.year < b.year {
      YearsAscend(a.year, b.year);
    } else if b.year < a.year {
      YearsAscend(b.year, a.year);
    } else if a.month < b.month {
      MonthsAscend(a.year, a.month, b.month);
    } else if b.month < a.month {
      MonthsAscend(a.year, b.month, a.month);
    }
  }

  /** `String(n).padStart(2, '0')`. */
  function Pad2(n: nat): (s: string)
    ensures Text.AllDigits(s) && Text.DigitsValue(s) == n
    ensures n < 100 ==> |s| == 2
  {
    var t := Text.NatToString(n);
    if |t| < 2 then
      var s := "0" + t;
      assert s[..|s| - 1] == "0";
      s
    else t
  }

  /** The `${year}-${mm}-${dd}` string the screens write for a chosen day. */
  function FormatDate(d: Date): (s: string)
    requires d.year >= 0 && d.month >= 0 && d.day >= 0
    ensures d.month < 100 && d.day < 100 ==>
      var n := |Text.NatToString(d.year)|;
      && |s| == n + 6 && s[n] == '-' && s[n + 3] == '-'
      && Text.AllDigits(s[..n]) && Text.DigitsValue(s[..n]) == d.year
      && Text.AllDigits(s[n + 1..n + 3]) && Text.DigitsValue(s[n + 1..n + 3]) == d.month
      && Text.AllDigits(s[n + 4..]) && Text.DigitsValue(s[n + 4..]) == d.day
  {
    var y := Text.NatToString(d.year);
    var s := y + "-" + Pad2(d.month) + "-" + Pad2(d.day);
    assert s[..|y|] == y;
    assert d.month < 100 && d.day < 100 ==>
      s[|y| + 1..|y| + 3] == Pad2(d.month) && s[|y| + 4..] == Pad2(d.day);
    s
  }

  /**
   * How a stored `YYYY-MM-DD` due date is read as a local calendar day:
   * four digits, a dash, two digits, a dash, two digits, naming a real day.
   */
  function ParseDate(s: string): (r: Option<Date>)
    ensures r.Some? ==> Valid(r.value)
    ensures r.Some? ==> |s| == 10 && s[4] == '-' && s[7] == '-'
  {
    if |s| == 10 && s[4] == '-' && s[7] == '-'
      && Text.AllDigits(s[..4]) && Text.AllDigits(s[5..7]) && Text.AllDigits(s[8..])
    then
      var d := Date(Text.DigitsValue(s[..4]), Text.DigitsValue(s[5..7]), Text.DigitsValue(s[8..]));
      if Valid(d) then Some(d) else None
    else None
  }

  /** A day the screens format (a four-digit year) reads back as the same day. */
  lemma ParseFormatRoundTrip(d: Date)
    requires Valid(d) && 1000 <= d.year <= 9999
    ensures ParseDate(FormatDate(d)) == Some(d)
  {
    var y, m, dd := Text.NatToString(d.year), Pad2(d.month), Pad2(d.day);
    Text.FourDigits(d.year);
    var s := FormatDate(d);
    assert s == y + "-" + m + "-" + dd;
    assert s[..4] == y;
    assert s[5..7] == m;
    assert s[8..] == dd;
  }

  /**
   * `new Date(y, (m - 1) + delta, 1)`: the first day of the month `delta`
   * months after month m of year y, with the year carried or borrowed.
   */
  function ShiftMonth(y: int, m: int, delta: int): (r: Date)
    requires 1 <= m <= 12
    ensures Valid(r) && r.day == 1
    ensures r.year * 12 + r.month == y * 12 + m + delta
  {
    var total := (m - 1) + delta;
    Date(y + total / 12, total % 12 + 1, 1)
  }

  /** Going forward a months and then b months is going forward a + b months; -delta undoes delta. */
  lemma ShiftMonthCompose(y: int, m: int, a: int, b: int)
    requires 1 <= m <= 12
    ensures var c := ShiftMonth(y, m, a); ShiftMonth(c.year, c.month, b) == ShiftMonth(y, m, a + b)
    ensures var c := ShiftMonth(y, m, a); ShiftMonth(c.year, c.month, -a) == Date(y, m, 1)
  {
    var c := ShiftMonth(y, m, a);
    var r1, r2 := ShiftMonth(c.year, c.month, b), ShiftMonth(y, m, a + b);
    MonthIndexDetermines(r1, r2);
    MonthIndexDetermines(ShiftMonth(c.year, c.month, -a), Date(y, m, 1));
  }

  /** Two first-of-month dates with the same month index are the same date. */
  lemma MonthIndexDetermines(a: Date, b: Date)
    requires 1 <= a.month <= 12 && 1 <= b.month <= 12 && a.day == b.day
    requires a.year * 12 + a.month == b.year * 12 + b.month
    ensures a == b
  {
  }
}
