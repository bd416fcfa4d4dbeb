/**
 * Calendar dates. The source keys every completion by the RFC 3339 section 5.6
 * `full-date` string (`YYYY-MM-DD`) and compares and sorts those strings; the
 * model uses integer day numbers instead and proves here that the two orders
 * agree, so `date >= start` and `dates.sort()` on strings are `>=` and an
 * ascending sort on day numbers. Reminder times (`HH:MM`) get the same treatment.
 */
module Dates {
  import opened Text

  /** A calendar date as a count of days; day 0 is 1970-01-01. */
  type Day = int

  /** `Date.prototype.getDay()`: 0 is Sunday, 6 is Saturday; 1970-01-01 was a Thursday. */
  function Weekday(d: Day): (w: int)
    ensures 0 <= w < 7
  {
    (d + 4) % 7
  }

  // ---------------------------------------------------------------------------
  // Proleptic Gregorian civil dates
  // ---------------------------------------------------------------------------

  datatype CivilDate = CivilDate(year: int, month: int, day: int)

  predicate IsLeapYear(y: int) {
    y % 4 == 0 && (y % 100 != 0 || y % 400 == 0)
  }

  function YearLength(y: int): int {
    if IsLeapYear(y) then 366 else 365
  }

  function DaysInMonth(y: int, m: int): int
    requires 1 <= m <= 12
  {
    if m == 2 then (if IsLeapYear(y) then 29 else 28)
    else if m == 4 || m == 6 || m == 9 || m == 11 then 30
    else 31
  }

  /** A date `toISOString` writes with a four-digit year. */
  predicate ValidDate(c: CivilDate) {
    && 0 <= c.year <= 9999
    && 1 <= c.month <= 12
    && 1 <= c.day <= DaysInMonth(c.year, c.month)
  }

  /** Days from 0000-01-01 to the first day of year `y`. */
  function DaysBeforeYear(y: nat): int {
    if y == 0 then 0 else DaysBeforeYear(y - 1) + YearLength(y - 1)
  }

  lemma {:induction false} DaysBeforeYearGrows(y: nat, z: nat)
    requires y < z
    ensures DaysBeforeYear(y) + YearLength(y) <= DaysBeforeYear(z)
    decreases z - y
  {
    if y + 1 < z {
      DaysBeforeYearGrows(y + 1, z);
    }
  }

  /** Days from the first of January of year `y` to the first day of month `m`. */
  function DaysBeforeMonth(y: int, m: int): int
    requires 1 <= m <= 12
  {
    var common := [0, 31, 59, 90, 120, 151, 181, 212, 243, 273, 304, 334][m - 1];
    if m > 2 && IsLeapYear(y) then common + 1 else common
  }

  lemma DaysBeforeMonthGrows(y: int, m: int, n: int)
    requires 1 <= m < n <= 12
    ensures DaysBeforeMonth(y, m) + DaysInMonth(y, m) <= DaysBeforeMonth(y, n)
  {
  }

  lemma LastMonthEndsYear(y: int, m: int)
    requires 1 <= m <= 12
    ensures DaysBeforeMonth(y, m) + DaysInMonth(y, m) <= YearLength(y)
  {
  }

  /** The number of days from 0000-01-01 to 1970-01-01. */
  const EpochOffset: int := 719528

  /** The day number of a civil date. */
  function DayNumber(c: CivilDate): Day
    requires ValidDate(c)
  {
    DaysBeforeYear(c.year) + DaysBeforeMonth(c.year, c.month) + c.day - 1 - EpochOffset
  }

  /** Earlier in (year, month, day) order. */
  predicate CivilBefore(a: CivilDate, b: CivilDate) {
    || a.year < b.year
    || (a.year == b.year && a.month < b.month)
    || (a.year == b.year && a.month == b.month && a.day < b.day)
  }

  /** Day numbers increase with the calendar. */
  lemma DayNumberIncreasing(a: CivilDate, b: CivilDate)
    requires ValidDate(a) && ValidDate(b) && CivilBefore(a, b)
    ensures DayNumber(a) < DayNumber(b)
  {
    if a.year < b.year {
      LastMonthEndsYear(a.year, a.month);
      DaysBeforeYearGrows(a.year, b.year);
    } else if a.month < b.month {
      DaysBeforeMonthGrows(a.year, a.month, b.month);
    }
  }

  // ---------------------------------------------------------------------------
  // The YYYY-MM-DD string
  // ---------------------------------------------------------------------------

  /** `toISOString().split('T')[0]`: RFC 3339 `full-date`. */
  function FullDate(c: CivilDate): (s: string)
    requires ValidDate(c)
    ensures |s| == 10
  {
    DigitsOf(c.year, 4) + "-" + DigitsOf(c.month, 2) + "-" + DigitsOf(c.day, 2)
  }

  /** `full-date` strings compare as their dates do. */
  lemma FullDateOrder(a: CivilDate, b: CivilDate)
    requires ValidDate(a) && ValidDate(b)
    ensures LexLess(FullDate(a), FullDate(b)) <==> CivilBefore(a, b)
    ensures FullDate(a) == FullDate(b) <==> a == b
  {
    var ya, yb := DigitsOf(a.year, 4), DigitsOf(b.year, 4);
    var ma, mb := DigitsOf(a.month, 2), DigitsOf(b.month, 2);
    var da, db := DigitsOf(a.day, 2), DigitsOf(b.day, 2);
    assert Pow10(4) == 10000 && Pow10(2) == 100;
    DigitsOfOrder(a.year, b.year, 4);
    DigitsOfOrder(a.month, b.month, 2);
    DigitsOfOrder(a.day, b.day, 2);
    SeparatedOrder(ya, ma, yb, mb, "-");
    SeparatedOrder(ya + "-" + ma, da, yb + "-" + mb, db, "-");
  }

  /**
   * The string order of `full-date` keys is the numeric order of their day
   * numbers, and equal keys are equal days.
   */
  lemma FullDateOrderIsDayOrder(a: CivilDate, b: CivilDate)
    requires ValidDate(a) && ValidDate(b)
    ensures LexLess(FullDate(a), FullDate(b)) <==> DayNumber(a) < DayNumber(b)
    ensures FullDate(a) == FullDate(b) <==> DayNumber(a) == DayNumber(b)
  {
    FullDateOrder(a, b);
    if CivilBefore(a, b) {
      DayNumberIncreasing(a, b);
    } else if CivilBefore(b, a) {
      DayNumberIncreasing(b, a);
    } else {
      assert a == b;
    }
  }

  // ---------------------------------------------------------------------------
  // HH:MM wall-clock times
  // ---------------------------------------------------------------------------

  /** A time of day in minutes since midnight: the value of an `HH:MM` string. */
  type Minutes = m: int | 0 <= m < 1440

  /** The `HH:MM` rendering, as HabitCard builds it with `padStart(2, '0')`. */
  function ClockString(t: Minutes): (s: string)
    ensures |s| == 5
  {
    DigitsOf(t / 60, 2) + ":" + DigitsOf(t % 60, 2)
  }

  /** `HH:MM` strings compare (with `>` and `localeCompare` on digits) as the minute counts do. */
  lemma ClockStringOrder(a: Minutes, b: Minutes)
    ensures LexLess(ClockString(a), ClockString(b)) <==> a < b
    ensures ClockString(a) == ClockString(b) <==> a == b
  {
    var ha, hb := DigitsOf(a / 60, 2), DigitsOf(b / 60, 2);
    var ma, mb := DigitsOf(a % 60, 2), DigitsOf(b % 60, 2);
    assert Pow10(2) == 100;
    DigitsOfOrder(a / 60, b / 60, 2);
    DigitsOfOrder(a % 60, b % 60, 2);
    var ra, rb := ":" + ma, ":" + mb;
    assert ClockString(a) == ha + ra && ClockString(b) == hb + rb;
    LexLessConcat(ha, ra, hb, rb);
    LexLessConcat(":", ma, ":", mb);
    assert ra[1..] == ma && rb[1..] == mb;
    if ClockString(a) == ClockString(b) {
      assert ha == ClockString(a)[..2] && hb == ClockString(b)[..2];
      assert ma == ClockString(a)[3..] && mb == ClockString(b)[3..];
    }
  }
}
