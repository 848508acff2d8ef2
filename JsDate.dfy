/** The JavaScript `Date` operations the dashboard uses, over integer local time:
    an instant is a number of milliseconds since 1970-01-01 00:00 local time, the
    calendar is the proleptic Gregorian one, and there is no daylight saving. */
module JsDate {

  const MsPerDay: int := 86400000

  /** The number of the local day an instant falls in; day 0 is 1970-01-01. */
  function DayIndex(t: int): int {
    t / MsPerDay
  }

  /** Milliseconds since local midnight. */
  function TimeWithinDay(t: int): int {
    t % MsPerDay
  }

  lemma DayIndexOf(d: int, r: int)
    requires 0 <= r < MsPerDay
    ensures DayIndex(d * MsPerDay + r) == d
    ensures TimeWithinDay(d * MsPerDay + r) == r
  {
  }

  lemma DayDecomposition(t: int)
    ensures t == DayIndex(t) * MsPerDay + TimeWithinDay(t)
    ensures 0 <= TimeWithinDay(t) < MsPerDay
  {
  }

  predicate IsLeapYear(y: int) {
    y % 4 == 0 && (y % 100 != 0 || y % 400 == 0)
  }

  function DaysInYear(y: int): int {
    if IsLeapYear(y) then 366 else 365
  }

  /** Month `m` runs from 1 (January) to 12 (December). */
  function DaysInMonth(y: int, m: int): int
    requires 1 <= m <= 12
  {
    if m == 2 then (if IsLeapYear(y) then 29 else 28)
    else if m == 4 || m == 6 || m == 9 || m == 11 then 30
    else 31
  }

  /** Days of year `y` before the 1st of month `m`; month 13 stands for the next year's start. */
  function DaysBeforeMonth(y: int, m: int): int
    requires 1 <= m <= 13
  {
    [0, 31, 59, 90, 120, 151, 181, 212, 243, 273, 304, 334, 365][m - 1]
    + (if IsLeapYear(y) && m > 2 then 1 else 0)
  }

  lemma DaysBeforeMonthStep(y: int, m: int)
    requires 1 <= m <= 12
    ensures DaysBeforeMonth(y, m + 1) == DaysBeforeMonth(y, m) + DaysInMonth(y, m)
    ensures DaysBeforeMonth(y, 13) == DaysInYear(y)
  {
  }

  /** Days from 1970-01-01 to the 1st of January of year `y` (negative before 1970). */
  function DaysBeforeYear(y: int): int
    decreases if y >= 1970 then y - 1970 else 1970 - y
  {
    if y == 1970 then 0
    else if y > 1970 then DaysBeforeYear(y - 1) + DaysInYear(y - 1)
    else DaysBeforeYear(y + 1) - DaysInYear(y)
  }

  lemma DaysBeforeYearStep(y: int)
    ensures DaysBeforeYear(y + 1) == DaysBeforeYear(y) + DaysInYear(y)
  {
  }

  /** Years after 1970 start at least 365 days per year after it. */
  lemma {:induction false} DaysBeforeYearGrows(y: int)
    requires y >= 1970
    ensures DaysBeforeYear(y) >= 365 * (y - 1970)
    decreases y - 1970
  {
    if y > 1970 {
      DaysBeforeYearGrows(y - 1);
    }
  }

  /** Normalises a day offset `off` counted from the 1st of January of year `y`
      into a year and a day of that year. */
  function YearAndOffset(y: int, off: int): (r: (int, int))
    ensures 0 <= r.1 < DaysInYear(r.0)
    decreases if off < 0 then 366 - off else off
  {
    if off < 0 then YearAndOffset(y - 1, off + DaysInYear(y - 1))
    else if off >= DaysInYear(y) then YearAndOffset(y + 1, off - DaysInYear(y))
    else (y, off)
  }

  /** Splits a day of year `y`, counted from the 1st of month `m`, into a month and a day offset in it. */
  function MonthAndOffset(y: int, m: int, off: int): (r: (int, int))
    requires 1 <= m <= 12
    requires 0 <= off < DaysInYear(y) - DaysBeforeMonth(y, m)
    ensures 1 <= r.0 <= 12 && 0 <= r.1 < DaysInMonth(y, r.0)
    decreases 12 - m
  {
    DaysBeforeMonthStep(y, m);
    if off < DaysInMonth(y, m) then (m, off)
    else MonthAndOffset(y, m + 1, off - DaysInMonth(y, m))
  }

  datatype CivilDate = CivilDate(year: int, month: int, day: int)

  predicate ValidCivil(c: CivilDate) {
    1 <= c.month <= 12 && 1 <= c.day <= DaysInMonth(c.year, c.month)
  }

  /** The calendar date of a day number. */
  function CivilFromDays(d: int): (c: CivilDate)
    ensures ValidCivil(c)
  {
    var (y, doy) := YearAndOffset(1970, d);
    var (m, off) := MonthAndOffset(y, 1, doy);
    CivilDate(y, m, off + 1)
  }

  /** The day number of a calendar date; `day` may run past the month, as in `MakeDay`. */
  function DaysFromCivil(y: int, m: int, day: int): int
    requires 1 <= m <= 12
  {
    DaysBeforeYear(y) + DaysBeforeMonth(y, m) + day - 1
  }

  lemma {:induction false} YearAndOffsetSum(y: int, off: int)
    ensures DaysBeforeYear(YearAndOffset(y, off).0) + YearAndOffset(y, off).1 == DaysBeforeYear(y) + off
    decreases if off < 0 then 366 - off else off
  {
    if off < 0 {
      YearAndOffsetSum(y - 1, off + DaysInYear(y - 1));
      DaysBeforeYearStep(y - 1);
    } else if off >= DaysInYear(y) {
      YearAndOffsetSum(y + 1, off - DaysInYear(y));
      DaysBeforeYearStep(y);
    }
  }

  lemma {:induction false} MonthAndOffsetSum(y: int, m: int, off: int)
    requires 1 <= m <= 12
    requires 0 <= off < DaysInYear(y) - DaysBeforeMonth(y, m)
    ensures DaysBeforeMonth(y, MonthAndOffset(y, m, off).0) + MonthAndOffset(y, m, off).1 == DaysBeforeMonth(y, m) + off
    decreases 12 - m
  {
    DaysBeforeMonthStep(y, m);
    if off >= DaysInMonth(y, m) {
      MonthAndOffsetSum(y, m + 1, off - DaysInMonth(y, m));
    }
  }

  /** Converting a day number to a calendar date and back gives the day number. */
  lemma CivilRoundTrip(d: int)
    ensures var c := CivilFromDays(d); DaysFromCivil(c.year, c.month, c.day) == d
  {
    var (y, doy) := YearAndOffset(1970, d);
    YearAndOffsetSum(1970, d);
    MonthAndOffsetSum(y, 1, doy);
  }

  lemma {:induction false} YearAndOffsetShift(y: int, off: int, k: int)
    requires 0 <= k <= YearAndOffset(y, off).1
    ensures YearAndOffset(y, off - k) == (YearAndOffset(y, off).0, YearAndOffset(y, off).1 - k)
    decreases if off < 0 then 366 - off else off
  {
    if off < 0 {
      YearAndOffsetShift(y - 1, off + DaysInYear(y - 1), k);
    } else if off >= DaysInYear(y) {
      YearAndOffsetSum(y + 1, off - DaysInYear(y));
      YearAndOffsetRemainderBound(y + 1, off - DaysInYear(y));
      YearAndOffsetShift(y + 1, off - DaysInYear(y), k);
    }
  }

  /** Normalising never ends on a day later than the offset it started from. */
  lemma {:induction false} YearAndOffsetRemainderBound(y: int, off: int)
    requires off >= 0
    ensures YearAndOffset(y, off).1 <= off
    decreases off
  {
    if off >= DaysInYear(y) {
      YearAndOffsetRemainderBound(y + 1, off - DaysInYear(y));
    }
  }

  lemma {:induction false} MonthAndOffsetShift(y: int, m: int, off: int, k: int)
    requires 1 <= m <= 12
    requires 0 <= off < DaysInYear(y) - DaysBeforeMonth(y, m)
    requires 0 <= k <= MonthAndOffset(y, m, off).1
    ensures MonthAndOffset(y, m, off - k) == (MonthAndOffset(y, m, off).0, MonthAndOffset(y, m, off).1 - k)
    decreases 12 - m
  {
    DaysBeforeMonthStep(y, m);
    if off >= DaysInMonth(y, m) {
      MonthAndOffsetRemainderBound(y, m + 1, off - DaysInMonth(y, m));
      MonthAndOffsetShift(y, m + 1, off - DaysInMonth(y, m), k);
    }
  }

  lemma {:induction false} MonthAndOffsetRemainderBound(y: int, m: int, off: int)
    requires 1 <= m <= 12
    requires 0 <= off < DaysInYear(y) - DaysBeforeMonth(y, m)
    ensures MonthAndOffset(y, m, off).1 <= off
    decreases 12 - m
  {
    DaysBeforeMonthStep(y, m);
    if off >= DaysInMonth(y, m) {
      MonthAndOffsetRemainderBound(y, m + 1, off - DaysInMonth(y, m));
    }
  }

  /** Going back `day - 1` days from any date lands on the 1st of the same month. */
  lemma FirstOfMonth(d: int)
    ensures var c := CivilFromDays(d); CivilFromDays(d - (c.day - 1)) == CivilDate(c.year, c.month, 1)
  {
    var (y, doy) := YearAndOffset(1970, d);
    var (m, off) := MonthAndOffset(y, 1, doy);
    MonthAndOffsetRemainderBound(y, 1, doy);
    YearAndOffsetShift(1970, d, off);
    MonthAndOffsetShift(y, 1, doy, off);
  }

  // The `Date.prototype` accessors and setters, on local time.

  /** `getDay()`: 0 is Sunday; day 0 (1970-01-01) was a Thursday. */
  function GetDay(t: int): int {
    (DayIndex(t) + 4) % 7
  }

  /** `getDate()`: the day of the month, from 1. */
  function GetDate(t: int): int {
    CivilFromDays(DayIndex(t)).day
  }

  /** `getMonth()`: 0 is January. */
  function GetMonth(t: int): int {
    CivilFromDays(DayIndex(t)).month - 1
  }

  /** `getFullYear()` */
  function GetFullYear(t: int): int {
    CivilFromDays(DayIndex(t)).year
  }

  /** `new Date(y, m, day)`: local midnight, with the month normalised into the year as `MakeDay` does.
      The site only calls it with the current year, so JavaScript's reading of a year 0 to 99 as
      1900 plus that year is not modelled. */
  function NewDate(y: int, m: int, day: int): int {
    DaysFromCivil(y + m / 12, m % 12 + 1, day) * MsPerDay
  }

  /** `t.setDate(day)`: the same month and time of day with the day of the month replaced;
      a day outside the month rolls over into the neighbouring months. */
  function SetDate(t: int, day: int): int {
    var c := CivilFromDays(DayIndex(t));
    DaysFromCivil(c.year, c.month, day) * MsPerDay + TimeWithinDay(t)
  }

  /** `t.setHours(0, 0, 0, 0)`: local midnight of the same day. */
  function SetHoursToMidnight(t: int): int {
    DayIndex(t) * MsPerDay
  }

  /** `setDate` moves an instant by whole days: the difference between the new and the old day of the month. */
  lemma SetDateMovesByDays(t: int, day: int)
    ensures SetDate(t, day) == t + (day - GetDate(t)) * MsPerDay
  {
    CivilRoundTrip(DayIndex(t));
    DayDecomposition(t);
  }
}
