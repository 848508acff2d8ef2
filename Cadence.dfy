/** The two maintenance cadences, each stated once over integer local time:
    WordPress sites are due every week (weeks start on Monday 00:00, as in ISO 8601),
    SupportPal sites every month (from the 1st at 00:00). Every page and route of the
    dashboard re-implements them with `Date` calls; the lemmas here show that the
    `Date` computation they all write out yields these boundaries. */
module Cadence {
  import opened JsDate

  /** Monday 00:00 of the week `now` falls in: `(getDay() + 6) % 7` days back from today. */
  function WeekStart(now: int): (s: int)
    ensures TimeWithinDay(s) == 0
    ensures GetDay(s) == 1
    ensures s <= now < s + 7 * MsPerDay
  {
    var back := (GetDay(now) + 6) % 7;
    var s := (DayIndex(now) - back) * MsPerDay;
    DayIndexOf(DayIndex(now) - back, 0);
    DayDecomposition(now);
    ModSevenFacts(DayIndex(now));
    s
  }

  lemma ModSevenFacts(d: int)
    ensures ((d + 4) % 7 + 6) % 7 == (d + 3) % 7
    ensures (d - (d + 3) % 7 + 4) % 7 == 1
  {
    var q := (d + 3) / 7;
    var r := (d + 3) % 7;
    assert d + 3 == 7 * q + r;
    assert d - r + 4 == 7 * q + 1;
  }

  /** The 1st of the month `now` falls in, at 00:00. */
  function MonthStart(now: int): (s: int)
    ensures TimeWithinDay(s) == 0
    ensures s <= now
    ensures var c := CivilFromDays(DayIndex(now));
      CivilFromDays(DayIndex(s)) == CivilDate(c.year, c.month, 1)
      && now < s + DaysInMonth(c.year, c.month) * MsPerDay
  {
    var d := DayIndex(now);
    var s := (d - (GetDate(now) - 1)) * MsPerDay;
    DayIndexOf(d - (GetDate(now) - 1), 0);
    DayDecomposition(now);
    FirstOfMonth(d);
    s
  }

  /** A WordPress check at `checkDate` covers the week of `now`. */
  predicate CompletedThisWeek(checkDate: int, now: int) {
    checkDate >= WeekStart(now)
  }

  /** A SupportPal check at `checkDate` covers the month of `now`. */
  predicate CompletedThisMonth(checkDate: int, now: int) {
    checkDate >= MonthStart(now)
  }

  /** The Monday that every weekly copy computes: `diff = getDate() - day + (day === 0 ? -6 : 1)`,
      then `setDate(diff)` and `setHours(0, 0, 0, 0)`. */
  function MondayAsWritten(now: int): int {
    var day := GetDay(now);
    var diff := GetDate(now) - day + (if day == 0 then -6 else 1);
    SetHoursToMidnight(SetDate(now, diff))
  }

  /** The Monday the pages compute is the canonical week start, on Sundays included (6 days back). */
  lemma MondayAsWrittenIsWeekStart(now: int)
    ensures MondayAsWritten(now) == WeekStart(now)
  {
    var day := GetDay(now);
    var diff := GetDate(now) - day + (if day == 0 then -6 else 1);
    SetDateMovesByDays(now, diff);
    DayDecomposition(now);
    ModSevenFacts(DayIndex(now));
    var back := (GetDay(now) + 6) % 7;
    assert diff - GetDate(now) == -back;
    DayIndexOf(DayIndex(now) - back, TimeWithinDay(now));
  }

  /** The month start every monthly copy computes:
      `new Date(getFullYear(), getMonth(), 1)` followed by `setHours(0, 0, 0, 0)`. */
  function StartOfMonthAsWritten(now: int): int {
    SetHoursToMidnight(NewDate(GetFullYear(now), GetMonth(now), 1))
  }

  lemma StartOfMonthAsWrittenIsMonthStart(now: int)
    ensures StartOfMonthAsWritten(now) == MonthStart(now)
  {
    var d := DayIndex(now);
    var c := CivilFromDays(d);
    CivilRoundTrip(d);
    assert (c.month - 1) / 12 == 0 && (c.month - 1) % 12 + 1 == c.month;
    assert NewDate(c.year, c.month - 1, 1) == (d - (c.day - 1)) * MsPerDay;
    DayIndexOf(d - (c.day - 1), 0);
  }

  /** On a Sunday the week started six days earlier. */
  lemma WeekStartOnSunday(now: int)
    requires GetDay(now) == 0
    ensures WeekStart(now) == SetHoursToMidnight(now) - 6 * MsPerDay
  {
  }

  /** Every instant of a week has the same week start: the boundary depends only on the week. */
  lemma WeekStartSameWeek(now: int, t: int)
    requires WeekStart(now) <= t < WeekStart(now) + 7 * MsPerDay
    ensures WeekStart(t) == WeekStart(now)
  {
    var s := WeekStart(now);
    var e := DayIndex(s);
    DayIndexOf(e, 0);
    var k := DayIndex(t) - e;
    DayDecomposition(t);
    assert 0 <= k < 7;
    ModSevenFacts(e);
    ModSevenFacts(DayIndex(t));
    assert (e + 3) % 7 == 0;
    assert (DayIndex(t) + 3) % 7 == k;
  }

  /** Every instant of a calendar month has the same month start. */
  lemma MonthStartSameMonth(now: int, t: int)
    requires CivilFromDays(DayIndex(t)).year == CivilFromDays(DayIndex(now)).year
    requires CivilFromDays(DayIndex(t)).month == CivilFromDays(DayIndex(now)).month
    ensures MonthStart(t) == MonthStart(now)
  {
    CivilRoundTrip(DayIndex(t));
    CivilRoundTrip(DayIndex(now));
  }

  /** `new Date(0)`: the check date given to the log a new site is created with. */
  const NeverChecked: int := 0

  /** The creation sentinel is stale in every week after the one it falls in. */
  lemma NeverCheckedDueWeekly(now: int)
    requires WeekStart(now) > WeekStart(NeverChecked)
    ensures !CompletedThisWeek(NeverChecked, now)
  {
    var s := WeekStart(now);
    DayIndexOf(DayIndex(s), 0);
    ModSevenFacts(DayIndex(s));
    assert WeekStart(NeverChecked) == -3 * MsPerDay;
    assert (DayIndex(s) + 3) % 7 == 0;
    assert DayIndex(s) > -3;
  }

  /** The creation sentinel falls on 1970-01-01. */
  lemma NeverCheckedDate()
    ensures CivilFromDays(DayIndex(NeverChecked)) == CivilDate(1970, 1, 1)
  {
  }

  /** The creation sentinel is stale in every month after January 1970. */
  lemma NeverCheckedDueMonthly(now: int)
    requires var c := CivilFromDays(DayIndex(now)); c.year > 1970 || (c.year == 1970 && c.month > 1)
    ensures !CompletedThisMonth(NeverChecked, now)
  {
    var d := DayIndex(now);
    var c := CivilFromDays(d);
    CivilRoundTrip(d);
    if c.year > 1970 {
      DaysBeforeYearGrows(c.year);
    }
    DayIndexOf(d - (c.day - 1), 0);
    assert d - (c.day - 1) == DaysBeforeYear(c.year) + DaysBeforeMonth(c.year, c.month);
  }
}
