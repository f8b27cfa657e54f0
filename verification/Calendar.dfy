/**
  The proleptic Gregorian calendar and the ISO week date (ISO 8601:2004, section
  4.1.4) on day numbers: day 0 is Monday, 1 January of year 1. Go's date
  arithmetic as internal/store/temporal.go and cmd/hupi-consolidate use it.
 */
module Calendar {
  type Day = int

  predicate IsLeap(y: int) {
    y % 4 == 0 && (y % 100 != 0 || y % 400 == 0)
  }

  function YearDays(y: int): (n: nat)
    ensures n == 365 || n == 366
  {
    if IsLeap(y) then 366 else 365
  }

  /** The first of January. */
  function YearStart(y: int): Day
    decreases if y < 1 then 1 - y else y - 1
  {
    if y == 1 then 0
    else if y > 1 then YearStart(y - 1) + YearDays(y - 1)
    else YearStart(y + 1) - YearDays(y)
  }

  lemma YearLength(y: int)
    ensures YearStart(y + 1) == YearStart(y) + YearDays(y)
  {
  }

  /** Adding up year lengths agrees with the usual closed form. */
  lemma {:induction false} YearStartClosedForm(y: int)
    ensures YearStart(y) == 365 * (y - 1) + (y - 1) / 4 - (y - 1) / 100 + (y - 1) / 400
    decreases if y < 1 then 1 - y else y - 1
  {
    if y > 1 {
      YearStartClosedForm(y - 1);
      LeapDays(y - 1);
    } else if y < 1 {
      YearStartClosedForm(y + 1);
      LeapDays(y);
    }
  }

  lemma Fourths(y: int)
    ensures y / 4 - (y - 1) / 4 == if y % 4 == 0 then 1 else 0
  {
  }

  lemma Hundredths(y: int)
    ensures y / 100 - (y - 1) / 100 == if y % 100 == 0 then 1 else 0
  {
  }

  lemma FourHundredths(y: int)
    ensures y / 400 - (y - 1) / 400 == if y % 400 == 0 then 1 else 0
    ensures y % 400 == 0 ==> y % 100 == 0
    ensures y % 100 == 0 ==> y % 4 == 0
  {
  }

  lemma LeapDays(y: int)
    ensures (y / 4 - y / 100 + y / 400) - ((y - 1) / 4 - (y - 1) / 100 + (y - 1) / 400) == YearDays(y) - 365
  {
    Fourths(y);
    Hundredths(y);
    FourHundredths(y);
  }

  lemma {:induction false} YearsInOrder(y: int, z: int)
    requires y < z
    ensures YearStart(y) + 365 <= YearStart(z)
    decreases z - y
  {
    YearLength(z - 1);
    if y < z - 1 {
      YearsInOrder(y, z - 1);
    }
  }

  function YearOf(d: Day): (y: int)
    ensures YearStart(y) <= d < YearStart(y + 1)
  {
    YearFrom(d / 365 + 1, d)
  }

  function YearFrom(y: int, d: Day): (r: int)
    ensures YearStart(r) <= d < YearStart(r + 1)
    decreases if d < YearStart(y) then YearStart(y) - d else if d >= YearStart(y + 1) then d - YearStart(y + 1) + 1 else 0
  {
    YearLength(y);
    YearLength(y - 1);
    YearLength(y + 1);
    if d < YearStart(y) then YearFrom(y - 1, d)
    else if d >= YearStart(y + 1) then YearFrom(y + 1, d)
    else y
  }

  lemma YearIsUnique(d: Day, y: int)
    requires YearStart(y) <= d < YearStart(y + 1)
    ensures YearOf(d) == y
  {
    if YearOf(d) < y {
      if YearOf(d) + 1 < y { YearsInOrder(YearOf(d) + 1, y); }
    } else if y < YearOf(d) {
      if y + 1 < YearOf(d) { YearsInOrder(y + 1, YearOf(d)); }
    }
  }

  // --- Months ---------------------------------------------------------------------

  type Month = m: int | 1 <= m <= 12 witness 1

  function MonthLength(y: int, m: Month): (n: nat)
    ensures 28 <= n <= 31
  {
    if m == 2 then (if IsLeap(y) then 29 else 28)
    else if m == 4 || m == 6 || m == 9 || m == 11 then 30 else 31
  }

  function DaysBefore(y: int, m: Month): nat {
    if m == 1 then 0 else DaysBefore(y, m - 1) + MonthLength(y, m - 1)
  }

  function MonthStart(y: int, m: Month): Day {
    YearStart(y) + DaysBefore(y, m)
  }

  /** The first day of the following month. */
  function MonthEnd(y: int, m: Month): Day {
    MonthStart(y, m) + MonthLength(y, m)
  }

  lemma TwelveMonths(y: int)
    ensures MonthEnd(y, 12) == YearStart(y + 1)
  {
    YearLength(y);
    var february := MonthLength(y, 2);
    assert DaysBefore(y, 2) == 31;
    assert DaysBefore(y, 3) == 31 + february;
    assert DaysBefore(y, 5) == DaysBefore(y, 4) + 30 == february + 92;
    assert DaysBefore(y, 7) == DaysBefore(y, 6) + 30 == february + 153;
    assert DaysBefore(y, 9) == DaysBefore(y, 8) + 31 == february + 215;
    assert DaysBefore(y, 11) == DaysBefore(y, 10) + 31 == february + 276;
    assert DaysBefore(y, 12) == february + 306;
  }

  lemma {:induction false} MonthsInOrder(y: int, m: Month, n: Month)
    requires m < n
    ensures MonthEnd(y, m) <= MonthStart(y, n)
    decreases n
  {
    if m < n - 1 {
      MonthsInOrder(y, m, n - 1);
    }
  }

  /** The month after a month. */
  function NextMonth(y: int, m: Month): (int, Month) {
    if m == 12 then (y + 1, 1) else (y, m + 1)
  }

  lemma NextMonthStarts(y: int, m: Month)
    ensures MonthEnd(y, m) == MonthStart(NextMonth(y, m).0, NextMonth(y, m).1)
  {
    if m == 12 {
      TwelveMonths(y);
    } else {
      assert DaysBefore(y, m + 1) == DaysBefore(y, m) + MonthLength(y, m);
    }
  }

  function MonthFrom(y: int, m: Month, d: Day): (r: Month)
    requires MonthStart(y, m) <= d < YearStart(y + 1)
    ensures MonthStart(y, r) <= d < MonthEnd(y, r)
    decreases 12 - m
  {
    NextMonthStarts(y, m);
    if d < MonthEnd(y, m) then m else MonthFrom(y, m + 1, d)
  }

  function MonthOf(d: Day): (m: Month)
    ensures MonthStart(YearOf(d), m) <= d < MonthEnd(YearOf(d), m)
  {
    MonthFrom(YearOf(d), 1, d)
  }

  function DayOfMonth(d: Day): (n: int)
    ensures 1 <= n <= 31
  {
    d - MonthStart(YearOf(d), MonthOf(d)) + 1
  }

  /** A day has one year and one month. */
  lemma MonthIsUnique(d: Day, y: int, m: Month)
    requires MonthStart(y, m) <= d < MonthEnd(y, m)
    ensures YearOf(d) == y && MonthOf(d) == m
  {
    TwelveMonths(y);
    if m < 12 {
      MonthsInOrder(y, m, 12);
    }
    YearIsUnique(d, y);
    var n := MonthOf(d);
    if n < m {
      MonthsInOrder(y, n, m);
    } else if m < n {
      MonthsInOrder(y, m, n);
    }
  }

  lemma MonthBegins(y: int, m: Month)
    ensures DayOfMonth(MonthStart(y, m)) == 1
    ensures YearOf(MonthStart(y, m)) == y && MonthOf(MonthStart(y, m)) == m
  {
    MonthIsUnique(MonthStart(y, m), y, m);
  }

  /** A day is the first of its month exactly when the month of the day before ends there. */
  lemma FirstOfMonth(d: Day)
    ensures DayOfMonth(d) == 1 <==> MonthEnd(YearOf(d - 1), MonthOf(d - 1)) == d
  {
    var y, m := YearOf(d - 1), MonthOf(d - 1);
    if MonthEnd(y, m) == d {
      NextMonthStarts(y, m);
      MonthBegins(NextMonth(y, m).0, NextMonth(y, m).1);
    } else {
      MonthIsUnique(d, y, m);
    }
  }

  // --- Weeks ------------------------------------------------------------------------

  /** Go's numbering: Sunday is 0. */
  function Weekday(d: Day): int {
    (d + 1) % 7
  }

  /** mondayOfWeek */
  function MondayOf(d: Day): (monday: Day)
    ensures monday <= d < monday + 7 && monday % 7 == 0 && Weekday(monday) == 1
  {
    var wd := if Weekday(d) == 0 then 7 else Weekday(d);
    d - (wd - 1)
  }

  lemma MondayTest(d: Day)
    ensures Weekday(d) == 1 <==> d % 7 == 0
  {
  }

  lemma MondayIsUnique(d: Day, monday: Day)
    requires monday <= d < monday + 7 && monday % 7 == 0
    ensures MondayOf(d) == monday
  {
  }

  /** The year and number of a day's ISO week: those of its Thursday. */
  function ISOYear(d: Day): int {
    YearOf(MondayOf(d) + 3)
  }

  function ISOWeek(d: Day): (w: int)
    ensures 1 <= w <= 53
  {
    YearLength(ISOYear(d));
    (MondayOf(d) + 3 - YearStart(ISOYear(d))) / 7 + 1
  }

  /** The Monday of week 1: 4 January is always in it, and so is the year's first Thursday. */
  function FirstMonday(y: int): (monday: Day)
    ensures monday % 7 == 0 && YearStart(y) <= monday + 3 < YearStart(y) + 7
  {
    MondayOf(MonthStart(y, 1) + 3)
  }

  /** isoWeekStart */
  function ISOWeekStart(y: int, w: int): Day {
    FirstMonday(y) + (w - 1) * 7
  }

  /** How many weeks an ISO year has. */
  function WeeksIn(y: int): int {
    (FirstMonday(y + 1) - FirstMonday(y)) / 7
  }

  /** Counting weeks from the first day of the year is counting them from its first Monday. */
  lemma WholeWeeks(start: Day, first: Day, monday: Day)
    requires first % 7 == monday % 7 == 0
    requires start <= first + 3 < start + 7 && start <= monday + 3
    ensures first + (monday + 3 - start) / 7 * 7 == monday
  {
    var j, k := first / 7, monday / 7;
    assert first == 7 * j && monday == 7 * k;
    assert monday + 3 - start == 7 * (k - j) + (first + 3 - start);
    assert (monday + 3 - start) / 7 == k - j;
  }

  /** Two years' first Mondays are 52 or 53 weeks apart. */
  lemma WeekCount(start: Day, days: int, first: Day, next: Day)
    requires first % 7 == next % 7 == 0 && (days == 365 || days == 366)
    requires start <= first + 3 < start + 7 && start + days <= next + 3 < start + days + 7
    ensures next == first + (next - first) / 7 * 7
    ensures (next - first) / 7 == 52 || (next - first) / 7 == 53
  {
    var j, k := first / 7, next / 7;
    assert first == 7 * j && next == 7 * k;
    assert (next - first) / 7 == k - j;
  }

  lemma AddWeeks(monday: Day, k: int)
    requires monday % 7 == 0
    ensures (monday + k * 7) % 7 == 0
  {
  }

  /** isoWeekStart undoes ISOWeek: it gives back the Monday of the day's week. */
  lemma WeekStartInverts(d: Day)
    ensures ISOWeekStart(ISOYear(d), ISOWeek(d)) == MondayOf(d)
  {
    WholeWeeks(YearStart(ISOYear(d)), FirstMonday(ISOYear(d)), MondayOf(d));
  }

  lemma WeeksInYear(y: int)
    ensures FirstMonday(y + 1) == FirstMonday(y) + WeeksIn(y) * 7
    ensures WeeksIn(y) == 52 || WeeksIn(y) == 53
  {
    YearLength(y);
    WeekCount(YearStart(y), YearDays(y), FirstMonday(y), FirstMonday(y + 1));
  }

  lemma WeekOfMonday(y: int, monday: Day)
    requires monday % 7 == 0
    ensures ISOYear(monday) == YearOf(monday + 3)
    ensures ISOYear(monday) == y ==> FirstMonday(y) + (ISOWeek(monday) - 1) * 7 == monday
  {
    MondayIsUnique(monday, monday);
    WeekStartInverts(monday);
  }

  /** The Mondays whose weeks belong to a year. */
  lemma WeeksOfYear(y: int, monday: Day)
    requires monday % 7 == 0
    ensures ISOYear(monday) == y <==> FirstMonday(y) <= monday < FirstMonday(y + 1)
  {
    WeekOfMonday(y, monday);
    NoMondayBetween(YearStart(y), FirstMonday(y), monday);
    NoMondayBetween(YearStart(y + 1), FirstMonday(y + 1), monday);
    if YearStart(y) <= monday + 3 < YearStart(y + 1) {
      YearIsUnique(monday + 3, y);
    }
  }

  /** A Monday's Thursday is in or after a year exactly when the Monday is the year's first one or later. */
  lemma NoMondayBetween(start: Day, first: Day, monday: Day)
    requires first % 7 == monday % 7 == 0 && start <= first + 3 < start + 7
    ensures start <= monday + 3 <==> first <= monday
  {
  }

  /** And ISOWeek undoes isoWeekStart, for every week the year has and no other. */
  lemma WeekOfWeekStart(y: int, w: int)
    ensures (ISOYear(ISOWeekStart(y, w)) == y && ISOWeek(ISOWeekStart(y, w)) == w) <==> 1 <= w <= WeeksIn(y)
  {
    var s := ISOWeekStart(y, w);
    AddWeeks(FirstMonday(y), w - 1);
    WeeksInYear(y);
    WeeksOfYear(y, s);
    WeekOfMonday(y, s);
  }
}
