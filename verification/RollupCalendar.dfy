/**
  cmd/hupi-consolidate/rollup.go: which rollups are due on a date, and that no
  day, week or month is ever rolled up twice or left out.
 */
module RollupCalendar {
  import opened Basics
  import opened Calendar

  datatype Period = DayP(day: Day) | WeekP(year: int, week: int) | MonthP(year: int, month: Month) | YearP(year: int)

  datatype Job = Job(period: Period, sources: seq<Period>)

  function WeekOf(d: Day): Period {
    WeekP(ISOYear(d), ISOWeek(d))
  }

  // --- What is due on a date ------------------------------------------------------

  function DaysBetween(from: Day, to: Day): seq<Period>
    decreases if from < to then to - from else 0
  {
    if to <= from then [] else DaysBetween(from, to - 1) + [DayP(to - 1)]
  }

  function WeeklyJob(date: Day): Option<Job> {
    if Weekday(date) != 1 then None
    else Some(Job(WeekOf(date - 1), DaysBetween(date - 7, date)))
  }

  /** What the Mondays among these days are called. */
  function MondaysBetween(from: Day, to: Day, name: Day -> Period): seq<Period>
    decreases if from < to then to - from else 0
  {
    if to <= from then []
    else MondaysBetween(from, to - 1, name) + if Weekday(to - 1) == 1 then [name(to - 1)] else []
  }

  function MonthlyJob(date: Day): Option<Job> {
    if DayOfMonth(date) != 1 then None
    else
      var y, m := YearOf(date - 1), MonthOf(date - 1);
      Some(Job(MonthP(y, m), MondaysBetween(MonthStart(y, m), date, WeekOf)))
  }

  function MonthsUpTo(y: int, n: nat): seq<Period>
    requires n <= 12
  {
    if n == 0 then [] else MonthsUpTo(y, n - 1) + [MonthP(y, n)]
  }

  function YearlyJob(date: Day): Option<Job> {
    if MonthOf(date) != 1 || DayOfMonth(date) != 1 then None
    else Some(Job(YearP(YearOf(date) - 1), MonthsUpTo(YearOf(date) - 1, 12)))
  }

  method WeeklyRollup(date: Day) returns (job: Option<Job>)
    ensures job == WeeklyJob(date)
  {
    if Weekday(date) != 1 {
      return None;
    }
    var lastDay := date - 1;
    var sources := CollectDays(date - 7, lastDay);
    job := Some(Job(WeekOf(lastDay), sources));
  }

  /** WeeklyRollup's loop. */
  method CollectDays(firstDay: Day, lastDay: Day) returns (sources: seq<Period>)
    requires firstDay <= lastDay
    ensures sources == DaysBetween(firstDay, lastDay + 1)
  {
    sources := [];
    var d := firstDay;
    while d <= lastDay
      invariant firstDay <= d <= lastDay + 1
      invariant sources == DaysBetween(firstDay, d)
    {
      sources := sources + [DayP(d)];
      d := d + 1;
    }
  }

  method MonthlyRollup(date: Day) returns (job: Option<Job>)
    ensures job == MonthlyJob(date)
  {
    if DayOfMonth(date) != 1 {
      return None;
    }
    var monthEnd := date - 1;
    var monthStart := MonthStart(YearOf(monthEnd), MonthOf(monthEnd));
    var sources := CollectMondays(monthStart, monthEnd);
    MonthBegins(YearOf(monthEnd), MonthOf(monthEnd));
    job := Some(Job(MonthP(YearOf(monthStart), MonthOf(monthStart)), sources));
  }

  /** MonthlyRollup's loop. */
  method CollectMondays(monthStart: Day, monthEnd: Day) returns (sources: seq<Period>)
    requires monthStart <= monthEnd
    ensures sources == MondaysBetween(monthStart, monthEnd + 1, WeekOf)
  {
    sources := [];
    var d := monthStart;
    while d <= monthEnd
      invariant monthStart <= d <= monthEnd + 1
      invariant sources == MondaysBetween(monthStart, d, WeekOf)
    {
      if Weekday(d) == 1 {
        sources := sources + [WeekOf(d)];
      }
      d := d + 1;
    }
  }

  method YearlyRollup(date: Day) returns (job: Option<Job>)
    ensures job == YearlyJob(date)
  {
    if MonthOf(date) != 1 || DayOfMonth(date) != 1 {
      return None;
    }
    var sources := CollectMonths(YearOf(date) - 1);
    job := Some(Job(YearP(YearOf(date) - 1), sources));
  }

  /** YearlyRollup's loop. */
  method CollectMonths(prevYear: int) returns (sources: seq<Period>)
    ensures sources == MonthsUpTo(prevYear, 12)
  {
    sources := [];
    for m := 1 to 13
      invariant sources == MonthsUpTo(prevYear, m - 1)
    {
      sources := sources + [MonthP(prevYear, m)];
    }
  }

  /** Weekly before monthly before yearly. */
  function Rank(p: Period): nat {
    match p
    case DayP(_) => 0
    case WeekP(_, _) => 1
    case MonthP(_, _) => 2
    case YearP(_) => 3
  }

  /** The jobs there are of three, in the order of their levels. */
  ghost predicate Runs(weekly: Option<Job>, monthly: Option<Job>, yearly: Option<Job>, jobs: seq<Job>) {
    && (forall job :: job in jobs <==> weekly == Some(job) || monthly == Some(job) || yearly == Some(job))
    && forall i, j :: 0 <= i < j < |jobs| ==> Rank(jobs[i].period) < Rank(jobs[j].period)
  }

  /** These are the jobs of the date, one of a level at most, in the order in which they run. */
  ghost predicate AllDue(date: Day, jobs: seq<Job>) {
    Runs(WeeklyJob(date), MonthlyJob(date), YearlyJob(date), jobs)
  }

  lemma RanksOf(date: Day)
    ensures WeeklyJob(date).Some? ==> Rank(WeeklyJob(date).value.period) == 1
    ensures MonthlyJob(date).Some? ==> Rank(MonthlyJob(date).value.period) == 2
    ensures YearlyJob(date).Some? ==> Rank(YearlyJob(date).value.period) == 3
  {
  }

  /** The jobs of a date run in this order. */
  method DueRollups(date: Day) returns (jobs: seq<Job>)
    ensures AllDue(date, jobs)
  {
    var weekly := WeeklyRollup(date);
    var monthly := MonthlyRollup(date);
    var yearly := YearlyRollup(date);
    RanksOf(date);
    jobs := Collect(weekly, monthly, yearly);
  }

  method Collect(weekly: Option<Job>, monthly: Option<Job>, yearly: Option<Job>) returns (jobs: seq<Job>)
    requires weekly.Some? ==> Rank(weekly.value.period) == 1
    requires monthly.Some? ==> Rank(monthly.value.period) == 2
    requires yearly.Some? ==> Rank(yearly.value.period) == 3
    ensures Runs(weekly, monthly, yearly, jobs)
  {
    jobs := [];
    if weekly.Some? {
      jobs := jobs + [weekly.value];
    }
    if monthly.Some? {
      jobs := jobs + [monthly.value];
    }
    if yearly.Some? {
      jobs := jobs + [yearly.value];
    }
  }

  // --- Nothing twice, nothing left out -----------------------------------------------

  /** How often the job due on a date, if one is, has the period among its sources. */
  function Times(job: Option<Job>, p: Period): nat {
    if job.Some? then multiset(job.value.sources)[p] else 0
  }

  lemma {:induction false} DaysCounted(from: Day, to: Day, d: Day)
    ensures multiset(DaysBetween(from, to))[DayP(d)] == (if from <= d < to then 1 else 0)
    decreases if from < to then to - from else 0
  {
    if from < to {
      DaysCounted(from, to - 1, d);
    }
  }

  lemma WeekBefore(d: Day, date: Day)
    ensures Weekday(date) == 1 && date - 7 <= d < date <==> date == MondayOf(d) + 7
  {
    if Weekday(date) == 1 && date - 7 <= d < date {
      MondayIsUnique(d, date - 7);
    }
  }

  lemma SameWeek(d: Day, e: Day)
    requires MondayOf(d) == MondayOf(e)
    ensures WeekOf(d) == WeekOf(e)
  {
  }

  /** Every day is a source of one weekly rollup: that of its own ISO week, due the Monday after. */
  lemma DayRolledUpOnce(d: Day, date: Day)
    ensures Times(WeeklyJob(date), DayP(d)) == (if date == MondayOf(d) + 7 then 1 else 0)
  {
    DaysCounted(date - 7, date, d);
    WeekBefore(d, date);
  }

  /** That rollup is due, and named for the day's ISO week. */
  lemma WeeklyJobOf(d: Day)
    ensures WeeklyJob(MondayOf(d) + 7).Some? && WeeklyJob(MondayOf(d) + 7).value.period == WeekOf(d)
  {
    WeekBefore(d, MondayOf(d) + 7);
    MondayIsUnique(MondayOf(d) + 6, MondayOf(d));
    SameWeek(MondayOf(d) + 6, d);
  }

  /** Mondays of different weeks are different weeks. */
  lemma WeeksDiffer(a: Day, b: Day)
    requires a % 7 == b % 7 == 0
    ensures WeekOf(a) == WeekOf(b) <==> a == b
  {
    MondayIsUnique(a, a);
    MondayIsUnique(b, b);
    WeekStartInverts(a);
    WeekStartInverts(b);
  }

  lemma {:induction false} MondaysCounted(from: Day, to: Day, monday: Day, name: Day -> Period)
    requires Weekday(monday) == 1
    requires forall a: Day :: Weekday(a) == 1 ==> (name(a) == name(monday) <==> a == monday)
    ensures multiset(MondaysBetween(from, to, name))[name(monday)] == (if from <= monday < to then 1 else 0)
    decreases if from < to then to - from else 0
  {
    if from < to {
      MondaysCounted(from, to - 1, monday, name);
      var rest := MondaysBetween(from, to - 1, name);
      assert MondaysBetween(from, to, name) == if Weekday(to - 1) == 1 then rest + [name(to - 1)] else rest;
    }
  }

  lemma WeeksCounted(from: Day, to: Day, monday: Day)
    requires monday % 7 == 0
    ensures multiset(MondaysBetween(from, to, WeekOf))[WeekOf(monday)] == (if from <= monday < to then 1 else 0)
  {
    MondayTest(monday);
    forall a: Day | Weekday(a) == 1 ensures WeekOf(a) == WeekOf(monday) <==> a == monday {
      MondayTest(a);
      WeeksDiffer(a, monday);
    }
    MondaysCounted(from, to, monday, WeekOf);
  }

  lemma MonthlyTimes(date: Day, monday: Day)
    requires monday % 7 == 0
    ensures Times(MonthlyJob(date), WeekOf(monday))
            == if DayOfMonth(date) == 1 && MonthStart(YearOf(date - 1), MonthOf(date - 1)) <= monday && monday < date then 1 else 0
  {
    WeeksCounted(MonthStart(YearOf(date - 1), MonthOf(date - 1)), date, monday);
  }

  lemma MonthBefore(d: Day, date: Day)
    ensures DayOfMonth(date) == 1 && MonthStart(YearOf(date - 1), MonthOf(date - 1)) <= d && d < date
            <==> date == MonthEnd(YearOf(d), MonthOf(d))
    ensures date == MonthEnd(YearOf(d), MonthOf(d)) ==> YearOf(date - 1) == YearOf(d) && MonthOf(date - 1) == MonthOf(d)
  {
    FirstOfMonth(date);
    var y, m := YearOf(d), MonthOf(d);
    if date == MonthEnd(y, m) {
      MonthIsUnique(date - 1, y, m);
    } else if DayOfMonth(date) == 1 && MonthStart(YearOf(date - 1), MonthOf(date - 1)) <= d && d < date {
      MonthIsUnique(d, YearOf(date - 1), MonthOf(date - 1));
    }
  }

  /** Every ISO week is a source of one monthly rollup: that of its Monday's month, due when the month is over. */
  lemma WeekRolledUpOnce(monday: Day, date: Day)
    requires monday % 7 == 0
    ensures Times(MonthlyJob(date), WeekOf(monday))
            == if date == MonthEnd(YearOf(monday), MonthOf(monday)) then 1 else 0
  {
    MonthlyTimes(date, monday);
    MonthBefore(monday, date);
  }

  lemma MonthlyPeriod(date: Day, y: int, m: Month)
    requires DayOfMonth(date) == 1 && YearOf(date - 1) == y && MonthOf(date - 1) == m
    ensures MonthlyJob(date).Some? && MonthlyJob(date).value.period == MonthP(y, m)
  {
  }

  /** And named for the month of the week's Monday, or of any day. */
  lemma MonthlyJobOf(d: Day, due: Day)
    requires due == MonthEnd(YearOf(d), MonthOf(d))
    ensures MonthlyJob(due).Some? && MonthlyJob(due).value.period == MonthP(YearOf(d), MonthOf(d))
  {
    MonthBefore(d, due);
    assert DayOfMonth(due) == 1 && YearOf(due - 1) == YearOf(d) && MonthOf(due - 1) == MonthOf(d);
    MonthlyPeriod(due, YearOf(d), MonthOf(d));
  }

  lemma {:induction false} MonthsCounted(y: int, n: nat, y': int, m: Month)
    requires n <= 12
    ensures multiset(MonthsUpTo(y, n))[MonthP(y', m)] == (if y == y' && m <= n then 1 else 0)
  {
    if n > 0 {
      MonthsCounted(y, n - 1, y', m);
    }
  }

  lemma FirstOfJanuary(date: Day)
    ensures MonthOf(date) == 1 && DayOfMonth(date) == 1 <==> date == YearStart(YearOf(date))
  {
    if date == YearStart(YearOf(date)) {
      MonthBegins(YearOf(date), 1);
    }
  }

  lemma YearBefore(y: int, date: Day)
    ensures MonthOf(date) == 1 && DayOfMonth(date) == 1 && YearOf(date) - 1 == y <==> date == YearStart(y + 1)
  {
    FirstOfJanuary(date);
    if date == YearStart(y + 1) {
      YearLength(y + 1);
      YearIsUnique(date, y + 1);
    }
  }

  /** Every month is a source of one yearly rollup: that of its year, due on the next first of January. */
  lemma MonthRolledUpOnce(y: int, m: Month, date: Day)
    ensures Times(YearlyJob(date), MonthP(y, m)) == if date == YearStart(y + 1) then 1 else 0
  {
    YearBefore(y, date);
    MonthsCounted(YearOf(date) - 1, 12, y, m);
  }

  /** And named for that year. */
  lemma YearlyJobOf(y: int, due: Day)
    requires due == YearStart(y + 1)
    ensures YearlyJob(due).Some? && YearlyJob(due).value.period == YearP(y)
  {
    YearBefore(y, due);
  }

  // --- The same of the answers as a whole ------------------------------------------------

  /** In the answers of all dates, due says on which date and under which name the period is a source, once. */
  ghost predicate SourceOnce(due: Day -> seq<Job>, p: Period, date: Day, name: Period) {
    && (exists k :: 0 <= k < |due(date)| && due(date)[k].period == name && multiset(due(date)[k].sources)[p] == 1)
    && forall other: Day, k :: 0 <= k < |due(other)| && p in due(other)[k].sources ==>
         other == date && due(other)[k].period == name
  }

  /** Which of the three a job is, by its level. */
  ghost predicate OfLevel(weekly: Option<Job>, monthly: Option<Job>, yearly: Option<Job>, job: Job) {
    match Rank(job.period)
    case 1 => weekly == Some(job)
    case 2 => monthly == Some(job)
    case _ => yearly == Some(job)
  }

  lemma RunsOfLevel(weekly: Option<Job>, monthly: Option<Job>, yearly: Option<Job>, jobs: seq<Job>, k: nat)
    requires Runs(weekly, monthly, yearly, jobs) && k < |jobs|
    requires weekly.Some? ==> Rank(weekly.value.period) == 1
    requires monthly.Some? ==> Rank(monthly.value.period) == 2
    requires yearly.Some? ==> Rank(yearly.value.period) == 3
    ensures OfLevel(weekly, monthly, yearly, jobs[k])
  {
    assert jobs[k] in jobs;
  }

  /** A job of the answer is the job of its level. */
  lemma JobOfLevel(date: Day, jobs: seq<Job>, k: nat)
    requires AllDue(date, jobs) && k < |jobs|
    ensures OfLevel(WeeklyJob(date), MonthlyJob(date), YearlyJob(date), jobs[k])
  {
    RanksOf(date);
    RunsOfLevel(WeeklyJob(date), MonthlyJob(date), YearlyJob(date), jobs, k);
  }

  lemma {:induction false} OnlyDays(from: Day, to: Day)
    ensures forall p :: p in DaysBetween(from, to) ==> p.DayP?
    decreases if from < to then to - from else 0
  {
    if from < to {
      OnlyDays(from, to - 1);
    }
  }

  lemma {:induction false} OnlyWeeks(from: Day, to: Day)
    ensures forall p :: p in MondaysBetween(from, to, WeekOf) ==> p.WeekP?
    decreases if from < to then to - from else 0
  {
    if from < to {
      OnlyWeeks(from, to - 1);
    }
  }

  lemma {:induction false} OnlyMonths(y: int, n: nat)
    requires n <= 12
    ensures forall p :: p in MonthsUpTo(y, n) ==> p.MonthP?
  {
    if n > 0 {
      OnlyMonths(y, n - 1);
    }
  }

  lemma SourceKinds(date: Day, p: Period)
    ensures WeeklyJob(date).Some? && p in WeeklyJob(date).value.sources ==> p.DayP?
    ensures MonthlyJob(date).Some? && p in MonthlyJob(date).value.sources ==> p.WeekP?
    ensures YearlyJob(date).Some? && p in YearlyJob(date).value.sources ==> p.MonthP?
  {
    OnlyDays(date - 7, date);
    OnlyWeeks(MonthStart(YearOf(date - 1), MonthOf(date - 1)), date);
    OnlyMonths(YearOf(date) - 1, 12);
  }

  /** Jobs summarise periods of the level just below. */
  lemma SourcesOfLevel(date: Day, jobs: seq<Job>, k: nat, p: Period)
    requires AllDue(date, jobs) && k < |jobs| && p in jobs[k].sources
    ensures Rank(p) + 1 == Rank(jobs[k].period)
  {
    JobOfLevel(date, jobs, k);
    SourceKinds(date, p);
  }

  /** The job of the date that has the period among its sources is the one of the level above. */
  lemma JobWith(date: Day, jobs: seq<Job>, k: nat, p: Period)
    requires AllDue(date, jobs) && k < |jobs| && p in jobs[k].sources
    ensures match Rank(p)
            case 0 => WeeklyJob(date) == Some(jobs[k])
            case 1 => MonthlyJob(date) == Some(jobs[k])
            case _ => YearlyJob(date) == Some(jobs[k])
  {
    SourcesOfLevel(date, jobs, k, p);
    JobOfLevel(date, jobs, k);
  }

  /** One job with the period once on its date, and none on another, makes it a source once. */
  lemma OnceIsOnce(due: Day -> seq<Job>, p: Period, date: Day, job: Job)
    requires job in due(date) && multiset(job.sources)[p] == 1
    requires forall other: Day, k :: 0 <= k < |due(other)| && p in due(other)[k].sources ==>
               other == date && due(other)[k].period == job.period
    ensures SourceOnce(due, p, date, job.period)
  {
    var k :| 0 <= k < |due(date)| && due(date)[k] == job;
  }

  lemma DayDueOnce(due: Day -> seq<Job>, d: Day)
    requires forall date :: AllDue(date, due(date))
    ensures SourceOnce(due, DayP(d), MondayOf(d) + 7, WeekOf(d))
  {
    var date := MondayOf(d) + 7;
    WeeklyJobOf(d);
    DayRolledUpOnce(d, date);
    forall other: Day, k | 0 <= k < |due(other)| && DayP(d) in due(other)[k].sources
      ensures other == date && due(other)[k].period == WeekOf(d)
    {
      JobWith(other, due(other), k, DayP(d));
      DayRolledUpOnce(d, other);
    }
    assert AllDue(date, due(date));
    OnceIsOnce(due, DayP(d), date, WeeklyJob(date).value);
  }

  lemma WeekDueOnce(due: Day -> seq<Job>, monday: Day)
    requires (forall date :: AllDue(date, due(date))) && monday % 7 == 0
    ensures SourceOnce(due, WeekOf(monday), MonthEnd(YearOf(monday), MonthOf(monday)), MonthP(YearOf(monday), MonthOf(monday)))
  {
    var date := MonthEnd(YearOf(monday), MonthOf(monday));
    MonthlyJobOf(monday, date);
    WeekRolledUpOnce(monday, date);
    forall other: Day, k | 0 <= k < |due(other)| && WeekOf(monday) in due(other)[k].sources
      ensures other == date && due(other)[k].period == MonthP(YearOf(monday), MonthOf(monday))
    {
      JobWith(other, due(other), k, WeekOf(monday));
      WeekRolledUpOnce(monday, other);
    }
    assert AllDue(date, due(date));
    OnceIsOnce(due, WeekOf(monday), date, MonthlyJob(date).value);
  }

  lemma MonthDueOnce(due: Day -> seq<Job>, y: int, m: Month)
    requires forall date :: AllDue(date, due(date))
    ensures SourceOnce(due, MonthP(y, m), YearStart(y + 1), YearP(y))
  {
    var date := YearStart(y + 1);
    YearlyJobOf(y, date);
    MonthRolledUpOnce(y, m, date);
    forall other: Day, k | 0 <= k < |due(other)| && MonthP(y, m) in due(other)[k].sources
      ensures other == date && due(other)[k].period == YearP(y)
    {
      JobWith(other, due(other), k, MonthP(y, m));
      MonthRolledUpOnce(y, m, other);
    }
    assert AllDue(date, due(date));
    OnceIsOnce(due, MonthP(y, m), date, YearlyJob(date).value);
  }

  /**
    Whatever answers DueRollups gives over all dates, every day is a source of
    exactly one job in them and once in it, the weekly one of its ISO week; every
    week of the monthly one of its Monday's month; every month of its year's.
   */
  lemma EverythingDueOnce(due: Day -> seq<Job>)
    requires forall date :: AllDue(date, due(date))
    ensures forall d: Day :: SourceOnce(due, DayP(d), MondayOf(d) + 7, WeekOf(d))
    ensures forall monday: Day :: monday % 7 == 0 ==>
              SourceOnce(due, WeekOf(monday), MonthEnd(YearOf(monday), MonthOf(monday)), MonthP(YearOf(monday), MonthOf(monday)))
    ensures forall y: int, m: Month :: SourceOnce(due, MonthP(y, m), YearStart(y + 1), YearP(y))
  {
    forall d: Day ensures SourceOnce(due, DayP(d), MondayOf(d) + 7, WeekOf(d)) {
      DayDueOnce(due, d);
    }
    forall monday: Day | monday % 7 == 0
      ensures SourceOnce(due, WeekOf(monday), MonthEnd(YearOf(monday), MonthOf(monday)), MonthP(YearOf(monday), MonthOf(monday)))
    {
      WeekDueOnce(due, monday);
    }
    forall y: int, m: Month ensures SourceOnce(due, MonthP(y, m), YearStart(y + 1), YearP(y)) {
      MonthDueOnce(due, y, m);
    }
  }

  // --- In which order -------------------------------------------------------------------

  ghost predicate DaysFrom(from: Day, sources: seq<Period>, n: int) {
    |sources| == n && forall k :: 0 <= k < |sources| ==> sources[k] == DayP(from + k)
  }

  lemma {:induction false} DaysInOrder(from: Day, to: Day)
    requires from <= to
    ensures DaysFrom(from, DaysBetween(from, to), to - from)
    decreases if from < to then to - from else 0
  {
    if from < to {
      DaysInOrder(from, to - 1);
    }
  }

  /** The Mondays among the days, from the first on, are a week apart. */
  ghost predicate MondaysFrom(from: Day, to: Day, first: Day, sources: seq<Period>) {
    && first % 7 == 0 && from <= first < from + 7
    && (sources == [] ==> to <= first)
    && (sources != [] ==> first + 7 * (|sources| - 1) < to <= first + 7 * |sources|)
    && forall k :: 0 <= k < |sources| ==> sources[k] == WeekOf(first + 7 * k)
  }

  ghost predicate MondaysAmong(from: Day, to: Day, sources: seq<Period>) {
    exists first :: MondaysFrom(from, to, first, sources)
  }

  lemma {:induction false} MondaysInOrder(from: Day, to: Day, first: Day)
    requires from <= to && first % 7 == 0 && from <= first < from + 7
    ensures MondaysFrom(from, to, first, MondaysBetween(from, to, WeekOf))
    decreases if from < to then to - from else 0
  {
    if from < to {
      MondaysInOrder(from, to - 1, first);
      NextDayInOrder(from, to - 1, first, MondaysBetween(from, to - 1, WeekOf));
    }
  }

  lemma NextDayInOrder(from: Day, to: Day, first: Day, sources: seq<Period>)
    requires from <= to && MondaysFrom(from, to, first, sources)
    ensures MondaysFrom(from, to + 1, first, sources + if Weekday(to) == 1 then [WeekOf(to)] else [])
  {
    MondayTest(to);
    if to % 7 == 0 {
      SevenApart(first, to, |sources|);
      OneMondayMore(from, to, first, sources);
    } else {
      NotAMonday(first, to, |sources|);
    }
  }

  lemma NotAMonday(first: Day, to: Day, n: nat)
    requires first % 7 == 0 && to % 7 != 0
    ensures to != first + 7 * n
  {
    var a := first / 7;
    assert first + 7 * n == 7 * (a + n);
  }

  lemma OneMondayMore(from: Day, to: Day, first: Day, sources: seq<Period>)
    requires from <= to && MondaysFrom(from, to, first, sources) && to == first + 7 * |sources|
    ensures MondaysFrom(from, to + 1, first, sources + [WeekOf(to)])
  {
    var longer := sources + [WeekOf(to)];
    assert |longer| == |sources| + 1 && first + 7 * (|longer| - 1) == to;
    forall k | 0 <= k < |longer| ensures longer[k] == WeekOf(first + 7 * k) {
      assert k < |sources| ==> longer[k] == sources[k];
    }
  }

  /** The next Monday but for those counted. */
  lemma SevenApart(first: Day, to: Day, n: nat)
    requires first % 7 == 0 && to % 7 == 0 && to > first - 7 && to <= first + 7 * n && (n > 0 ==> first + 7 * (n - 1) < to)
    ensures to == first + 7 * n
  {
    var a, b := first / 7, to / 7;
    assert first == 7 * a && to == 7 * b;
  }

  ghost predicate MonthsFrom(y: int, sources: seq<Period>, n: nat) {
    |sources| == n <= 12 && forall k :: 0 <= k < |sources| ==> sources[k] == MonthP(y, k + 1)
  }

  lemma {:induction false} MonthsInYear(y: int, n: nat)
    requires n <= 12
    ensures MonthsFrom(y, MonthsUpTo(y, n), n)
  {
    if n > 0 {
      MonthsInYear(y, n - 1);
    }
  }

  lemma MonthInOrder(date: Day)
    requires MonthlyJob(date).Some?
    ensures MondaysAmong(MonthStart(YearOf(date - 1), MonthOf(date - 1)), date, MonthlyJob(date).value.sources)
  {
    LongMonths(date);
    MonthHasMondays(MonthStart(YearOf(date - 1), MonthOf(date - 1)), date);
  }

  lemma YearInOrder(date: Day)
    requires YearlyJob(date).Some?
    ensures MonthsFrom(YearOf(date - 1), YearlyJob(date).value.sources, 12)
  {
    MonthsInYear(YearOf(date) - 1, 12);
    DayBeforeYear(date);
  }

  /** A week's seven days, a month's Mondays and a year's twelve months, in order and nothing else. */
  lemma SourcesInOrder(date: Day)
    ensures WeeklyJob(date).Some? ==> DaysFrom(date - 7, WeeklyJob(date).value.sources, 7)
    ensures MonthlyJob(date).Some? ==>
              MondaysAmong(MonthStart(YearOf(date - 1), MonthOf(date - 1)), date, MonthlyJob(date).value.sources)
    ensures YearlyJob(date).Some? ==> MonthsFrom(YearOf(date - 1), YearlyJob(date).value.sources, 12)
  {
    DaysInOrder(date - 7, date);
    if MonthlyJob(date).Some? {
      MonthInOrder(date);
    }
    if YearlyJob(date).Some? {
      YearInOrder(date);
    }
  }

  lemma MonthHasMondays(start: Day, date: Day)
    requires start <= date
    ensures MondaysAmong(start, date, MondaysBetween(start, date, WeekOf))
  {
    var first := start + (7 - start % 7) % 7;
    MondaysInOrder(start, date, first);
  }

  lemma DayBeforeYear(date: Day)
    requires MonthOf(date) == 1 && DayOfMonth(date) == 1
    ensures YearOf(date - 1) == YearOf(date) - 1
  {
    FirstOfJanuary(date);
    LastOfDecember(YearOf(date));
  }

  lemma LastOfDecember(y: int)
    ensures YearOf(YearStart(y) - 1) == y - 1
  {
    YearLength(y - 1);
    YearIsUnique(YearStart(y) - 1, y - 1);
  }

  // --- How late a week can be ------------------------------------------------------------

  lemma LastWeekOfMonth(date: Day, monday: Day)
    requires monday % 7 == 0 && monday < date
    ensures date < monday + 7 <==> monday == MondayOf(date) && monday != date
  {
    if monday + 7 > date {
      MondayIsUnique(date, monday);
    }
  }

  lemma LongMonths(date: Day)
    ensures DayOfMonth(date) == 1 ==> MonthStart(YearOf(date - 1), MonthOf(date - 1)) <= date - 28
  {
    FirstOfMonth(date);
  }

  /** A week among the sources of a monthly rollup whose own rollup, on the Monday after it, is still to come. */
  ghost predicate LateWeek(date: Day, monday: Day) {
    monday % 7 == 0 && Times(MonthlyJob(date), WeekOf(monday)) > 0 && date < monday + 7
  }

  /**
    When a monthly rollup is due, every one of its weeks has been rolled up, or is
    on the very same day and before it, but for one: the week the first of the
    month falls in, unless that is a Monday. Its rollup follows within six days.
   */
  lemma OnlyTheRunningWeekIsLate(date: Day, monday: Day)
    ensures LateWeek(date, monday) <==> DayOfMonth(date) == 1 && monday == MondayOf(date) && monday != date
    ensures LateWeek(date, monday) ==> WeeklyJob(monday + 7).Some? && monday + 7 <= date + 6
  {
    if monday % 7 == 0 {
      MonthlyTimes(date, monday);
      LongMonths(date);
      if monday < date {
        LastWeekOfMonth(date, monday);
      }
    }
  }
}
