/**
  The text of a summary's period: printed by cmd/hupi-consolidate/rollup.go, read
  back by parsePeriodRange (internal/store/temporal.go) and periodAsOfDate
  (internal/consolidation/period.go).
 */
module PeriodLabels {
  import opened Basics
  import opened Calendar
  import opened RollupCalendar
  import opened Decimals
  import SummaryChains

  // --- Printing --------------------------------------------------------------------

  function Label(p: Period): string {
    match p
    case DayP(d) => DateLabel(YearOf(d), MonthOf(d), DayOfMonth(d))
    case WeekP(y, w) => SprintfInt(y, 4) + "-W" + SprintfInt(w, 2)
    case MonthP(y, m) => FormatInt(y, 4) + "-" + Padded(m, 2)
    case YearP(y) => SprintfInt(y, 4)
  }

  function DateLabel(y: int, m: nat, n: nat): string {
    FormatInt(y, 4) + "-" + Padded(m, 2) + "-" + Padded(n, 2)
  }

  /** How yearlyRollup spells the months it covers. */
  function SourceMonthLabel(y: int, m: Month): string {
    SprintfInt(y, 4) + "-" + Padded(m, 2)
  }

  // --- Reading -----------------------------------------------------------------------

  function ParseYear(s: string): Option<int> {
    if |s| == 4 && AllDigits(s) then Some(Value(s)) else None
  }

  predicate MonthShape(s: string) {
    |s| == 7 && AllDigits(s[..4]) && s[4] == '-' && AllDigits(s[5..7])
  }

  function ParseMonth(s: string): Option<(int, Month)> {
    if MonthShape(s) && 1 <= Value(s[5..7]) <= 12 then Some((Value(s[..4]), Value(s[5..7]))) else None
  }

  predicate DateShape(s: string) {
    |s| == 10 && AllDigits(s[..4]) && s[4] == '-' && AllDigits(s[5..7]) && s[7] == '-' && AllDigits(s[8..10])
  }

  function ParseDate(s: string): Option<Day> {
    if DateShape(s) && 1 <= Value(s[5..7]) <= 12
       && 1 <= Value(s[8..10]) <= MonthLength(Value(s[..4]), Value(s[5..7]))
    then Some(MonthStart(Value(s[..4]), Value(s[5..7])) + Value(s[8..10]) - 1)
    else None
  }

  /** Sscanf "%d-W%d": what comes after the second number is not looked at. */
  function ScanWeek(s: string): Option<(int, int)> {
    match ScanInt(s)
    case None => None
    case Some((y, rest)) =>
      if |rest| < 2 || rest[..2] != "-W" then None
      else
        match ScanInt(rest[2..])
        case None => None
        case Some((w, _)) => Some((y, w))
  }

  predicate WeekShape(s: string) {
    |s| == 8 && s[4] == '-' && s[5] == 'W'
  }

  /** The half-open range of days a period stands for. */
  function ParsePeriodRange(s: string): Option<(Day, Day)> {
    if ParseDate(s).Some? then Some((ParseDate(s).value, ParseDate(s).value + 1))
    else if ParseMonth(s).Some? then
      var (y, m) := ParseMonth(s).value;
      Some((MonthStart(y, m), MonthEnd(y, m)))
    else if WeekShape(s) && ScanWeek(s).Some? then
      var (y, w) := ScanWeek(s).value;
      Some((ISOWeekStart(y, w), ISOWeekStart(y, w) + 7))
    else if ParseYear(s).Some? then Some((YearStart(ParseYear(s).value), YearStart(ParseYear(s).value + 1)))
    else None
  }

  function PeriodAsOfDate(level: SummaryChains.Level, s: string): Option<Day> {
    match level
    case Daily => ParseDate(s)
    case Weekly =>
      (match ScanWeek(s)
       case None => None
       case Some((y, w)) => Some(ISOWeekStart(y, w) + 6))
    case Monthly =>
      (match ParseMonth(s)
       case None => None
       case Some((y, m)) => Some(MonthEnd(y, m) - 1))
    case Yearly =>
      (match ParseYear(s)
       case None => None
       case Some(y) => Some(YearStart(y + 1) - 1))
  }

  // --- Strings made of two or three parts ------------------------------------------------

  lemma ThreeParts(a: string, b: string, c: string)
    requires |a| == 4 && |b| == 2 && |c| == 2 && AllDigits(a) && AllDigits(b) && AllDigits(c)
    ensures var s := a + "-" + b + "-" + c;
            DateShape(s) && s[..4] == a && s[5..7] == b && s[8..10] == c
  {
    var s := a + "-" + b + "-" + c;
    assert s[..4] == a && s[5..7] == b && s[8..10] == c;
  }

  lemma TwoParts(a: string, b: string)
    requires |a| == 4 && |b| == 2 && AllDigits(a) && AllDigits(b)
    ensures var s := a + "-" + b;
            MonthShape(s) && s[..4] == a && s[5..7] == b
  {
    var s := a + "-" + b;
    assert s[..4] == a && s[5..7] == b;
  }

  /** Every format either ends after four characters or goes on with a dash. */
  lemma HeadRejected(head: string, s: string)
    requires |head| > 4 && IsDigit(head[4]) && head <= s
    ensures ParsePeriodRange(s) == None
  {
    assert s[4] == head[4];
  }

  lemma FormatHead(x: int)
    ensures 0 <= x <= 9999 ==> |FormatInt(x, 4)| == 4 && AllDigits(FormatInt(x, 4)) && Value(FormatInt(x, 4)) == x
    ensures !(0 <= x <= 9999) ==> |FormatInt(x, 4)| > 4 && IsDigit(FormatInt(x, 4)[4])
  {
    assert Power10(4) == 10000;
    if x >= 0 {
      PaddedValue(x, 4);
      PaddedLength(x, 4);
    }
  }

  lemma SprintfHead(x: int)
    ensures 0 <= x <= 9999 ==> |SprintfInt(x, 4)| == 4 && AllDigits(SprintfInt(x, 4)) && Value(SprintfInt(x, 4)) == x
    ensures -999 <= x < 0 ==> |SprintfInt(x, 4)| == 4 && SprintfInt(x, 4) == "-" + Padded(-x, 3) && Value(Padded(-x, 3)) == -x
    ensures !(-999 <= x <= 9999) ==> |SprintfInt(x, 4)| > 4 && IsDigit(SprintfInt(x, 4)[4])
  {
    assert Power10(4) == 10000 && Power10(3) == 1000;
    if x >= 0 {
      PaddedValue(x, 4);
      PaddedLength(x, 4);
    } else {
      PaddedValue(-x, 3);
      PaddedLength(-x, 3);
    }
  }

  lemma TwoDigits(n: nat)
    requires n <= 99
    ensures |Padded(n, 2)| == 2 && Value(Padded(n, 2)) == n
  {
    assert Power10(2) == 100;
    PaddedValue(n, 2);
    PaddedLength(n, 2);
  }

  // --- Round trips --------------------------------------------------------------------------

  lemma DateLabelParses(y: int, m: Month, n: nat)
    requires 0 <= y <= 9999 && 1 <= n <= MonthLength(y, m)
    ensures |DateLabel(y, m, n)| == 10 && ParseDate(DateLabel(y, m, n)) == Some(MonthStart(y, m) + n - 1)
  {
    FormatHead(y);
    TwoDigits(m);
    TwoDigits(n);
    ThreeParts(FormatInt(y, 4), Padded(m, 2), Padded(n, 2));
  }

  lemma DateLabelRejected(y: int, m: nat, n: nat)
    requires !(0 <= y <= 9999)
    ensures ParsePeriodRange(DateLabel(y, m, n)) == None
  {
    FormatHead(y);
    HeadRejected(FormatInt(y, 4), DateLabel(y, m, n));
  }

  /** A day's label is read back as that day exactly for the years 0 to 9999. */
  lemma DayLabelRoundTripsIff(d: Day)
    ensures ParsePeriodRange(Label(DayP(d))) == Some((d, d + 1)) <==> 0 <= YearOf(d) <= 9999
    ensures 0 <= YearOf(d) <= 9999 ==> |Label(DayP(d))| == 10 && ParseDate(Label(DayP(d))) == Some(d)
  {
    var y, m, n := YearOf(d), MonthOf(d), DayOfMonth(d);
    if 0 <= y <= 9999 {
      DateLabelParses(y, m, n);
    } else {
      DateLabelRejected(y, m, n);
    }
  }

  lemma MonthLabelRoundTripsIff(y: int, m: Month)
    ensures ParsePeriodRange(Label(MonthP(y, m))) == Some((MonthStart(y, m), MonthEnd(y, m))) <==> 0 <= y <= 9999
    ensures 0 <= y <= 9999 ==> |Label(MonthP(y, m))| == 7 && ParseMonth(Label(MonthP(y, m))) == Some((y, m))
  {
    FormatHead(y);
    TwoDigits(m);
    if 0 <= y <= 9999 {
      TwoParts(FormatInt(y, 4), Padded(m, 2));
    } else {
      HeadRejected(FormatInt(y, 4), Label(MonthP(y, m)));
    }
  }

  lemma YearLabelRoundTripsIff(y: int)
    ensures ParsePeriodRange(Label(YearP(y))) == Some((YearStart(y), YearStart(y + 1))) <==> 0 <= y <= 9999
    ensures 0 <= y <= 9999 ==> |Label(YearP(y))| == 4 && ParseYear(Label(YearP(y))) == Some(y)
  {
    SprintfHead(y);
    var s := SprintfInt(y, 4);
    if !(-999 <= y <= 9999) {
      HeadRejected(s, s);
    } else if y < 0 {
      assert s[0] == '-';
    }
  }

  /** The first number of a weekly label is its year, sign and all. */
  lemma YearScans(y: int, rest: string)
    requires rest != "" && !IsDigit(rest[0]) && Is64Bit(y)
    ensures ScanInt(SprintfInt(y, 4) + rest) == Some((y, rest))
  {
    if y >= 0 {
      PaddedValue(y, 4);
      ScanDigits(Padded(y, 4), rest);
    } else {
      PaddedValue(-y, 3);
      ScanMinusDigits(Padded(-y, 3), rest);
      assert SprintfInt(y, 4) + rest == "-" + (Padded(-y, 3) + rest);
    }
  }

  lemma WeekLabelScans(y: int, w: nat)
    requires 1 <= w <= 99 && Is64Bit(y)
    ensures ScanWeek(SprintfInt(y, 4) + ("-W" + Padded(w, 2))) == Some((y, w))
  {
    var tail := Padded(w, 2);
    var rest := "-W" + tail;
    YearScans(y, rest);
    assert rest[..2] == "-W" && rest[2..] == tail;
    PaddedValue(w, 2);
    ScanDigits(tail, "");
    assert tail + "" == tail;
  }

  lemma WeekLabelParts(y: int, w: nat)
    ensures Label(WeekP(y, w)) == SprintfInt(y, 4) + ("-W" + Padded(w, 2))
  {
  }

  lemma WeekLabelRejected(y: int, w: nat)
    requires !(-999 <= y <= 9999)
    ensures ParsePeriodRange(Label(WeekP(y, w))) == None
  {
    SprintfHead(y);
    WeekLabelParts(y, w);
    HeadRejected(SprintfInt(y, 4), Label(WeekP(y, w)));
  }

  lemma WeekLabelShape(y: int, w: nat)
    requires 1 <= w <= 99 && -999 <= y <= 9999
    ensures WeekShape(Label(WeekP(y, w)))
  {
    SprintfHead(y);
    TwoDigits(w);
    var head, rest := SprintfInt(y, 4), "-W" + Padded(w, 2);
    WeekLabelParts(y, w);
    assert (head + rest)[4] == rest[0] && (head + rest)[5] == rest[1];
  }

  lemma WeekShapeParses(s: string, y: int, w: int)
    requires WeekShape(s) && ScanWeek(s) == Some((y, w))
    ensures |s| == 8 && ParsePeriodRange(s) == Some((ISOWeekStart(y, w), ISOWeekStart(y, w) + 7))
  {
  }

  /** A week's label is read back even with a sign in front of the year, as long as that fits in four characters. */
  lemma WeekLabelRoundTripsIff(y: int, w: nat)
    requires 1 <= w <= 53
    ensures ParsePeriodRange(Label(WeekP(y, w))) == Some((ISOWeekStart(y, w), ISOWeekStart(y, w) + 7)) <==> -999 <= y <= 9999
    ensures -999 <= y <= 9999 ==> |Label(WeekP(y, w))| == 8
  {
    if -999 <= y <= 9999 {
      WeekLabelShape(y, w);
      WeekLabelParts(y, w);
      WeekLabelScans(y, w);
      WeekShapeParses(Label(WeekP(y, w)), y, w);
    } else {
      WeekLabelRejected(y, w);
    }
  }

  /** Day, month and year formats read their own labels and no other text. */
  lemma OnlyLabelsAreRead(s: string)
    ensures forall d :: ParseDate(s) == Some(d) ==> s == Label(DayP(d)) && 0 <= YearOf(d) <= 9999
    ensures forall y, m :: ParseMonth(s) == Some((y, m)) ==> s == Label(MonthP(y, m)) && 0 <= y <= 9999
    ensures forall y :: ParseYear(s) == Some(y) ==> s == Label(YearP(y)) && 0 <= y <= 9999
  {
    assert Power10(4) == 10000;
    if ParseDate(s).Some? {
      DateIsItsLabel(s);
    }
    if ParseMonth(s).Some? {
      PaddedOfValue(s[..4]);
      PaddedOfValue(s[5..7]);
      ValueBound(s[..4]);
      assert s == s[..4] + "-" + s[5..7];
    }
    if ParseYear(s).Some? {
      PaddedOfValue(s);
      ValueBound(s);
    }
  }

  lemma DateIsItsLabel(s: string)
    requires ParseDate(s).Some?
    ensures s == Label(DayP(ParseDate(s).value)) && 0 <= YearOf(ParseDate(s).value) <= 9999
  {
    var y, m, n := Value(s[..4]), Value(s[5..7]), Value(s[8..10]);
    PaddedOfValue(s[..4]);
    PaddedOfValue(s[5..7]);
    PaddedOfValue(s[8..10]);
    ValueBound(s[..4]);
    assert Power10(4) == 10000;
    assert s == s[..4] + "-" + s[5..7] + "-" + s[8..10];
    NextMonthStarts(y, m);
    MonthIsUnique(ParseDate(s).value, y, m);
  }

  // --- What the labels mean ---------------------------------------------------------------

  lemma WeekLabelStartingAt(y: int, w: nat, start: Day)
    requires 1 <= w <= 53 && -999 <= y <= 9999 && ISOWeekStart(y, w) == start
    ensures ParsePeriodRange(Label(WeekP(y, w))) == Some((start, start + 7))
  {
    WeekLabelRoundTripsIff(y, w);
  }

  /** The label of a day's week is read back as the week from its Monday on. */
  lemma WeekLabelRange(d: Day, y: int, w: nat)
    requires y == ISOYear(d) && w == ISOWeek(d) && -999 <= y <= 9999
    ensures ParsePeriodRange(Label(WeekP(y, w))) == Some((MondayOf(d), MondayOf(d) + 7))
  {
    WeekStartInverts(d);
    WeekLabelStartingAt(y, w, MondayOf(d));
  }

  lemma JobParts(date: Day, job: Job)
    requires WeeklyJob(date) == Some(job)
    ensures job.period == WeekP(ISOYear(date - 1), ISOWeek(date - 1)) && job.sources == DaysBetween(date - 7, date)
    ensures MondayOf(date - 1) == date - 7
  {
    MondayTest(date);
    MondayIsUnique(date - 1, date - 7);
  }

  /** The range read from a weekly rollup's label is exactly its seven source days. */
  lemma WeeklyLabelCoversItsDays(date: Day, job: Job)
    requires WeeklyJob(date) == Some(job) && -999 <= ISOYear(date - 1) <= 9999
    ensures ParsePeriodRange(Label(job.period)) == Some((date - 7, date))
    ensures forall d :: DayP(d) in job.sources <==> date - 7 <= d < date
  {
    JobParts(date, job);
    WeekLabelRange(date - 1, job.period.year, job.period.week);
    DaysAre(date - 7, date);
  }

  lemma DaysAre(from: Day, to: Day)
    ensures forall d :: DayP(d) in DaysBetween(from, to) <==> from <= d < to
  {
    forall d ensures DayP(d) in DaysBetween(from, to) <==> from <= d < to {
      DaysCounted(from, to, d);
    }
  }

  /** No text is read by two of the four formats. */
  lemma FormatsNeverOverlap(s: string)
    ensures ParseDate(s).Some? ==> !ParseMonth(s).Some? && !WeekShape(s) && !ParseYear(s).Some?
    ensures ParseMonth(s).Some? ==> !WeekShape(s) && !ParseYear(s).Some?
    ensures WeekShape(s) ==> !ParseYear(s).Some?
  {
  }

  /**
    Whatever text a level's as-of date accepts, it is the last day of the range
    the other parser reads from it; for weeks, whose scanner also takes texts of
    other shapes, exactly when the text has the shape of a weekly label.
   */
  lemma AsOfDateIsLastDay(level: SummaryChains.Level, s: string)
    requires PeriodAsOfDate(level, s).Some?
    ensures level != SummaryChains.Weekly || WeekShape(s) ==>
              ParsePeriodRange(s).Some? && ParsePeriodRange(s).value.1 == PeriodAsOfDate(level, s).value + 1
    ensures level == SummaryChains.Weekly && !WeekShape(s) ==> ParsePeriodRange(s) == None
  {
    FormatsNeverOverlap(s);
    if level == SummaryChains.Weekly && !WeekShape(s) {
      ScannedWeekIsNoDate(s);
    }
  }

  /** A text that scans as a week is no date, month or year. */
  lemma ScannedWeekIsNoDate(s: string)
    requires ScanWeek(s).Some?
    ensures !ParseDate(s).Some? && !ParseMonth(s).Some? && !ParseYear(s).Some?
  {
    if |s| >= 4 && AllDigits(s[..4]) {
      FourDigitsThenW(s);
    }
  }

  lemma FourDigitsThenW(s: string)
    requires ScanWeek(s).Some? && |s| >= 4 && AllDigits(s[..4])
    ensures |s| > 5 && (s[4] == '-' ==> s[5] == 'W') && (s[4] != '-' ==> IsDigit(s[4]))
  {
    AheadAtLeast(s, 4);
    var n := DigitsAhead(s);
    assert s[0] == s[..4][0];
    var rest := s[n..];
    assert ScanInt(s).value.1 == rest;
    assert rest[..2] == "-W" && rest[..2][0] == rest[0] && rest[..2][1] == rest[1];
    assert rest[0] == s[n] && rest[1] == s[n + 1];
    if n > 4 {
      assert s[4] == s[..n][4];
    }
  }

  lemma {:induction false} AheadAtLeast(s: string, k: nat)
    requires k <= |s| && AllDigits(s[..k])
    ensures DigitsAhead(s) >= k
  {
    if k > 0 {
      assert s[0] == s[..k][0];
      assert s[1..][..k - 1] == s[..k][1..];
      AheadAtLeast(s[1..], k - 1);
    }
  }

  lemma LongerHeadDiffers(a: string, b: string, rest: string)
    ensures a + "-" + rest == b + "-" + rest ==> |a| == |b|
  {
    assert |a + "-" + rest| == |a| + 1 + |rest| && |b + "-" + rest| == |b| + 1 + |rest|;
  }

  /** The months a yearly rollup asks for are spelled as monthly rollups spell themselves, but for the years -999 to -1. */
  lemma MonthSpellingsAgreeIff(y: int, m: Month)
    ensures SourceMonthLabel(y, m) == Label(MonthP(y, m)) <==> y >= 0 || y <= -1000
  {
    if y < 0 {
      assert Power10(3) == 1000;
      PaddedLength(-y, 3);
      LongerHeadDiffers(SprintfInt(y, 4), FormatInt(y, 4), Padded(m, 2));
      assert |Padded(-y, 3)| > 3 ==> Padded(-y, 3) == Padded(-y, 4);
    }
  }
}
