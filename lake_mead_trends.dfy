/** Trend analysis of Lake Mead's monthly elevation series: the
    month-over-month and year-over-year changes, the declining run that
    ends at the latest month, the longest declining run, the alerts and the
    last-twelve-months summary. The series is given as month-end levels in
    date order; a month without readings has no elevation (pandas' NaN),
    and any difference involving it is undefined. */
module LakeMeadTrends {
  import opened Common

  type MonthOfYear = m: int | 1 <= m <= 12 witness 1

  datatype Month = Month(year: int, month: MonthOfYear)

  /** One row of the monthly series: its month-end date and its elevation
      in feet. */
  datatype MonthlyLevel = MonthlyLevel(when: Month, elevation: Option<real>)

  // ---------------------------------------------------------------------
  // Differences

  /** `a - b`, undefined when either side is. */
  function Sub(a: Option<real>, b: Option<real>): (r: Option<real>)
    ensures r.Some? <==> a.Some? && b.Some?
  {
    if a.Some? && b.Some? then Some(a.value - b.value) else None
  }

  /** `series.diff()`: no difference for the first month, then each
      month's change from the month before. */
  function Diffs(levels: seq<MonthlyLevel>): (d: seq<Option<real>>)
    ensures |d| == |levels|
    ensures |d| > 0 ==> d[0].None?
    ensures forall k :: 0 < k < |d| ==> d[k] == Sub(levels[k].elevation, levels[k - 1].elevation)
  {
    seq(|levels|, k requires 0 <= k < |levels| =>
      if k == 0 then None else Sub(levels[k].elevation, levels[k - 1].elevation))
  }

  /** A month counts as declining when its difference is defined and
      negative; NaN compares false. */
  predicate IsDecline(d: Option<real>) {
    d.Some? && d.value < 0.0
  }

  predicate IsRise(d: Option<real>) {
    d.Some? && d.value > 0.0
  }

  datatype Trend = Declining | Rising | Stable

  /** The status printed for a change: undefined changes read as stable. */
  function StatusOf(change: Option<real>): (t: Trend)
    ensures t == Declining <==> IsDecline(change)
    ensures t == Rising <==> IsRise(change)
  {
    if IsDecline(change) then Declining else if IsRise(change) then Rising else Stable
  }

  // ---------------------------------------------------------------------
  // Declining runs

  function Max(a: nat, b: nat): nat {
    if a >= b then a else b
  }

  /** The number of declining months at the start of `d`. */
  function LeadingRun(d: seq<Option<real>>): nat
    decreases |d|
  {
    if d == [] || !IsDecline(d[0]) then 0 else 1 + LeadingRun(d[1..])
  }

  /** The length of the longest run of consecutive declining months. */
  function LongestRun(d: seq<Option<real>>): nat
    decreases |d|
  {
    if d == [] then 0 else Max(LeadingRun(d), LongestRun(d[1..]))
  }

  predicate AllDeclining(d: seq<Option<real>>, i: int, j: int)
    requires 0 <= i <= j <= |d|
  {
    forall k :: i <= k < j ==> IsDecline(d[k])
  }

  /** `len` declining months start at `i`. */
  predicate DecliningRunAt(d: seq<Option<real>>, i: int, len: nat) {
    0 <= i && i + len <= |d| && AllDeclining(d, i, i + len)
  }

  /** The leading run is a declining stretch that cannot be extended. */
  lemma {:induction false} LeadingRunMaximal(d: seq<Option<real>>)
    ensures LeadingRun(d) <= |d|
    ensures AllDeclining(d, 0, LeadingRun(d))
    ensures LeadingRun(d) < |d| ==> !IsDecline(d[LeadingRun(d)])
    decreases |d|
  {
    if d != [] && IsDecline(d[0]) {
      LeadingRunMaximal(d[1..]);
    }
  }

  /** Every declining stretch at the start lies within the leading run. */
  lemma {:induction false} LeadingRunCovers(d: seq<Option<real>>, j: nat)
    requires j <= |d| && AllDeclining(d, 0, j)
    ensures j <= LeadingRun(d)
    decreases j
  {
    if j > 0 {
      LeadingRunCovers(d[1..], j - 1);
    }
  }

  /** `LongestRun` is the longest run: some stretch of that length is all
      declining, and no all-declining stretch is longer. */
  lemma {:induction false} LongestRunIsLongest(d: seq<Option<real>>)
    ensures LongestRun(d) <= |d|
    ensures exists i :: DecliningRunAt(d, i, LongestRun(d))
    ensures forall i, j :: 0 <= i <= j <= |d| && AllDeclining(d, i, j) ==> j - i <= LongestRun(d)
    decreases |d|
  {
    if d == [] {
      assert DecliningRunAt(d, 0, 0);
    } else {
      var rest := d[1..];
      LongestRunIsLongest(rest);
      LeadingRunMaximal(d);
      if LeadingRun(d) >= LongestRun(rest) {
        assert DecliningRunAt(d, 0, LongestRun(d));
      } else {
        var i :| DecliningRunAt(rest, i, LongestRun(rest));
        assert DecliningRunAt(d, i + 1, LongestRun(d)) by {
          forall k | i + 1 <= k < i + 1 + LongestRun(d)
            ensures IsDecline(d[k])
          {
            assert d[k] == rest[k - 1];
          }
        }
      }
      forall i, j | 0 <= i <= j <= |d| && AllDeclining(d, i, j)
        ensures j - i <= LongestRun(d)
      {
        if i == 0 {
          LeadingRunCovers(d, j);
        } else {
          assert AllDeclining(rest, i - 1, j - 1) by {
            forall k | i - 1 <= k < j - 1
              ensures IsDecline(rest[k])
            {
              assert rest[k] == d[k + 1];
            }
          }
        }
      }
    }
  }

  /** The first loop of `analyze_trends`: walk the differences from the
      latest month back to the first, counting the current declining run
      and keeping the longest run seen; the run still open at the first
      month is counted at the end. */
  method LongestDecliningStreak(d: seq<Option<real>>) returns (maxStreak: nat)
    ensures maxStreak == LongestRun(d)
  {
    var streak: nat := 0;
    maxStreak := 0;
    var i := |d|;
    while i > 0
      invariant 0 <= i <= |d|
      invariant streak == LeadingRun(d[i..])
      invariant Max(maxStreak, streak) == LongestRun(d[i..])
      decreases i
    {
      i := i - 1;
      assert d[i..][1..] == d[i + 1..];
      if IsDecline(d[i]) {
        streak := streak + 1;
      } else {
        if streak > maxStreak {
          maxStreak := streak;
        }
        streak := 0;
      }
    }
    assert d[0..] == d;
    if streak > maxStreak {
      maxStreak := streak;
    }
  }

  /** The second loop of `analyze_trends`: the number of declining months
      that end at the latest month, stopping at the first that is not. */
  method CurrentDecliningStreak(d: seq<Option<real>>) returns (current: nat)
    ensures current <= |d|
    ensures AllDeclining(d, |d| - current, |d|)
    ensures current < |d| ==> !IsDecline(d[|d| - 1 - current])
  {
    current := 0;
    var i := |d|;
    while i > 0
      invariant 0 <= i <= |d|
      invariant current == |d| - i
      invariant AllDeclining(d, i, |d|)
      decreases i
    {
      if !IsDecline(d[i - 1]) {
        break;
      }
      current := current + 1;
      i := i - 1;
    }
  }

  /** The current run is one of the runs, so it never exceeds the longest. */
  lemma CurrentAtMostLongest(d: seq<Option<real>>, current: nat)
    requires current <= |d| && AllDeclining(d, |d| - current, |d|)
    ensures current <= LongestRun(d)
  {
    LongestRunIsLongest(d);
  }

  /** The first month has no difference, so it never counts as declining:
      a run covers at most the months after the first. */
  lemma FirstMonthNeverDeclines(levels: seq<MonthlyLevel>)
    requires |levels| > 0
    ensures !IsDecline(Diffs(levels)[0])
    ensures LongestRun(Diffs(levels)) <= |levels| - 1
  {
    var d := Diffs(levels);
    LongestRunIsLongest(d[1..]);
  }

  // ---------------------------------------------------------------------
  // Last twelve months

  function CountDeclines(d: seq<Option<real>>): nat
    decreases |d|
  {
    if d == [] then 0 else (if IsDecline(d[0]) then 1 else 0) + CountDeclines(d[1..])
  }

  function CountRises(d: seq<Option<real>>): nat
    decreases |d|
  {
    if d == [] then 0 else (if IsRise(d[0]) then 1 else 0) + CountRises(d[1..])
  }

  /** No month is both declining and rising. */
  lemma {:induction false} CountsBounded(d: seq<Option<real>>)
    ensures CountDeclines(d) + CountRises(d) <= |d|
    decreases |d|
  {
    if d != [] {
      CountsBounded(d[1..]);
    }
  }

  datatype Last12Summary = Last12Summary(declining: nat, rising: nat, netChange: Option<real>)

  /** The summary of the last twelve months, only when there are twelve:
      the differences are taken within those months, so the first of them
      has none. */
  function Last12(levels: seq<MonthlyLevel>): (r: Option<Last12Summary>)
    ensures r.Some? <==> |levels| >= 12
  {
    if |levels| < 12 then None
    else
      var last := levels[|levels| - 12..];
      var d := Diffs(last);
      Some(Last12Summary(CountDeclines(d), CountRises(d), Sub(last[11].elevation, last[0].elevation)))
  }

  /** At most eleven of the twelve months can count as declining or rising. */
  lemma Last12Bounded(levels: seq<MonthlyLevel>)
    requires |levels| >= 12
    ensures Last12(levels).value.declining + Last12(levels).value.rising <= 11
  {
    var d := Diffs(levels[|levels| - 12..]);
    CountsBounded(d[1..]);
  }

  // ---------------------------------------------------------------------
  // Year over year

  function IsLeap(year: int): bool {
    year % 4 == 0 && (year % 100 != 0 || year % 400 == 0)
  }

  function DaysInMonth(year: int, month: MonthOfYear): (days: int)
    ensures 28 <= days <= 31
  {
    if month == 2 then (if IsLeap(year) then 29 else 28)
    else if month == 4 || month == 6 || month == 9 || month == 11 then 30
    else 31
  }

  datatype Date = Date(year: int, month: MonthOfYear, day: int)

  /** The month-end timestamp of the series' index. */
  function MonthEnd(m: Month): Date {
    Date(m.year, m.month, DaysInMonth(m.year, m.month))
  }

  /** `date - pd.DateOffset(years=1)`: the same day of the same month a
      year earlier, clipped to that month's length. */
  function MinusYear(d: Date): Date {
    var days := DaysInMonth(d.year - 1, d.month);
    Date(d.year - 1, d.month, if d.day <= days then d.day else days)
  }

  predicate DateLe(a: Date, b: Date) {
    a.year < b.year || (a.year == b.year && (a.month < b.month || (a.month == b.month && a.day <= b.day)))
  }

  /** The index of the last level whose month satisfies `p`. */
  function LastMatch(levels: seq<MonthlyLevel>, p: Month -> bool): (r: Option<nat>)
    ensures r.Some? ==> r.value < |levels| && p(levels[r.value].when)
    ensures r.Some? ==> forall k :: r.value < k < |levels| ==> !p(levels[k].when)
    ensures r.None? ==> forall k :: 0 <= k < |levels| ==> !p(levels[k].when)
    decreases |levels|
  {
    if levels == [] then None
    else if p(levels[|levels| - 1].when) then Some(|levels| - 1)
    else LastMatch(levels[..|levels| - 1], p)
  }

  /** The lookup as written: the last month whose month-end date is on or
      before the current month-end date minus one year. */
  function YearAgoAsWritten(levels: seq<MonthlyLevel>, current: Month): Option<nat> {
    LastMatch(levels, m => DateLe(MonthEnd(m), MinusYear(MonthEnd(current))))
  }

  /** A month's position on a single scale. */
  function MonthIndex(m: Month): int {
    m.year * 12 + m.month
  }

  /** The lookup as intended: the last month no later than the same month
      of the previous year. */
  function YearAgo(levels: seq<MonthlyLevel>, current: Month): Option<nat> {
    LastMatch(levels, m => MonthIndex(m) <= MonthIndex(current) - 12)
  }

  predicate Chronological(levels: seq<MonthlyLevel>) {
    forall j, k :: 0 <= j < k < |levels| ==> MonthIndex(levels[j].when) < MonthIndex(levels[k].when)
  }

  /** In a chronological series that holds the same month of the previous
      year, that month is the one compared with; with no month that old,
      there is no comparison. */
  lemma YearAgoFindsSameMonth(levels: seq<MonthlyLevel>, current: Month, j: nat)
    requires Chronological(levels)
    requires j < |levels| && levels[j].when == Month(current.year - 1, current.month)
    ensures YearAgo(levels, current) == Some(j)
  {
    assert MonthIndex(levels[j].when) <= MonthIndex(current) - 12;
    assert forall k :: j < k < |levels| ==> MonthIndex(levels[k].when) > MonthIndex(current) - 12;
  }

  /** For February after a leap year the month-end of the previous
      February (the 29th) falls after "a year before" the current
      month-end (the 28th), so the lookup as written skips that month and
      compares with January. */
  lemma YearAgoAsWrittenSkipsLeapFebruary()
    ensures var levels := [MonthlyLevel(Month(2024, 1), None), MonthlyLevel(Month(2024, 2), None),
                           MonthlyLevel(Month(2025, 2), None)];
      YearAgoAsWritten(levels, Month(2025, 2)) == Some(0) && YearAgo(levels, Month(2025, 2)) == Some(1)
  {
    var levels := [MonthlyLevel(Month(2024, 1), None), MonthlyLevel(Month(2024, 2), None),
                   MonthlyLevel(Month(2025, 2), None)];
    assert MinusYear(MonthEnd(Month(2025, 2))) == Date(2024, 2, 28);
    assert MonthEnd(Month(2024, 2)) == Date(2024, 2, 29);
    assert levels[..2][..1] == [levels[0]];
  }

  /** Outside that case the two lookups agree: the month-end of the same
      month a year back is on or before the current month-end minus a
      year exactly when the month is not a leap February followed by a
      common one. */
  lemma YearAgoAsWrittenAgrees(current: Month, m: Month)
    requires !(current.month == 2 && IsLeap(current.year - 1))
    ensures DateLe(MonthEnd(m), MinusYear(MonthEnd(current))) <==> MonthIndex(m) <= MonthIndex(current) - 12
  {
  }

  // ---------------------------------------------------------------------
  // The analysis

  datatype YearOverYear = YearOverYear(yearAgo: MonthlyLevel, change: Option<real>, status: Trend)

  /** The alert about the run ending at the latest month. */
  datatype CurrentAlert =
    | Warning(months: nat, start: Month, totalDecline: Option<real>)   // three months or more
    | Notice(months: nat)                                              // one or two months
    | NoCurrentDecline

  datatype TrendReport = TrendReport(
    current: MonthlyLevel,
    momChange: Option<real>,
    momStatus: Trend,
    yoy: Option<YearOverYear>,
    currentDeclining: nat,
    longestDeclining: nat,
    alert: CurrentAlert,
    historicalNote: bool,
    last12: Option<Last12Summary>)

  /** The alert for a current run of `current` months ending at the last
      level: the warning names the month the decline started and the drop
      since then. */
  function AlertFor(levels: seq<MonthlyLevel>, current: nat): (a: CurrentAlert)
    requires current <= |levels| && |levels| > 0
    ensures a.Warning? <==> current >= 3
    ensures a.Notice? <==> 1 <= current <= 2
    ensures a.NoCurrentDecline? <==> current == 0
    ensures a.Warning? ==> a.months == current && a.start == levels[|levels| - current].when
  {
    if current >= 3 then
      var start := levels[|levels| - current];
      Warning(current, start.when, Sub(start.elevation, levels[|levels| - 1].elevation))
    else if current > 0 then Notice(current)
    else NoCurrentDecline
  }

  /** The comparison of the latest level with the level at index `j`. */
  function YearOverYearAt(levels: seq<MonthlyLevel>, j: Option<nat>): (r: Option<YearOverYear>)
    requires |levels| > 0 && (j.Some? ==> j.value < |levels|)
    ensures r.Some? <==> j.Some?
    ensures r.Some? ==> r.value.yearAgo == levels[j.value]
    ensures r.Some? ==> r.value.change == Sub(levels[|levels| - 1].elevation, levels[j.value].elevation)
    ensures r.Some? ==> r.value.status == StatusOf(r.value.change)
  {
    if j.None? then None
    else
      var change := Sub(levels[|levels| - 1].elevation, levels[j.value].elevation);
      Some(YearOverYear(levels[j.value], change, StatusOf(change)))
  }

  /** The year-over-year comparison as the code makes it: with the last
      month whose month-end is on or before the latest month-end minus a
      year, when there is one. */
  function YearOverYearOf(levels: seq<MonthlyLevel>): (r: Option<YearOverYear>)
    requires |levels| > 0
    ensures var current := levels[|levels| - 1].when;
      r.Some? <==> exists k :: 0 <= k < |levels| && DateLe(MonthEnd(levels[k].when), MinusYear(MonthEnd(current)))
    ensures r.Some? ==> var current := levels[|levels| - 1].when;
      DateLe(MonthEnd(r.value.yearAgo.when), MinusYear(MonthEnd(current)))
  {
    YearOverYearAt(levels, YearAgoAsWritten(levels, levels[|levels| - 1].when))
  }

  /** The comparison as evidently intended: with the same month of the
      previous year, or the last month before it. */
  function YearOverYearIntended(levels: seq<MonthlyLevel>): (r: Option<YearOverYear>)
    requires |levels| > 0
    ensures var current := levels[|levels| - 1].when;
      r.Some? <==> exists k :: 0 <= k < |levels| && MonthIndex(levels[k].when) <= MonthIndex(current) - 12
    ensures r.Some? ==> MonthIndex(r.value.yearAgo.when) <= MonthIndex(levels[|levels| - 1].when) - 12
  {
    YearOverYearAt(levels, YearAgo(levels, levels[|levels| - 1].when))
  }

  /** Two month tests that agree on every level pick the same last match. */
  lemma {:induction false} LastMatchAgrees(levels: seq<MonthlyLevel>, p: Month -> bool, q: Month -> bool)
    requires forall k :: 0 <= k < |levels| ==> (p(levels[k].when) <==> q(levels[k].when))
    ensures LastMatch(levels, p) == LastMatch(levels, q)
    decreases |levels|
  {
    if levels != [] && !p(levels[|levels| - 1].when) {
      var init := levels[..|levels| - 1];
      assert forall k :: 0 <= k < |init| ==> init[k] == levels[k];
      LastMatchAgrees(init, p, q);
    }
  }

  /** Unless the latest month is a February after a leap year, the
      comparison as written is the one intended. */
  lemma YearOverYearAsIntended(levels: seq<MonthlyLevel>)
    requires |levels| > 0
    requires var current := levels[|levels| - 1].when; !(current.month == 2 && IsLeap(current.year - 1))
    ensures YearOverYearOf(levels) == YearOverYearIntended(levels)
  {
    var current := levels[|levels| - 1].when;
    var p := m => DateLe(MonthEnd(m), MinusYear(MonthEnd(current)));
    var q := m => MonthIndex(m) <= MonthIndex(current) - 12;
    forall k | 0 <= k < |levels|
      ensures p(levels[k].when) <==> q(levels[k].when)
    {
      YearAgoAsWrittenAgrees(current, levels[k].when);
    }
    LastMatchAgrees(levels, p, q);
  }

  /** What `analyze_trends` reports for a monthly series; nothing with
      fewer than two months. */
  function TrendReportOf(levels: seq<MonthlyLevel>): Option<TrendReport> {
    if |levels| < 2 then None
    else
      var n := |levels|;
      var d := Diffs(levels);
      var mom := Sub(levels[n - 1].elevation, levels[n - 2].elevation);
      var current := LeadingRun(Reverse(d));
      LeadingRunMaximal(Reverse(d));
      Some(TrendReport(levels[n - 1], mom, StatusOf(mom), YearOverYearOf(levels), current, LongestRun(d),
                       AlertFor(levels, current), LongestRun(d) >= 3, Last12(levels)))
  }

  function Reverse(d: seq<Option<real>>): (r: seq<Option<real>>)
    ensures |r| == |d|
    ensures forall k :: 0 <= k < |d| ==> r[k] == d[|d| - 1 - k]
  {
    seq(|d|, k requires 0 <= k < |d| => d[|d| - 1 - k])
  }

  /** The trailing run counted backwards is the leading run of the
      reversed differences. */
  lemma TrailingRunIsLeadingOfReverse(d: seq<Option<real>>, current: nat)
    requires current <= |d| && AllDeclining(d, |d| - current, |d|)
    requires current < |d| ==> !IsDecline(d[|d| - 1 - current])
    ensures LeadingRun(Reverse(d)) == current
  {
    var r := Reverse(d);
    LeadingRunOfMaximal(r, current);
  }

  /** A declining stretch at the start that cannot be extended is the
      leading run. */
  lemma {:induction false} LeadingRunOfMaximal(d: seq<Option<real>>, n: nat)
    requires n <= |d| && AllDeclining(d, 0, n)
    requires n < |d| ==> !IsDecline(d[n])
    ensures LeadingRun(d) == n
    decreases n
  {
    if n > 0 {
      LeadingRunOfMaximal(d[1..], n - 1);
    }
  }

  /** `analyze_trends` over the monthly series. */
  method AnalyzeTrends(levels: seq<MonthlyLevel>) returns (report: Option<TrendReport>)
    ensures report == TrendReportOf(levels)
    ensures report.Some? <==> |levels| >= 2
    ensures report.Some? ==> report.value.currentDeclining <= report.value.longestDeclining < |levels|
    ensures report.Some? ==> (report.value.alert.Warning? <==> report.value.currentDeclining >= 3)
    ensures report.Some? ==> (report.value.historicalNote <==> report.value.longestDeclining >= 3)
  {
    if |levels| < 2 {
      return None;
    }
    var n := |levels|;
    var current := levels[n - 1];
    var previous := levels[n - 2];
    var mom := Sub(current.elevation, previous.elevation);
    var yoy := YearOverYearOf(levels);
    var d := Diffs(levels);
    var maxStreak := LongestDecliningStreak(d);
    var currentDeclining := CurrentDecliningStreak(d);
    TrailingRunIsLeadingOfReverse(d, currentDeclining);
    CurrentAtMostLongest(d, currentDeclining);
    FirstMonthNeverDeclines(levels);
    var alert := AlertFor(levels, currentDeclining);
    report := Some(TrendReport(current, mom, StatusOf(mom), yoy, currentDeclining, maxStreak, alert,
                               maxStreak >= 3, Last12(levels)));
  }
}
