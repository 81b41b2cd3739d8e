/**
 * The administrator's report list (src/components/AdminReportList.tsx): the date filter
 * over the fetched reports and the three counters above the list. The current instant
 * arrives as its ISO-8601 rendering (`new Date().toISOString()`), a string.
 */
module AdminReportList {
  import opened Text
  import opened ReportTypes

  /** A fetched report joined with its staff row. */
  datatype ReportWithStaff = ReportWithStaff(report: Report, staff: Staff)

  /** The reports whose date is exactly `date`, in their original order. */
  function DateMatches(reports: seq<ReportWithStaff>, date: string): (r: seq<ReportWithStaff>)
    ensures |r| <= |reports|
    ensures forall x :: x in r <==> x in reports && x.report.date == date
  {
    if reports == [] then []
    else if reports[0].report.date == date then [reports[0]] + DateMatches(reports[1..], date)
    else DateMatches(reports[1..], date)
  }

  /** `filteredReports`: every report while the filter is empty, otherwise those of that date. */
  function FilteredReports(reports: seq<ReportWithStaff>, dateFilter: string): (r: seq<ReportWithStaff>)
    ensures dateFilter == [] ==> r == reports
    ensures dateFilter != [] ==> forall x :: x in r <==> x in reports && x.report.date == dateFilter
  {
    if dateFilter == [] then reports else DateMatches(reports, dateFilter)
  }

  /** Filtering works piecewise, so the kept reports stay in their original relative order. */
  lemma {:induction false} FilterKeepsOrder(xs: seq<ReportWithStaff>, ys: seq<ReportWithStaff>, dateFilter: string)
    ensures FilteredReports(xs + ys, dateFilter) == FilteredReports(xs, dateFilter) + FilteredReports(ys, dateFilter)
  {
    if dateFilter != [] {
      MatchesSplit(xs, ys, dateFilter);
    }
  }

  lemma {:induction false} MatchesSplit(xs: seq<ReportWithStaff>, ys: seq<ReportWithStaff>, date: string)
    ensures DateMatches(xs + ys, date) == DateMatches(xs, date) + DateMatches(ys, date)
  {
    if xs == [] {
      assert xs + ys == ys;
    } else {
      assert (xs + ys)[1..] == xs[1..] + ys;
      MatchesSplit(xs[1..], ys, date);
      if xs[0].report.date == date {
        calc {
          DateMatches(xs + ys, date);
          [xs[0]] + DateMatches(xs[1..] + ys, date);
          [xs[0]] + (DateMatches(xs[1..], date) + DateMatches(ys, date));
          ([xs[0]] + DateMatches(xs[1..], date)) + DateMatches(ys, date);
        }
      }
    }
  }

  /** The reports whose date begins with `prefix`, in their original order. */
  function PrefixMatches(reports: seq<ReportWithStaff>, prefix: string): (r: seq<ReportWithStaff>)
    ensures |r| <= |reports|
    ensures forall x :: x in r <==> x in reports && StartsWith(x.report.date, prefix)
  {
    if reports == [] then []
    else if StartsWith(reports[0].report.date, prefix) then [reports[0]] + PrefixMatches(reports[1..], prefix)
    else PrefixMatches(reports[1..], prefix)
  }

  /** `s.split(c)[0]`: everything before the first `c`, or all of `s` when it has none. */
  function BeforeFirst(s: string, c: char): (r: string)
    ensures StartsWith(s, r)
    ensures forall i :: 0 <= i < |r| ==> r[i] != c
    ensures |r| < |s| ==> s[|r|] == c
  {
    if s == [] then []
    else if s[0] == c then []
    else
      var rest := BeforeFirst(s[1..], c);
      assert forall i :: 1 <= i <= |rest| ==> ([s[0]] + rest)[i] == rest[i - 1];
      [s[0]] + rest
  }

  /** Today's `yyyy-mm-dd` key: the part of the ISO rendering before its `T`. */
  function TodayKey(nowIso: string): (key: string)
    ensures StartsWith(nowIso, key) && forall i :: 0 <= i < |key| ==> key[i] != 'T'
    ensures |key| < |nowIso| ==> nowIso[|key|] == 'T'
  {
    BeforeFirst(nowIso, 'T')
  }

  /** This month's `yyyy-mm` key: the first seven characters of the ISO rendering. */
  function MonthKey(nowIso: string): (key: string)
    ensures StartsWith(nowIso, key) && |key| == if |nowIso| < 7 then |nowIso| else 7
  {
    Prefix(nowIso, 7)
  }

  /** The three counters: reports dated today, reports of this month, all reports. */
  datatype Stats = Stats(today: nat, month: nat, total: nat)

  function Statistics(reports: seq<ReportWithStaff>, nowIso: string): (s: Stats)
    ensures s.today <= s.total && s.month <= s.total && s.total == |reports|
  {
    Stats(|DateMatches(reports, TodayKey(nowIso))|, |PrefixMatches(reports, MonthKey(nowIso))|, |reports|)
  }

  /** The count in the list's header: the number of reports shown. */
  function HeaderCount(reports: seq<ReportWithStaff>, dateFilter: string): (n: nat)
    ensures n <= |reports|
    ensures dateFilter == [] ==> n == |reports|
  {
    |FilteredReports(reports, dateFilter)|
  }

  /** An ISO rendering whose date part is at least as long as the month key (no `T` among its first seven characters). */
  predicate DatePartCoversMonth(nowIso: string) {
    forall i :: 0 <= i < |nowIso| && i < 7 ==> nowIso[i] != 'T'
  }

  /** With a well-formed rendering, a report dated today is also a report of this month. */
  lemma TodayIsInMonth(nowIso: string, date: string)
    requires DatePartCoversMonth(nowIso)
    requires date == TodayKey(nowIso)
    ensures StartsWith(date, MonthKey(nowIso))
  {
    var t := TodayKey(nowIso);
    var m := MonthKey(nowIso);
    assert |m| <= |t|;
    assert t[..|m|] == nowIso[..|m|];
  }

  /** Counting by day never exceeds counting by month. */
  lemma {:induction false} DayCountBelowMonthCount(reports: seq<ReportWithStaff>, nowIso: string)
    requires DatePartCoversMonth(nowIso)
    ensures |DateMatches(reports, TodayKey(nowIso))| <= |PrefixMatches(reports, MonthKey(nowIso))|
  {
    if reports != [] {
      DayCountBelowMonthCount(reports[1..], nowIso);
      if reports[0].report.date == TodayKey(nowIso) {
        TodayIsInMonth(nowIso, reports[0].report.date);
      }
    }
  }

  /** The counters are ordered: today <= month <= total. */
  lemma StatisticsOrdered(reports: seq<ReportWithStaff>, nowIso: string)
    requires DatePartCoversMonth(nowIso)
    ensures var s := Statistics(reports, nowIso); s.today <= s.month <= s.total
  {
    DayCountBelowMonthCount(reports, nowIso);
  }

  /** The counters ignore the filter, while the header follows it: filtering by today shows the today count. */
  lemma HeaderFollowsFilter(reports: seq<ReportWithStaff>, nowIso: string)
    requires TodayKey(nowIso) != []
    ensures HeaderCount(reports, TodayKey(nowIso)) == Statistics(reports, nowIso).today
  {
  }
}
