/** The admin dashboard service: turn the dashboard filter into a date
    range of whole days, then assemble the five headline metrics, the user
    growth chart, the top classes and subjects and the newest signups from
    the dashboard repository. The clock and date parsing are inputs. */
module DashboardService {
  import opened Wrappers
  import opened Seqs
  import opened Schema
  import opened AnalyticsRepository
  import opened Dicts
  import opened DashboardRepository

  /** `DashboardFilter`: optional `from`, `to` and `range`. */
  datatype DashboardFilter = DashboardFilter(from: Option<string>, to: Option<string>, range: Option<string>)

  const WEEK_DAYS := 7
  const MONTH_DAYS := 30
  const RECENT_SIGNUPS := 5
  const TOP_LIMIT := 5
  const UNKNOWN := "Unknown"

  /** `endOfDay(t)`: the last millisecond of the day of `t`. */
  function EndOfDay(t: int): int {
    StartOfDay(t) + DAY_MS - 1
  }

  /** `subDays(t, n)`. */
  function SubDays(t: int, n: int): int {
    t - n * DAY_MS
  }

  /** `parseDateRange(filter)`: today by default; `"7d"` and `"30d"` start
      at midnight seven or thirty days back; otherwise, when both `from`
      and `to` are non-empty, the whole days from `from` to `to`. A date
      that does not parse is `None`: the queries then fail. */
  function ParseDateRange(filter: DashboardFilter, now: int, parseDate: string -> Option<int>): Option<DateRange> {
    if filter.range == Some("7d") then
      Some(DateRange(StartOfDay(SubDays(now, WEEK_DAYS)), EndOfDay(now)))
    else if filter.range == Some("30d") then
      Some(DateRange(StartOfDay(SubDays(now, MONTH_DAYS)), EndOfDay(now)))
    else if Truthy(filter.from) && Truthy(filter.to) then
      match (parseDate(filter.from.value), parseDate(filter.to.value))
      case (Some(f), Some(t)) => Some(DateRange(StartOfDay(f), EndOfDay(t)))
      case _ => None
    else
      Some(DateRange(StartOfDay(now), EndOfDay(now)))
  }

  /** A preset range: today, `"7d"` or `"30d"`. */
  predicate Preset(filter: DashboardFilter) {
    filter.range == Some("7d") || filter.range == Some("30d") || !(Truthy(filter.from) && Truthy(filter.to))
  }

  /** How many days a preset reaches back. */
  function PresetDays(filter: DashboardFilter): nat {
    if filter.range == Some("7d") then WEEK_DAYS
    else if filter.range == Some("30d") then MONTH_DAYS
    else 0
  }

  lemma DayBounds(t: int)
    ensures StartOfDay(t) % DAY_MS == 0 && DayOf(StartOfDay(t)) == DayOf(t)
    ensures DayOf(EndOfDay(t)) == DayOf(t) && EndOfDay(t) % DAY_MS == DAY_MS - 1
    ensures StartOfDay(t) <= t <= EndOfDay(t)
  {
    assert t == DayOf(t) * DAY_MS + t % DAY_MS;
  }

  /** Every range starts at a midnight and ends at the last millisecond of
      a day; it fails exactly when a custom date does not parse. */
  lemma DateRangeShape(filter: DashboardFilter, now: int, parseDate: string -> Option<int>)
    ensures var r := ParseDateRange(filter, now, parseDate);
      (r.None? <==> !Preset(filter) &&
                    (parseDate(filter.from.value).None? || parseDate(filter.to.value).None?)) &&
      (r.Some? ==> r.value.from % DAY_MS == 0 && r.value.to % DAY_MS == DAY_MS - 1)
  {
    var r := ParseDateRange(filter, now, parseDate);
    if r.Some? {
      if Preset(filter) {
        DayBounds(SubDays(now, PresetDays(filter)));
        DayBounds(now);
      } else {
        DayBounds(parseDate(filter.from.value).value);
        DayBounds(parseDate(filter.to.value).value);
      }
    }
  }

  /** A preset covers today and the `PresetDays` days before it, whole,
      and so contains `now`. */
  lemma PresetRange(filter: DashboardFilter, now: int, parseDate: string -> Option<int>)
    requires Preset(filter)
    ensures var r := ParseDateRange(filter, now, parseDate);
      r.Some? && r.value.from <= now <= r.value.to &&
      DayOf(r.value.to) - DayOf(r.value.from) == PresetDays(filter)
  {
    var back := SubDays(now, PresetDays(filter));
    DayBounds(back);
    DayBounds(now);
    assert DayOf(back) == DayOf(now) - PresetDays(filter) by {
      DayShift(back, PresetDays(filter));
    }
  }

  /** A custom range runs from the day of `from` to the day of `to`. */
  lemma CustomRange(filter: DashboardFilter, now: int, parseDate: string -> Option<int>)
    requires !Preset(filter)
    requires parseDate(filter.from.value).Some? && parseDate(filter.to.value).Some?
    ensures var r := ParseDateRange(filter, now, parseDate);
      r.Some? &&
      DayOf(r.value.from) == DayOf(parseDate(filter.from.value).value) &&
      DayOf(r.value.to) == DayOf(parseDate(filter.to.value).value)
  {
    DayBounds(parseDate(filter.from.value).value);
    DayBounds(parseDate(filter.to.value).value);
  }

  // ----- getDashboardData -----

  /** One headline metric: `{ label, value, type }`, the label as `caption`. */
  datatype Metric = Metric(caption: string, value: int, kind: string)

  /** A point of the user growth chart: `{ date, users, active }`. */
  datatype GrowthPoint = GrowthPoint(date: int, users: int, active: int)

  /** A bar of the top classes or subjects chart: `{ name, activity }`. */
  datatype ChartEntry = ChartEntry(name: string, activity: int)

  datatype DashboardData = DashboardData(dateRange: DateRange, metrics: seq<Metric>, userGrowth: seq<GrowthPoint>,
                                         topClasses: seq<ChartEntry>, topSubjects: seq<ChartEntry>,
                                         recentSignups: seq<Signup>)

  function MetricsOf(o: OverviewStats): seq<Metric> {
    [Metric("Total Users", o.totalUsers, "total_users"),
     Metric("Active Users (Period)", o.activeUsers, "active_users"),
     Metric("New Signups", o.newUsers, "new_users"),
     Metric("Total Chats", o.totalChats, "total_chats"),
     Metric("Total Messages", o.totalMessages, "total_messages")]
  }

  /** `new Date(dateKey)`: the midnight of the point's day. */
  function GrowthOf(p: DailyPoint): GrowthPoint {
    GrowthPoint(p.day * DAY_MS, p.totalUsers, p.activeUsers)
  }

  /** `{ name: c.name || "Unknown", activity: c.count }`. */
  function ChartEntryOf(e: TopEntry): ChartEntry {
    ChartEntry(if e.name != "" then e.name else UNKNOWN, e.count)
  }

  /** `getDashboardData(filter)`; `None` when the range does not parse. */
  function GetDashboardData(users: seq<User>, sessions: seq<Session>, messages: seq<Message>,
                            classes: seq<Class>, subjects: seq<Subject>,
                            filter: DashboardFilter, now: int, parseDate: string -> Option<int>): Option<DashboardData> {
    match ParseDateRange(filter, now, parseDate)
    case None => None
    case Some(range) =>
      Some(DashboardData(
        range,
        MetricsOf(GetOverviewStats(users, sessions, messages, range.from, range.to)),
        Map(DailyStatsOf(users, range.from, range.to), GrowthOf),
        Map(GetTopClasses(sessions, classes, TOP_LIMIT), ChartEntryOf),
        Map(GetTopSubjects(sessions, subjects, TOP_LIMIT), ChartEntryOf),
        GetRecentSignups(users, RECENT_SIGNUPS)))
  }

  function MetricKind(m: Metric): string { m.kind }

  /** The five metrics come in a fixed order; none of the user counts of
      the period exceeds the total. */
  lemma DashboardMetrics(users: seq<User>, sessions: seq<Session>, messages: seq<Message>,
                         classes: seq<Class>, subjects: seq<Subject>,
                         filter: DashboardFilter, now: int, parseDate: string -> Option<int>)
    ensures var r := GetDashboardData(users, sessions, messages, classes, subjects, filter, now, parseDate);
      r.Some? ==>
        Map(r.value.metrics, MetricKind) == ["total_users", "active_users", "new_users", "total_chats", "total_messages"] &&
        r.value.metrics[0].value == |users| &&
        r.value.metrics[1].value <= |users| && r.value.metrics[2].value <= |users| &&
        r.value.metrics[3].value <= |sessions| && r.value.metrics[4].value <= |messages|
  {
    var p := ParseDateRange(filter, now, parseDate);
    if p.Some? {
      var o := GetOverviewStats(users, sessions, messages, p.value.from, p.value.to);
      var r := GetDashboardData(users, sessions, messages, classes, subjects, filter, now, parseDate).value;
      assert r.metrics == MetricsOf(o);
      MetricKinds(o);
    }
  }

  /** The metrics list each overview count once, under its own kind. */
  lemma MetricKinds(o: OverviewStats)
    ensures var m := MetricsOf(o);
      Map(m, MetricKind) == ["total_users", "active_users", "new_users", "total_chats", "total_messages"] &&
      m[0].value == o.totalUsers && m[1].value == o.activeUsers && m[2].value == o.newUsers &&
      m[3].value == o.totalChats && m[4].value == o.totalMessages
  {
  }

  /** A growth chart over `range` that has one point per day of the
      range, at each day's midnight, with totals that never decrease, and
      whose last total is the users created before the range plus
      `newUsers`, which is every user created up to the end of the range. */
  predicate GrowthShape(g: seq<GrowthPoint>, users: seq<User>, range: DateRange, newUsers: int) {
    |g| == DayOf(range.to) - DayOf(range.from) + 1 && |g| > 0 &&
    (forall j :: 0 <= j < |g| ==> g[j].date == range.from + j * DAY_MS) &&
    (forall i, j :: 0 <= i <= j < |g| ==> g[i].users <= g[j].users) &&
    g[|g| - 1].users == Count(users, CreatedBefore(range.from)) + newUsers &&
    g[|g| - 1].users == Count(users, CreatedBefore(range.to + 1))
  }

  /** The growth chart of a non-empty range has that shape, with the New
      Signups metric as `newUsers`. */
  lemma DashboardGrowth(users: seq<User>, sessions: seq<Session>, messages: seq<Message>,
                        classes: seq<Class>, subjects: seq<Subject>,
                        filter: DashboardFilter, now: int, parseDate: string -> Option<int>)
    ensures var r := GetDashboardData(users, sessions, messages, classes, subjects, filter, now, parseDate);
      r.Some? && r.value.dateRange.from <= r.value.dateRange.to ==>
        GrowthShape(r.value.userGrowth, users, r.value.dateRange, r.value.metrics[2].value)
  {
    var p := ParseDateRange(filter, now, parseDate);
    if p.Some? && p.value.from <= p.value.to {
      var r := GetDashboardData(users, sessions, messages, classes, subjects, filter, now, parseDate).value;
      var o := GetOverviewStats(users, sessions, messages, p.value.from, p.value.to);
      assert r.dateRange == p.value && r.metrics == MetricsOf(o);
      assert r.userGrowth == Map(DailyStatsOf(users, p.value.from, p.value.to), GrowthOf);
      MetricKinds(o);
      assert o.newUsers == Count(users, UserCreatedIn(p.value));
      DateRangeShape(filter, now, parseDate);
      GrowthChart(users, p.value);
    }
  }

  lemma GrowthChart(users: seq<User>, range: DateRange)
    requires range.from % DAY_MS == 0 && range.from <= range.to
    ensures GrowthShape(Map(DailyStatsOf(users, range.from, range.to), GrowthOf), users, range,
                        Count(users, UserCreatedIn(range)))
  {
    var d := DailyStatsOf(users, range.from, range.to);
    var first := DayOf(range.from);
    DailyStatsShape(users, range.from, range.to);
    DailyStatsFromMidnight(users, range.from, range.to);
    assert range.from == first * DAY_MS;
    var n := |d|;
    var g := Map(d, GrowthOf);
    assert g[n - 1].users == d[n - 1].totalUsers;
    assert d[n - 1].totalUsers ==
           Count(users, CreatedBefore(range.from)) + Count(users, InRangeBy(range, first + n - 1)) by {
      DailyTotalCounts(users, range.from, range.to, n - 1);
      CountedBySplit(users, range.from, range.to, first + n - 1);
    }
    assert Count(users, InRangeBy(range, first + n - 1)) == Count(users, UserCreatedIn(range)) by {
      forall u | u in users
        ensures InRangeBy(range, first + n - 1)(u) <==> UserCreatedIn(range)(u)
      {
        if InRange(range, u.createdAt) {
          DayMonotone(u.createdAt, range.to);
        }
      }
      FilterExt(users, InRangeBy(range, first + n - 1), UserCreatedIn(range));
    }
  }

  /** With a preset and no user created after `now`, the growth chart ends
      on the Total Users metric. */
  lemma PresetGrowthEndsAtTotal(users: seq<User>, sessions: seq<Session>, messages: seq<Message>,
                                classes: seq<Class>, subjects: seq<Subject>,
                                filter: DashboardFilter, now: int, parseDate: string -> Option<int>)
    requires Preset(filter)
    requires forall u :: u in users ==> u.createdAt <= now
    ensures var r := GetDashboardData(users, sessions, messages, classes, subjects, filter, now, parseDate);
      r.Some? && |r.value.userGrowth| == PresetDays(filter) + 1 &&
      r.value.userGrowth[|r.value.userGrowth| - 1].users == r.value.metrics[0].value
  {
    PresetRange(filter, now, parseDate);
    var range := ParseDateRange(filter, now, parseDate).value;
    DashboardGrowth(users, sessions, messages, classes, subjects, filter, now, parseDate);
    var r := GetDashboardData(users, sessions, messages, classes, subjects, filter, now, parseDate).value;
    var g := r.userGrowth;
    ShapeEndsAtAll(g, users, range, r.metrics[2].value);
    assert r.metrics[0].value == |users|;
  }

  lemma ShapeEndsAtAll(g: seq<GrowthPoint>, users: seq<User>, range: DateRange, newUsers: int)
    requires GrowthShape(g, users, range, newUsers)
    requires forall u :: u in users ==> u.createdAt <= range.to
    ensures g[|g| - 1].users == |users|
  {
    FilterAll(users, CreatedBefore(range.to + 1));
  }

  function Activity(e: ChartEntry): int { e.activity }

  function Name(e: ChartEntry): string { e.name }

  function SessionTotal(e: Entry<string, int>): int { e.val }

  /** The top classes chart shows at most five bars, none unnamed, most
      sessions first, each the session count of a class. */
  lemma DashboardTopClasses(users: seq<User>, sessions: seq<Session>, messages: seq<Message>,
                            classes: seq<Class>, subjects: seq<Subject>,
                            filter: DashboardFilter, now: int, parseDate: string -> Option<int>)
    ensures var r := GetDashboardData(users, sessions, messages, classes, subjects, filter, now, parseDate);
      r.Some? ==>
        var t := r.value.topClasses;
        |t| <= TOP_LIMIT &&
        (forall e :: e in t ==> e.name != "") &&
        (forall i, j :: 0 <= i < j < |t| ==> t[i].activity >= t[j].activity) &&
        Map(t, Activity) == Map(TopCounts(sessions, SessionClass, TOP_LIMIT), SessionTotal)
  {
    var r := GetDashboardData(users, sessions, messages, classes, subjects, filter, now, parseDate);
    if r.Some? {
      TopChart(TopCounts(sessions, SessionClass, TOP_LIMIT), NamedClass(classes), r.value.topClasses);
      TopCountsSpec(sessions, SessionClass, TOP_LIMIT);
    }
  }

  /** The same for the top subjects chart. */
  lemma DashboardTopSubjects(users: seq<User>, sessions: seq<Session>, messages: seq<Message>,
                             classes: seq<Class>, subjects: seq<Subject>,
                             filter: DashboardFilter, now: int, parseDate: string -> Option<int>)
    ensures var r := GetDashboardData(users, sessions, messages, classes, subjects, filter, now, parseDate);
      r.Some? ==>
        var t := r.value.topSubjects;
        |t| <= TOP_LIMIT &&
        (forall e :: e in t ==> e.name != "") &&
        (forall i, j :: 0 <= i < j < |t| ==> t[i].activity >= t[j].activity) &&
        Map(t, Activity) == Map(TopCounts(sessions, SessionSubject, TOP_LIMIT), SessionTotal)
  {
    var r := GetDashboardData(users, sessions, messages, classes, subjects, filter, now, parseDate);
    if r.Some? {
      TopChart(TopCounts(sessions, SessionSubject, TOP_LIMIT), NamedSubject(subjects), r.value.topSubjects);
      TopCountsSpec(sessions, SessionSubject, TOP_LIMIT);
    }
  }

  lemma TopChart(top: seq<Entry<string, int>>, named: Entry<string, int> -> TopEntry, t: seq<ChartEntry>)
    requires forall e :: (named(e)).count == e.val
    requires t == Map(Map(top, named), ChartEntryOf)
    ensures |t| == |top|
    ensures forall e :: e in t ==> e.name != ""
    ensures forall j :: 0 <= j < |t| ==> t[j].activity == top[j].val
    ensures Map(t, Activity) == Map(top, SessionTotal)
  {
    forall e | e in t
      ensures e.name != ""
    {
      var j :| 0 <= j < |t| && t[j] == e;
    }
  }
}
