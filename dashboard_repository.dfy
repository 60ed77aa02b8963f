/** The admin dashboard repository: overview counts over a date range,
    the newest signups, a per-day signup chart with a running user total,
    and the classes and subjects with the most chat sessions. */
module DashboardRepository {
  import opened Wrappers
  import opened Seqs
  import opened Sorting
  import opened Schema
  import opened Dicts
  import opened AnalyticsRepository

  // ----- getOverviewStats -----

  datatype OverviewStats = OverviewStats(totalUsers: nat, newUsers: nat, activeUsers: nat, totalChats: nat,
                                         totalMessages: nat)

  /** `lastLoginAt: { gte, lte }`: a user who never logged in does not match. */
  function LoggedInDuring(range: DateRange): User -> bool {
    (u: User) => u.lastLoginAt.Some? && InRange(range, u.lastLoginAt.value)
  }

  function SessionCreatedIn(range: DateRange): Session -> bool {
    (s: Session) => InRange(range, s.createdAt)
  }

  function MessageCreatedIn(range: DateRange): Message -> bool {
    (m: Message) => InRange(range, m.createdAt)
  }

  /** `getOverviewStats(startDate, endDate)`: five counts, the first over
      every user and the others over the range, both ends included. */
  function GetOverviewStats(users: seq<User>, sessions: seq<Session>, messages: seq<Message>,
                            startDate: int, endDate: int): (r: OverviewStats)
    ensures r.newUsers <= r.totalUsers && r.activeUsers <= r.totalUsers
    ensures r.totalChats <= |sessions| && r.totalMessages <= |messages|
  {
    var range := DateRange(startDate, endDate);
    OverviewStats(|users|, Count(users, UserCreatedIn(range)), Count(users, LoggedInDuring(range)),
                  Count(sessions, SessionCreatedIn(range)), Count(messages, MessageCreatedIn(range)))
  }

  /** Widening the range never lowers a count, and the total does not
      depend on it. */
  lemma OverviewStatsMonotone(users: seq<User>, sessions: seq<Session>, messages: seq<Message>,
                              s1: int, e1: int, s2: int, e2: int)
    requires s2 <= s1 && e1 <= e2
    ensures var a := GetOverviewStats(users, sessions, messages, s1, e1);
      var b := GetOverviewStats(users, sessions, messages, s2, e2);
      a.totalUsers == b.totalUsers && a.newUsers <= b.newUsers && a.activeUsers <= b.activeUsers &&
      a.totalChats <= b.totalChats && a.totalMessages <= b.totalMessages
  {
    var r1 := DateRange(s1, e1);
    var r2 := DateRange(s2, e2);
    FilterImplies(users, UserCreatedIn(r1), UserCreatedIn(r2));
    FilterImplies(users, LoggedInDuring(r1), LoggedInDuring(r2));
    FilterImplies(sessions, SessionCreatedIn(r1), SessionCreatedIn(r2));
    FilterImplies(messages, MessageCreatedIn(r1), MessageCreatedIn(r2));
  }

  /** A range that ends before it starts counts nothing but the users. */
  lemma OverviewStatsEmptyRange(users: seq<User>, sessions: seq<Session>, messages: seq<Message>,
                                startDate: int, endDate: int)
    requires endDate < startDate
    ensures GetOverviewStats(users, sessions, messages, startDate, endDate) == OverviewStats(|users|, 0, 0, 0, 0)
  {
    var range := DateRange(startDate, endDate);
    FilterNone(users, UserCreatedIn(range));
    FilterNone(users, LoggedInDuring(range));
    FilterNone(sessions, SessionCreatedIn(range));
    FilterNone(messages, MessageCreatedIn(range));
  }

  // ----- getRecentSignups -----

  const DEFAULT_SIGNUPS := 5

  /** The selected user fields: no password hash. */
  datatype Signup = Signup(id: string, name: Option<string>, email: string, createdAt: int, role: string)

  function SignupOf(u: User): Signup {
    Signup(u.id, u.name, u.email, u.createdAt, u.role)
  }

  function CreatedKey(u: User): Key { Key(u.createdAt, "") }

  /** `getRecentSignups(limit)`: `orderBy: { createdAt: "desc" }`, `take: limit`. */
  function GetRecentSignups(users: seq<User>, limit: nat): seq<Signup> {
    Map(Take(SortBy(users, CreatedKey, true), limit), SignupOf)
  }

  /** At most `limit` signups, as many as there are users up to that,
      newest first, each a user of the table; a user left out signed up no
      later than any shown. */
  lemma RecentSignupsSpec(users: seq<User>, limit: nat)
    ensures var r := GetRecentSignups(users, limit);
      |r| == (if limit < |users| then limit else |users|) &&
      (forall i, j :: 0 <= i < j < |r| ==> r[i].createdAt >= r[j].createdAt) &&
      (forall x :: x in r ==> exists u :: u in users && x == SignupOf(u)) &&
      (forall u :: u in users && SignupOf(u) !in r ==> forall x :: x in r ==> x.createdAt >= u.createdAt)
  {
    var t := Take(SortBy(users, CreatedKey, true), limit);
    var r := GetRecentSignups(users, limit);
    TopN(users, CreatedKey, true, limit);
    forall i, j | 0 <= i < j < |r|
      ensures r[i].createdAt >= r[j].createdAt
    {
      assert Before(CreatedKey(t[i]), CreatedKey(t[j]), true);
    }
    forall x | x in r
      ensures exists u :: u in users && x == SignupOf(u)
    {
      var i :| 0 <= i < |r| && r[i] == x;
      assert t[i] in t;
    }
    forall u, x | u in users && SignupOf(u) !in r && x in r
      ensures x.createdAt >= u.createdAt
    {
      var i :| 0 <= i < |r| && r[i] == x;
      assert u !in t;
      assert t[i] in t;
      assert Before(CreatedKey(t[i]), CreatedKey(u), true);
    }
  }

  // ----- getDailyStats -----

  /** One point of the growth chart: the running user total and the day's
      new users (reported as its active users). */
  datatype DailyPoint = DailyPoint(day: int, totalUsers: int, activeUsers: int)

  /** How many times `while (currentDate <= endDate)` runs when
      `currentDate` starts at `startDate` and moves on a day each time. */
  function NumDays(startDate: int, endDate: int): nat {
    if endDate < startDate then 0 else (endDate - startDate) / DAY_MS + 1
  }

  lemma DayShift(t: int, k: int)
    ensures DayOf(t + k * DAY_MS) == DayOf(t) + k
  {
    assert t == DayOf(t) * DAY_MS + t % DAY_MS;
    assert t + k * DAY_MS == (DayOf(t) + k) * DAY_MS + t % DAY_MS;
  }

  function OnDay(day: int): User -> bool {
    (u: User) => DayOf(u.createdAt) == day
  }

  /** The users signed up on a day. */
  function SignupsOnDay(found: seq<User>, day: int): nat {
    Count(found, OnDay(day))
  }

  /** The signups of the first `j` days from `first`. */
  function Cumulative(found: seq<User>, first: int, j: nat): nat {
    if j == 0 then 0 else Cumulative(found, first, j - 1) + SignupsOnDay(found, first + j - 1)
  }

  function CreatedBefore(t: int): User -> bool {
    (u: User) => u.createdAt < t
  }

  /** The counters before the users are counted: one per generated day, in order. */
  function ZeroDays(first: int, n: nat): seq<Entry<int, int>> {
    seq(n, j requires 0 <= j < n => Entry(first + j, 0))
  }

  /** The counters once `us` are counted. */
  function CountDays(first: int, n: nat, us: seq<User>): seq<Entry<int, int>> {
    seq(n, j requires 0 <= j < n => Entry(first + j, SignupsOnDay(us, first + j)))
  }

  /** The chart `getDailyStats(startDate, endDate)` returns. */
  function DailyStatsOf(users: seq<User>, startDate: int, endDate: int): seq<DailyPoint> {
    var found := Filter(users, UserCreatedIn(DateRange(startDate, endDate)));
    var first := DayOf(startDate);
    var prior := Count(users, CreatedBefore(startDate));
    seq(NumDays(startDate, endDate), j requires 0 <= j < NumDays(startDate, endDate) =>
      DailyPoint(first + j, prior + Cumulative(found, first, j + 1), SignupsOnDay(found, first + j)))
  }

  function PointKey(p: DailyPoint): Key { Key(p.day, "") }

  /** `getDailyStats(startDate, endDate)`: a counter per day from the start
      day on, each user of the range counted on its day when that day has a
      counter, then a running total from the users before the range. */
  method GetDailyStats(users: seq<User>, startDate: int, endDate: int) returns (result: seq<DailyPoint>)
    ensures result == DailyStatsOf(users, startDate, endDate)
  {
    var found := Filter(users, UserCreatedIn(DateRange(startDate, endDate)));
    var statsMap := DayCounters(startDate, endDate);
    statsMap := CountSignups(DayOf(startDate), NumDays(startDate, endDate), statsMap, found);
    var priorCount := Count(users, CreatedBefore(startDate));
    result := RunningTotals(users, startDate, endDate, statsMap, priorCount);
    DailyStatsSorted(users, startDate, endDate);
    result := SortBy(result, PointKey, false);
    SortedUnique(DailyStatsOf(users, startDate, endDate), result, PointKey, false);
  }

  /** The first loop: a zero counter for each day whose start, counted from
      `startDate` in whole days, is not after `endDate`. */
  method DayCounters(startDate: int, endDate: int) returns (statsMap: seq<Entry<int, int>>)
    ensures statsMap == CountDays(DayOf(startDate), NumDays(startDate, endDate), [])
  {
    var first := DayOf(startDate);
    var n := NumDays(startDate, endDate);
    statsMap := [];
    var currentDate := startDate;
    while currentDate <= endDate
      invariant currentDate == startDate + |statsMap| * DAY_MS
      invariant |statsMap| <= n
      invariant statsMap == ZeroDays(first, |statsMap|)
      decreases endDate - currentDate
    {
      var dateKey := DayOf(currentDate);
      NumDaysStep(startDate, endDate, |statsMap|);
      ZeroDaysGrow(startDate, |statsMap|);
      statsMap := Put(statsMap, dateKey, 0);
      currentDate := currentDate + DAY_MS;
    }
    NumDaysStep(startDate, endDate, |statsMap|);
    NothingCounted(first, n);
  }

  /** The second loop: each user found is added to its day's counter, when
      that day has one. */
  method CountSignups(first: int, n: nat, zeros: seq<Entry<int, int>>, found: seq<User>)
    returns (statsMap: seq<Entry<int, int>>)
    requires zeros == CountDays(first, n, [])
    ensures statsMap == CountDays(first, n, found)
  {
    statsMap := zeros;
    assert found[..0] == [];
    var i := 0;
    while i < |found|
      invariant 0 <= i <= |found|
      invariant statsMap == CountDays(first, n, found[..i])
    {
      ghost var seen := found[..i];
      statsMap := CountUser(first, n, seen, statsMap, found[i]);
      assert found[..i + 1] == seen + [found[i]];
      i := i + 1;
    }
    assert found[..i] == found;
  }

  /** One pass of the second loop: the user's day counter goes up by one
      when that day has a counter. */
  method CountUser(ghost first: int, ghost n: nat, ghost seen: seq<User>,
                   statsMap: seq<Entry<int, int>>, user: User)
    returns (r: seq<Entry<int, int>>)
    requires statsMap == CountDays(first, n, seen)
    ensures r == CountDays(first, n, seen + [user])
  {
    var dateKey := DayOf(user.createdAt);
    var current := Get(statsMap, dateKey);
    ghost var next := CountDays(first, n, seen + [user]);
    assert current.None? ==> next == statsMap by {
      CountOneMore(first, n, seen, user);
    }
    r := statsMap;
    if current.Some? {
      assert next == Put(statsMap, dateKey, current.value + 1) by {
        CountOneMore(first, n, seen, user);
      }
      r := Put(statsMap, dateKey, current.value + 1);
    }
  }

  /** The third loop: a point per counter, carrying the running total. */
  method RunningTotals(users: seq<User>, startDate: int, endDate: int, statsMap: seq<Entry<int, int>>, priorCount: int)
    returns (result: seq<DailyPoint>)
    requires statsMap == CountDays(DayOf(startDate), NumDays(startDate, endDate),
                                   Filter(users, UserCreatedIn(DateRange(startDate, endDate))))
    requires priorCount == Count(users, CreatedBefore(startDate))
    ensures result == DailyStatsOf(users, startDate, endDate)
  {
    ghost var found := Filter(users, UserCreatedIn(DateRange(startDate, endDate)));
    ghost var first := DayOf(startDate);
    var runningTotal := priorCount;
    result := [];
    var j := 0;
    while j < |statsMap|
      invariant 0 <= j <= |statsMap|
      invariant runningTotal == priorCount + Cumulative(found, first, j)
      invariant result == DailyStatsOf(users, startDate, endDate)[..j]
    {
      runningTotal, result := AddPoint(users, startDate, endDate, j, statsMap[j], runningTotal, result);
      j := j + 1;
    }
    assert |DailyStatsOf(users, startDate, endDate)| == j;
  }

  /** One pass of the third loop: the day's counter joins the running
      total, and the day's point joins the chart. */
  method AddPoint(ghost users: seq<User>, ghost startDate: int, ghost endDate: int, ghost j: nat,
                  stat: Entry<int, int>, runningTotal: int, result: seq<DailyPoint>)
    returns (total: int, next: seq<DailyPoint>)
    requires j < NumDays(startDate, endDate)
    requires stat == CountDays(DayOf(startDate), NumDays(startDate, endDate),
                               Filter(users, UserCreatedIn(DateRange(startDate, endDate))))[j]
    requires runningTotal == Count(users, CreatedBefore(startDate)) +
                             Cumulative(Filter(users, UserCreatedIn(DateRange(startDate, endDate))), DayOf(startDate), j)
    requires result == DailyStatsOf(users, startDate, endDate)[..j]
    ensures total == Count(users, CreatedBefore(startDate)) +
                     Cumulative(Filter(users, UserCreatedIn(DateRange(startDate, endDate))), DayOf(startDate), j + 1)
    ensures next == DailyStatsOf(users, startDate, endDate)[..j + 1]
  {
    ghost var found := Filter(users, UserCreatedIn(DateRange(startDate, endDate)));
    ghost var first := DayOf(startDate);
    assert stat == Entry(first + j, SignupsOnDay(found, first + j));
    assert Cumulative(found, first, j + 1) == Cumulative(found, first, j) + SignupsOnDay(found, first + j);
    total := runningTotal + stat.val;
    next := result + [DailyPoint(stat.key, total, stat.val)];
    ghost var r := DailyStatsOf(users, startDate, endDate);
    assert r[j] == DailyPoint(stat.key, total, stat.val);
    assert r[..j + 1] == r[..j] + [r[j]];
  }

  /** The loop runs while the next day still starts inside the range, and
      stops after `NumDays` turns. */
  lemma NumDaysStep(startDate: int, endDate: int, k: nat)
    ensures startDate + k * DAY_MS <= endDate ==> k < NumDays(startDate, endDate)
    ensures startDate + k * DAY_MS > endDate && k <= NumDays(startDate, endDate) ==> k == NumDays(startDate, endDate)
  {
    if endDate >= startDate {
      var e := endDate - startDate;
      assert e == (e / DAY_MS) * DAY_MS + e % DAY_MS;
    }
  }

  /** One more turn of the first loop adds the next day's counter. */
  lemma ZeroDaysGrow(startDate: int, k: nat)
    ensures Put(ZeroDays(DayOf(startDate), k), DayOf(startDate + k * DAY_MS), 0) == ZeroDays(DayOf(startDate), k + 1)
  {
    var first := DayOf(startDate);
    DayShift(startDate, k);
    PutAbsent(ZeroDays(first, k), first + k, 0);
  }

  lemma NothingCounted(first: int, n: nat)
    ensures CountDays(first, n, []) == ZeroDays(first, n)
  {
    var none: seq<User> := [];
    forall j | 0 <= j < n
      ensures CountDays(first, n, none)[j] == ZeroDays(first, n)[j]
    {
      assert Filter(none, OnDay(first + j)) == [];
      assert SignupsOnDay(none, first + j) == 0;
    }
  }

  lemma SignupsAppend(us: seq<User>, x: User, day: int)
    ensures SignupsOnDay(us + [x], day) == SignupsOnDay(us, day) + (if DayOf(x.createdAt) == day then 1 else 0)
  {
    FilterConcat(us, [x], OnDay(day));
    assert [x][1..] == [];
  }

  /** The counters are keyed by the days `first` to `first + n - 1`. */
  lemma CountDaysKeys(first: int, n: nat, us: seq<User>, d: int)
    ensures DistinctKeys(CountDays(first, n, us))
    ensures d in KeysOf(CountDays(first, n, us)) <==> first <= d < first + n
  {
    var m := CountDays(first, n, us);
    if first <= d < first + n {
      assert KeysOf(m)[d - first] == d;
    }
  }

  lemma CountDaysAppend(first: int, n: nat, us: seq<User>, x: User)
    ensures var m := CountDays(first, n, us);
      var d := DayOf(x.createdAt);
      CountDays(first, n, us + [x]) ==
        if first <= d < first + n then m[d - first := Entry(d, m[d - first].val + 1)] else m
  {
    var m := CountDays(first, n, us);
    var m' := CountDays(first, n, us + [x]);
    var d := DayOf(x.createdAt);
    forall j | 0 <= j < n
      ensures m'[j] == Entry(first + j, m[j].val + (if d == first + j then 1 else 0))
    {
      SignupsAppend(us, x, first + j);
    }
  }

  /** Counting one more user: the counter of its day goes up by one when
      the day has a counter, and nothing changes otherwise. */
  lemma CountOneMore(first: int, n: nat, us: seq<User>, x: User)
    ensures var m := CountDays(first, n, us);
      var d := DayOf(x.createdAt);
      (Get(m, d).None? ==> CountDays(first, n, us + [x]) == m) &&
      (Get(m, d).Some? ==> CountDays(first, n, us + [x]) == Put(m, d, Get(m, d).value + 1))
  {
    var m := CountDays(first, n, us);
    var m' := CountDays(first, n, us + [x]);
    var d := DayOf(x.createdAt);
    assert DistinctKeys(m) && (d in KeysOf(m) <==> first <= d < first + n) by {
      CountDaysKeys(first, n, us, d);
    }
    if first <= d < first + n {
      var i := d - first;
      assert m[i].key == d && m' == m[i := Entry(d, m[i].val + 1)] by {
        CountDaysAppend(first, n, us, x);
      }
      BumpAt(m, i, m');
    } else {
      assert m' == m by {
        CountDaysAppend(first, n, us, x);
      }
    }
  }

  /** Bumping the counter at position `i` is `Put` of its successor. */
  lemma BumpAt(m: seq<Entry<int, int>>, i: int, m': seq<Entry<int, int>>)
    requires DistinctKeys(m) && 0 <= i < |m| && m' == m[i := Entry(m[i].key, m[i].val + 1)]
    ensures Get(m, m[i].key) == Some(m[i].val) && m' == Put(m, m[i].key, m[i].val + 1)
  {
    CountAtDay(m, i);
  }

  lemma CountAtDay(m: seq<Entry<int, int>>, i: int)
    requires DistinctKeys(m) && 0 <= i < |m|
    ensures Get(m, m[i].key) == Some(m[i].val)
    ensures Put(m, m[i].key, m[i].val + 1) == m[i := Entry(m[i].key, m[i].val + 1)]
  {
    GetDistinct(m, i);
    PutAt(m, i, m[i].val + 1);
  }

  /** The chart lists consecutive days, so it is already in date order and
      the final sort changes nothing. */
  lemma DailyStatsSorted(users: seq<User>, startDate: int, endDate: int)
    ensures var r := DailyStatsOf(users, startDate, endDate);
      Sorted(r, PointKey, false) && KeysDistinct(r, PointKey)
  {
    var r := DailyStatsOf(users, startDate, endDate);
    assert UniqueKeys(r, PointKey);
    UniqueKeysDistinct(r, PointKey);
  }

  /** The chart has one point per day from the start day on, consecutive;
      each day's active users are its signups in the range; each total adds
      that day's signups to the one before, starting from the users who
      signed up before the range; so the totals never decrease. */
  lemma DailyStatsShape(users: seq<User>, startDate: int, endDate: int)
    ensures var r := DailyStatsOf(users, startDate, endDate);
      var found := Filter(users, UserCreatedIn(DateRange(startDate, endDate)));
      |r| == NumDays(startDate, endDate) &&
      (forall j :: 0 <= j < |r| ==> r[j].day == DayOf(startDate) + j && r[j].activeUsers == SignupsOnDay(found, r[j].day)) &&
      (|r| > 0 ==> r[0].totalUsers == Count(users, CreatedBefore(startDate)) + r[0].activeUsers) &&
      (forall j :: 0 < j < |r| ==> r[j].totalUsers == r[j - 1].totalUsers + r[j].activeUsers) &&
      (forall i, j :: 0 <= i <= j < |r| ==> r[i].totalUsers <= r[j].totalUsers)
  {
    var r := DailyStatsOf(users, startDate, endDate);
    var found := Filter(users, UserCreatedIn(DateRange(startDate, endDate)));
    var first := DayOf(startDate);
    assert Cumulative(found, first, 1) == SignupsOnDay(found, first);
    forall j | 0 < j < |r|
      ensures r[j].totalUsers == r[j - 1].totalUsers + r[j].activeUsers
    {
      assert Cumulative(found, first, j + 1) == Cumulative(found, first, j) + SignupsOnDay(found, first + j);
    }
    forall i, j | 0 <= i <= j < |r|
      ensures r[i].totalUsers <= r[j].totalUsers
    {
      CumulativeGrows(Filter(users, UserCreatedIn(DateRange(startDate, endDate))), DayOf(startDate), i + 1, j + 1);
    }
  }

  lemma {:induction false} CumulativeGrows(found: seq<User>, first: int, a: nat, b: nat)
    requires a <= b
    ensures Cumulative(found, first, a) <= Cumulative(found, first, b)
    decreases b
  {
    if a < b {
      CumulativeGrows(found, first, a, b - 1);
    }
  }

  function DayAtMost(last: int): User -> bool {
    (u: User) => DayOf(u.createdAt) <= last
  }

  /** The users counted up to a day: before the range, or in it on or
      before that day. */
  function CountedBy(startDate: int, endDate: int, last: int): User -> bool {
    (u: User) => u.createdAt < startDate || (startDate <= u.createdAt <= endDate && DayOf(u.createdAt) <= last)
  }

  /** The running total of a day counts exactly the users created before
      the range or within it on or before that day. */
  lemma DailyTotalCounts(users: seq<User>, startDate: int, endDate: int, j: int)
    requires 0 <= j < NumDays(startDate, endDate)
    ensures DailyStatsOf(users, startDate, endDate)[j].totalUsers ==
            Count(users, CountedBy(startDate, endDate, DayOf(startDate) + j))
  {
    var range := DateRange(startDate, endDate);
    var found := Filter(users, UserCreatedIn(range));
    var first := DayOf(startDate);
    assert DailyStatsOf(users, startDate, endDate)[j].totalUsers ==
           Count(users, CreatedBefore(startDate)) + Cumulative(found, first, j + 1);
    CumulativeInRange(users, range, j);
    CountedBySplit(users, startDate, endDate, first + j);
  }

  /** The running count after `j + 1` days is the number of users of the
      range created by the end of day `j`. */
  lemma CumulativeInRange(users: seq<User>, range: DateRange, j: nat)
    ensures Cumulative(Filter(users, UserCreatedIn(range)), DayOf(range.from), j + 1) ==
            Count(users, InRangeBy(range, DayOf(range.from) + j))
  {
    var found := Filter(users, UserCreatedIn(range));
    var first := DayOf(range.from);
    FoundFromStartDay(users, range);
    CumulativeCount(found, first, j + 1, first + j);
    InRangeByCount(users, range, first + j);
  }

  lemma FoundFromStartDay(users: seq<User>, range: DateRange)
    ensures forall u :: u in Filter(users, UserCreatedIn(range)) ==> DayOf(u.createdAt) >= DayOf(range.from)
  {
    forall u | u in Filter(users, UserCreatedIn(range))
      ensures DayOf(u.createdAt) >= DayOf(range.from)
    {
      DayMonotone(range.from, u.createdAt);
    }
  }

  lemma InRangeByCount(users: seq<User>, range: DateRange, last: int)
    ensures |Filter(Filter(users, UserCreatedIn(range)), DayAtMost(last))| == Count(users, InRangeBy(range, last))
  {
    FilterBoth(users, UserCreatedIn(range), DayAtMost(last), InRangeBy(range, last));
  }

  lemma CountedBySplit(users: seq<User>, startDate: int, endDate: int, last: int)
    ensures Count(users, CountedBy(startDate, endDate, last)) ==
            Count(users, CreatedBefore(startDate)) + Count(users, InRangeBy(DateRange(startDate, endDate), last))
  {
    FilterSplitCount(users, CountedBy(startDate, endDate, last), CreatedBefore(startDate),
                     InRangeBy(DateRange(startDate, endDate), last));
  }

  function InRangeBy(range: DateRange, last: int): User -> bool {
    (u: User) => InRange(range, u.createdAt) && DayOf(u.createdAt) <= last
  }

  lemma DayMonotone(a: int, b: int)
    requires a <= b
    ensures DayOf(a) <= DayOf(b)
  {
  }

  lemma {:induction false} CumulativeCount(found: seq<User>, first: int, j: nat, last: int)
    requires forall u :: u in found ==> DayOf(u.createdAt) >= first
    requires last == first + j - 1
    ensures Cumulative(found, first, j) == |Filter(found, DayAtMost(last))|
    decreases j
  {
    if j == 0 {
      NoneBefore(found, first);
    } else {
      CumulativeCount(found, first, j - 1, last - 1);
      DaySplit(found, last);
    }
  }

  lemma NoneBefore(found: seq<User>, first: int)
    requires forall u :: u in found ==> DayOf(u.createdAt) >= first
    ensures Filter(found, DayAtMost(first - 1)) == []
  {
    forall u | u in found
      ensures !DayAtMost(first - 1)(u)
    {
    }
    FilterNone(found, DayAtMost(first - 1));
  }

  /** The users up to a day are those up to the day before and those of the day. */
  lemma DaySplit(found: seq<User>, d: int)
    ensures |Filter(found, DayAtMost(d))| ==
            |Filter(found, DayAtMost(d - 1))| + |Filter(found, OnDay(d))|
  {
    forall u | u in found
      ensures (DayAtMost(d)(u) <==> DayAtMost(d - 1)(u) || OnDay(d)(u)) && !(DayAtMost(d - 1)(u) && OnDay(d)(u))
    {
    }
    FilterSplitCount(found, DayAtMost(d), DayAtMost(d - 1), OnDay(d));
  }

  /** With a start at midnight (as the dashboard passes), the chart covers
      every day from the start day to the end day, and its last total is
      every user created up to the end. */
  lemma DailyStatsFromMidnight(users: seq<User>, startDate: int, endDate: int)
    requires startDate % DAY_MS == 0 && startDate <= endDate
    ensures var r := DailyStatsOf(users, startDate, endDate);
      |r| == DayOf(endDate) - DayOf(startDate) + 1 &&
      r[|r| - 1].totalUsers == Count(users, CreatedBefore(endDate + 1))
  {
    var r := DailyStatsOf(users, startDate, endDate);
    var n := NumDays(startDate, endDate);
    assert startDate == DayOf(startDate) * DAY_MS;
    assert DayOf(startDate) + n - 1 == DayOf(endDate) by {
      var e := endDate - startDate;
      assert endDate == (DayOf(startDate) + e / DAY_MS) * DAY_MS + e % DAY_MS;
    }
    DailyTotalCounts(users, startDate, endDate, n - 1);
    FilterExt(users, CountedBy(startDate, endDate, DayOf(endDate)), CreatedBefore(endDate + 1));
  }

  /** With a start later in its day than the end is in its own, the end
      day gets no counter and its signups are left out: a start at noon of
      day 0 and an end at six in the morning of day 1 chart only day 0, and
      a user created at one in the morning of day 1 appears nowhere. */
  lemma DailyStatsSkipsEndDay(u: User)
    requires u.createdAt == DAY_MS + 3600000
    ensures var r := DailyStatsOf([u], DAY_MS / 2, DAY_MS + DAY_MS / 4);
      |r| == 1 && r[0].day == 0 && r[0].activeUsers == 0 && r[0].totalUsers == 0 &&
      InRange(DateRange(DAY_MS / 2, DAY_MS + DAY_MS / 4), u.createdAt)
  {
    var range := DateRange(DAY_MS / 2, DAY_MS + DAY_MS / 4);
    assert DayOf(u.createdAt) == 1;
    assert NumDays(DAY_MS / 2, DAY_MS + DAY_MS / 4) == 1;
    assert Filter([u], UserCreatedIn(range)) == [u];
    assert [u][1..] == [];
    assert Filter([u], OnDay(0)) == [];
    assert Filter([u], CreatedBefore(DAY_MS / 2)) == [];
    var found := Filter([u], UserCreatedIn(range));
    assert SignupsOnDay(found, 0) == 0;
    assert Cumulative(found, 0, 1) == 0;
  }

  // ----- getTopClasses and getTopSubjects -----

  const DEFAULT_TOP := 5
  const UNKNOWN_CLASS := "Unknown Class"
  const UNKNOWN_SUBJECT := "Unknown Subject"

  /** `{ name, count }`. */
  datatype TopEntry = TopEntry(name: string, count: int)

  function HasGroup(groupOf: Session -> Option<string>): Session -> bool {
    (s: Session) => groupOf(s).Some?
  }

  function GroupValue(groupOf: Session -> Option<string>): Session -> string {
    (s: Session) => if groupOf(s).Some? then groupOf(s).value else ""
  }

  function NoSessions(id: string): int { 0 }

  /** `groupBy: ["classId"]` with `_count` over the sessions whose id is not null. */
  function SessionCounts(sessions: seq<Session>, groupOf: Session -> Option<string>): seq<Entry<string, int>> {
    GroupFold(Filter(sessions, HasGroup(groupOf)), GroupValue(groupOf), NoSessions, CountOne)
  }

  function CountKey(e: Entry<string, int>): Key { Key(e.val, "") }

  /** `orderBy: { _count: { id: "desc" } }, take: limit`. */
  function TopCounts(sessions: seq<Session>, groupOf: Session -> Option<string>, limit: nat): seq<Entry<string, int>> {
    Take(SortBy(SessionCounts(sessions, groupOf), CountKey, true), limit)
  }

  /** `info?.name || fallback`. */
  function DisplayName(name: Option<string>, fallback: string): string {
    if Truthy(name) then name.value else fallback
  }

  function ClassName(classes: seq<Class>, id: string): Option<string> {
    match FindById(classes, ClassId, id)
    case Some(c) => Some(c.name)
    case None => None
  }

  function SubjectName(subjects: seq<Subject>, id: string): Option<string> {
    match FindById(subjects, SubjectId, id)
    case Some(s) => Some(s.name)
    case None => None
  }

  function NamedClass(classes: seq<Class>): Entry<string, int> -> TopEntry {
    (e: Entry<string, int>) => TopEntry(DisplayName(ClassName(classes, e.key), UNKNOWN_CLASS), e.val)
  }

  function NamedSubject(subjects: seq<Subject>): Entry<string, int> -> TopEntry {
    (e: Entry<string, int>) => TopEntry(DisplayName(SubjectName(subjects, e.key), UNKNOWN_SUBJECT), e.val)
  }

  /** `getTopClasses(limit)`. */
  function GetTopClasses(sessions: seq<Session>, classes: seq<Class>, limit: nat): seq<TopEntry> {
    Map(TopCounts(sessions, SessionClass, limit), NamedClass(classes))
  }

  /** `getTopSubjects(limit)`. */
  function GetTopSubjects(sessions: seq<Session>, subjects: seq<Subject>, limit: nat): seq<TopEntry> {
    Map(TopCounts(sessions, SessionSubject, limit), NamedSubject(subjects))
  }

  function WithGroup(groupOf: Session -> Option<string>, id: string): Session -> bool {
    (s: Session) => groupOf(s) == Some(id)
  }

  /** At most `limit` ids, most sessions first, no id twice; each count is
      the number of sessions with that id (at least one); sessions with no
      id are never counted; an id with sessions that was left out has no
      more of them than any id kept. */
  lemma TopCountsSpec(sessions: seq<Session>, groupOf: Session -> Option<string>, limit: nat)
    ensures var t := TopCounts(sessions, groupOf, limit);
      |t| <= limit && DistinctKeys(t) &&
      (forall i, j :: 0 <= i < j < |t| ==> t[i].val >= t[j].val) &&
      (forall e :: e in t ==> e.val == Count(sessions, WithGroup(groupOf, e.key)) >= 1) &&
      (forall s :: s in sessions && groupOf(s).Some? && (forall e :: e in t ==> e.key != groupOf(s).value) ==>
        forall e :: e in t ==> e.val >= Count(sessions, WithGroup(groupOf, groupOf(s).value)))
  {
    var c := SessionCounts(sessions, groupOf);
    var t := TopCounts(sessions, groupOf, limit);
    SessionCountsSpec(sessions, groupOf);
    TopN(c, CountKey, true, limit);
    TopDistinct(c, limit);
    forall i, j | 0 <= i < j < |t|
      ensures t[i].val >= t[j].val
    {
      assert Before(CountKey(t[i]), CountKey(t[j]), true);
    }
    forall s | s in sessions && groupOf(s).Some? && (forall e :: e in t ==> e.key != groupOf(s).value)
      ensures forall e :: e in t ==> e.val >= Count(sessions, WithGroup(groupOf, groupOf(s).value))
    {
      var x :| x in c && x.key == groupOf(s).value;
      assert x !in t;
      forall e | e in t
        ensures e.val >= x.val
      {
        assert Before(CountKey(e), CountKey(x), true);
      }
    }
  }

  lemma TopDistinct(c: seq<Entry<string, int>>, limit: nat)
    requires DistinctKeys(c)
    ensures DistinctKeys(Take(SortBy(c, CountKey, true), limit))
  {
    var s := SortBy(c, CountKey, true);
    var t := Take(s, limit);
    assert UniqueKeys(c, EntryKey) by {
      forall i, j | 0 <= i < j < |c|
        ensures EntryKey(c[i]) != EntryKey(c[j])
      {
        assert c[i].key != c[j].key;
      }
    }
    UniqueKeysPermutation(c, s, EntryKey);
    assert t == s[..|t|];
    forall i, j | 0 <= i < j < |t|
      ensures t[i].key != t[j].key
    {
      assert EntryKey(s[i]) != EntryKey(s[j]);
    }
  }

  function EntryKey(e: Entry<string, int>): Key { Key(0, e.key) }

  /** One count per id of the sessions that have one, each the number of
      those sessions. */
  lemma SessionCountsSpec(sessions: seq<Session>, groupOf: Session -> Option<string>)
    ensures var c := SessionCounts(sessions, groupOf);
      DistinctKeys(c) &&
      (forall e :: e in c ==> e.val == Count(sessions, WithGroup(groupOf, e.key)) >= 1) &&
      (forall s :: s in sessions && groupOf(s).Some? ==> exists e :: e in c && e.key == groupOf(s).value)
  {
    var having := Filter(sessions, HasGroup(groupOf));
    var c := SessionCounts(sessions, groupOf);
    GroupFoldKeys(having, GroupValue(groupOf), NoSessions, CountOne);
    forall e | e in c
      ensures e.val == Count(sessions, WithGroup(groupOf, e.key)) >= 1
    {
      var i :| 0 <= i < |c| && c[i] == e;
      GroupFoldEntry(having, GroupValue(groupOf), NoSessions, CountOne, i);
      var f := Filter(having, KeyIs(GroupValue(groupOf), e.key));
      FoldLeftSum(0, f, CountOne, Identity, One);
      SumByOne(f, One);
      FilterBoth(sessions, HasGroup(groupOf), KeyIs(GroupValue(groupOf), e.key), WithGroup(groupOf, e.key));
    }
    forall s | s in sessions && groupOf(s).Some?
      ensures exists e :: e in c && e.key == groupOf(s).value
    {
      assert s in having;
      GroupFoldHasKey(having, GroupValue(groupOf), NoSessions, CountOne, s);
      var i :| 0 <= i < |c| && KeysOf(c)[i] == groupOf(s).value;
      assert c[i] in c;
    }
  }

  /** Each listed class carries its count and the name of the class with
      that id, or "Unknown Class" when no class has it or its name is empty. */
  lemma TopClassesNames(sessions: seq<Session>, classes: seq<Class>, limit: nat)
    ensures var t := TopCounts(sessions, SessionClass, limit);
      var r := GetTopClasses(sessions, classes, limit);
      |r| == |t| &&
      forall i :: 0 <= i < |r| ==>
        r[i].count == t[i].val &&
        ((forall c :: c in classes ==> c.id != t[i].key) ==> r[i].name == UNKNOWN_CLASS) &&
        (forall c :: FindById(classes, ClassId, t[i].key) == Some(c) ==>
           r[i].name == if c.name != "" then c.name else UNKNOWN_CLASS)
  {
  }

  /** Each listed subject carries its count and the name of the subject
      with that id, or "Unknown Subject". */
  lemma TopSubjectsNames(sessions: seq<Session>, subjects: seq<Subject>, limit: nat)
    ensures var t := TopCounts(sessions, SessionSubject, limit);
      var r := GetTopSubjects(sessions, subjects, limit);
      |r| == |t| &&
      forall i :: 0 <= i < |r| ==>
        r[i].count == t[i].val &&
        ((forall s :: s in subjects ==> s.id != t[i].key) ==> r[i].name == UNKNOWN_SUBJECT) &&
        (forall s :: FindById(subjects, SubjectId, t[i].key) == Some(s) ==>
           r[i].name == if s.name != "" then s.name else UNKNOWN_SUBJECT)
  {
  }
}
