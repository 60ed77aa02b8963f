/** The analytics service: the overview (signup trend, chat and message
    totals, the five most active classes and subjects), the per-class and
    per-subject totals ranked by messages, and the chats trend by day. Each
    is a fold over the repository's daily rows; the functions take those
    rows, and the `Get…` functions feed them from the tables. */
module AnalyticsService {
  import opened Wrappers
  import opened Seqs
  import opened Sorting
  import opened Schema
  import opened Dicts
  import opened AnalyticsRepository

  /** `{ date, value }` of the active-users trend. */
  datatype TrendPoint = TrendPoint(day: int, value: int)

  /** `{ name, activity }`: an id and its summed messages. */
  datatype Activity = Activity(name: string, activity: int)

  datatype Overview = Overview(totalUsers: int, activeUsersTrend: seq<TrendPoint>, totalChats: int,
                               totalMessages: int, topClasses: seq<Activity>, topSubjects: seq<Activity>)

  const TOP_N := 5

  function TrendOf(s: DailyUserStats): TrendPoint { TrendPoint(s.day, s.activeUsers) }

  function NoMessages(id: string): int { 0 }

  /** `acc[id] = (acc[id] || 0) + curr.messages`. */
  function AddMessages(n: int, r: DailyGroupStats): int { n + r.messages }

  function ActivityOf(e: Entry<string, int>): Activity { Activity(e.key, e.val) }

  /** `sort((a, b) => b.activity - a.activity)` sorts on this, descending. */
  function ActivityKey(a: Activity): Key { Key(a.activity, "") }

  function ActivityName(a: Activity): Key { Key(0, a.name) }

  /** The top entries of a ranking: sorted by activity, descending, then
      `slice(0, 5)`. */
  function TopOf(ranking: seq<Activity>): seq<Activity> {
    Take(SortBy(ranking, ActivityKey, true), TOP_N)
  }

  /** Summed messages per id, in the order the ids first occur
      (`Object.entries` of the reduce). */
  function MessagesById(rows: seq<DailyGroupStats>): seq<Activity> {
    Map(GroupFold(rows, GroupIdOf, NoMessages, AddMessages), ActivityOf)
  }

  /** `getOverview(range)` once the repository has answered. */
  function OverviewOf(userStats: seq<DailyUserStats>, totalUsers: int, classStats: seq<DailyGroupStats>,
                      subjectStats: seq<DailyGroupStats>): Overview
  {
    Overview(totalUsers, Map(userStats, TrendOf), SumBy(classStats, Chats), SumBy(classStats, Messages),
             TopOf(MessagesById(classStats)), TopOf(MessagesById(subjectStats)))
  }

  /** `getOverview(range)` over the tables; `getTotalUsers` counts every user. */
  function GetOverview(users: seq<User>, sessions: seq<Session>, messages: seq<Message>, range: DateRange): Overview {
    OverviewOf(GetDailyUserStats(users, range), |users|,
               DailyGroupRows(sessions, messages, range, SessionClass, None),
               DailyGroupRows(sessions, messages, range, SessionSubject, None))
  }

  predicate UniqueNames(s: seq<Activity>) {
    UniqueKeys(s, ActivityName)
  }

  /** The top of a ranking has min(5, n) entries taken from it, in
      non-increasing activity; whatever is left out has no more activity
      than anything kept; and distinct names stay distinct. */
  lemma TopOfSpec(ranking: seq<Activity>)
    ensures var t := TopOf(ranking);
      |t| == (if |ranking| < TOP_N then |ranking| else TOP_N) &&
      (forall a :: a in t ==> a in ranking) &&
      (forall i, j :: 0 <= i < j < |t| ==> t[i].activity >= t[j].activity) &&
      (forall x :: x in ranking && x !in t ==> forall a :: a in t ==> a.activity >= x.activity) &&
      (UniqueNames(ranking) ==> UniqueNames(t))
  {
    var s := SortBy(ranking, ActivityKey, true);
    var t := TopOf(ranking);
    TopN(ranking, ActivityKey, true, TOP_N);
    forall i, j | 0 <= i < j < |t|
      ensures t[i].activity >= t[j].activity
    {
      assert Before(ActivityKey(t[i]), ActivityKey(t[j]), true);
    }
    forall x, a | x in ranking && x !in t && a in t
      ensures a.activity >= x.activity
    {
      assert Before(ActivityKey(a), ActivityKey(x), true);
    }
    if UniqueNames(ranking) {
      TopUnique(ranking);
    }
  }

  lemma TopUnique(ranking: seq<Activity>)
    requires UniqueNames(ranking)
    ensures UniqueNames(TopOf(ranking))
  {
    var s := SortBy(ranking, ActivityKey, true);
    var t := TopOf(ranking);
    UniqueKeysPermutation(ranking, s, ActivityName);
    assert t == s[..|t|];
    forall i, j | 0 <= i < j < |t|
      ensures ActivityName(t[i]) != ActivityName(t[j])
    {
      assert t[i] == s[i] && t[j] == s[j];
    }
  }

  /** One entry per id of the rows, each carrying the sum of that id's
      messages; every id in the rows has its entry. */
  lemma MessagesByIdSpec(rows: seq<DailyGroupStats>)
    ensures var m := MessagesById(rows);
      UniqueNames(m) &&
      (forall a :: a in m ==> RowsOf(rows, a.name) != [] && a.activity == SumBy(RowsOf(rows, a.name), Messages)) &&
      (forall r :: r in rows ==> exists a :: a in m && a.name == r.groupId)
  {
    var d := GroupFold(rows, GroupIdOf, NoMessages, AddMessages);
    var m := MessagesById(rows);
    GroupFoldKeys(rows, GroupIdOf, NoMessages, AddMessages);
    assert UniqueNames(m) by {
      forall i, j | 0 <= i < j < |m|
        ensures ActivityName(m[i]) != ActivityName(m[j])
      {
        assert d[i].key != d[j].key;
      }
    }
    forall a | a in m
      ensures RowsOf(rows, a.name) != [] && a.activity == SumBy(RowsOf(rows, a.name), Messages)
    {
      var i :| 0 <= i < |m| && m[i] == a;
      GroupFoldEntry(rows, GroupIdOf, NoMessages, AddMessages, i);
      FoldLeftSum(0, RowsOf(rows, a.name), AddMessages, Identity, Messages);
    }
    forall r | r in rows
      ensures exists a :: a in m && a.name == r.groupId
    {
      GroupFoldHasKey(rows, GroupIdOf, NoMessages, AddMessages, r);
      assert r.groupId in KeysOf(d);
      var i :| 0 <= i < |d| && KeysOf(d)[i] == r.groupId;
      assert m[i] in m;
    }
  }

  /** `topClasses` (and `topSubjects`): at most five distinct ids, most
      messages first, each with its summed messages; an id of the rows that
      did not make it has no more messages than any that did. */
  lemma TopByMessages(rows: seq<DailyGroupStats>)
    ensures var t := TopOf(MessagesById(rows));
      |t| <= TOP_N && UniqueNames(t) &&
      (forall i, j :: 0 <= i < j < |t| ==> t[i].activity >= t[j].activity) &&
      (forall a :: a in t ==> RowsOf(rows, a.name) != [] && a.activity == SumBy(RowsOf(rows, a.name), Messages)) &&
      (forall r :: r in rows && (forall a :: a in t ==> a.name != r.groupId) ==>
        forall a :: a in t ==> a.activity >= SumBy(RowsOf(rows, r.groupId), Messages))
  {
    var m := MessagesById(rows);
    var t := TopOf(m);
    MessagesByIdSpec(rows);
    TopOfSpec(m);
    forall r | r in rows && (forall a :: a in t ==> a.name != r.groupId)
      ensures forall a :: a in t ==> a.activity >= SumBy(RowsOf(rows, r.groupId), Messages)
    {
      var x :| x in m && x.name == r.groupId;
      assert x !in t;
    }
  }

  /** Over the tables, the overview's chats count the sessions created in
      the range and its messages add up those sessions' messages; its trend
      has one point per day with a signup. */
  lemma GetOverviewCounts(users: seq<User>, sessions: seq<Session>, messages: seq<Message>, range: DateRange)
    ensures var o := GetOverview(users, sessions, messages, range);
      var scoped := Filter(sessions, InScope(range, SessionClass, None));
      o.totalUsers == |users| &&
      o.totalChats == |scoped| && o.totalMessages == SumBy(scoped, SessionMessageCount(messages)) &&
      |o.activeUsersTrend| == |GetDailyUserStats(users, range)| &&
      forall p :: p in o.activeUsersTrend ==> p.value == |SignupsOn(users, range, p.day)| >= 1
  {
    var o := GetOverview(users, sessions, messages, range);
    var u := GetDailyUserStats(users, range);
    DailyGroupRowsTotals(sessions, messages, range, SessionClass, None);
    DailyUserStatsSpec(users, range);
    forall p | p in o.activeUsersTrend
      ensures p.value == |SignupsOn(users, range, p.day)| >= 1
    {
      var i :| 0 <= i < |o.activeUsersTrend| && o.activeUsersTrend[i] == p;
      assert p == TrendOf(u[i]);
    }
  }

  /** The worked case: two user rows, one class row with 5 chats and 10
      messages, no subject rows, 100 users. */
  lemma OverviewExample()
    ensures var o := OverviewOf([DailyUserStats(0, 10, 50, 5), DailyUserStats(1, 20, 55, 5)], 100,
                                [DailyGroupStats(0, "C1", 5, 10, 5)], []);
      o.totalUsers == 100 && |o.activeUsersTrend| == 2 && o.totalChats == 5 && o.totalMessages == 10
  {
  }

  // ----- getClassesStats and getSubjectsStats -----

  function MessagesKey(t: GroupTotals): Key { Key(t.messages, "") }

  function TotalsName(t: GroupTotals): Key { Key(0, t.groupId) }

  /** The shared body of `getClassesStats` and `getSubjectsStats`: the
      per-id totals (`name` is the id again), most messages first. */
  function RankedTotals(rows: seq<DailyGroupStats>): seq<GroupTotals> {
    SortBy(AggregateByGroup(rows), MessagesKey, true)
  }

  /** `getClassesStats(range)`. */
  function GetClassesStats(sessions: seq<Session>, messages: seq<Message>, range: DateRange): seq<GroupTotals> {
    RankedTotals(DailyGroupRows(sessions, messages, range, SessionClass, None))
  }

  /** `getSubjectsStats(range)`. */
  function GetSubjectsStats(sessions: seq<Session>, messages: seq<Message>, range: DateRange): seq<GroupTotals> {
    RankedTotals(DailyGroupRows(sessions, messages, range, SessionSubject, None))
  }

  /** One entry per id of the rows and none other, no id twice; each sums
      its id's chats and messages and takes the largest active-students
      value; most messages first; the messages add up to all the rows'. */
  lemma RankedTotalsSpec(rows: seq<DailyGroupStats>)
    ensures var r := RankedTotals(rows);
      UniqueKeys(r, TotalsName) &&
      (forall t :: t in r ==> RowsOf(rows, t.groupId) != []) &&
      (forall x :: x in rows ==> exists t :: t in r && t.groupId == x.groupId) &&
      (forall t :: t in r ==>
        t.chats == SumBy(RowsOf(rows, t.groupId), Chats) &&
        t.messages == SumBy(RowsOf(rows, t.groupId), Messages) &&
        t.activeStudents == MaxFrom(0, RowsOf(rows, t.groupId), ActiveStudents)) &&
      (forall i, j :: 0 <= i < j < |r| ==> r[i].messages >= r[j].messages) &&
      SumBy(r, TotalMessages) == SumBy(rows, Messages)
  {
    var a := AggregateByGroup(rows);
    var r := RankedTotals(rows);
    AggregateByGroupSpec(rows);
    AggregateCovers(rows);
    UniqueKeysPermutation(a, r, TotalsName);
    forall t | t in r
      ensures t in a
    {
      assert t in multiset(a);
    }
    forall x | x in rows
      ensures exists t :: t in r && t.groupId == x.groupId
    {
      var t :| t in a && t.groupId == x.groupId;
      assert t in multiset(r);
    }
    forall i, j | 0 <= i < j < |r|
      ensures r[i].messages >= r[j].messages
    {
      assert Before(MessagesKey(r[i]), MessagesKey(r[j]), true);
    }
    SumByPermutation(a, r, TotalMessages);
  }

  /** The per-id totals, before ranking, have one entry per id of the rows. */
  lemma AggregateCovers(rows: seq<DailyGroupStats>)
    ensures var a := AggregateByGroup(rows);
      UniqueKeys(a, TotalsName) && forall x :: x in rows ==> exists t :: t in a && t.groupId == x.groupId
  {
    var a := AggregateByGroup(rows);
    var ids := Map(a, TotalsGroup);
    AggregateByGroupSpec(rows);
    GroupFoldKeys(rows, GroupIdOf, BlankTotals, AddRow);
    forall i, j | 0 <= i < j < |a|
      ensures TotalsName(a[i]) != TotalsName(a[j])
    {
      assert ids[i] == a[i].groupId && ids[j] == a[j].groupId;
    }
    forall x | x in rows
      ensures exists t :: t in a && t.groupId == x.groupId
    {
      assert x.groupId in Map(rows, GroupIdOf);
      var i :| 0 <= i < |a| && ids[i] == x.groupId;
      assert a[i] in a;
    }
  }

  /** The per-class messages add up to the overview's `totalMessages` for
      the same range. */
  lemma ClassesStatsMatchOverview(users: seq<User>, sessions: seq<Session>, messages: seq<Message>, range: DateRange)
    ensures SumBy(GetClassesStats(sessions, messages, range), TotalMessages) ==
            GetOverview(users, sessions, messages, range).totalMessages
  {
    RankedTotalsSpec(DailyGroupRows(sessions, messages, range, SessionClass, None));
  }

  // ----- getChatsTrend -----

  /** `{ date, chats, messages }` of the chats trend. */
  datatype DayTotals = DayTotals(day: int, chats: int, messages: int)

  function RowDay(r: DailyGroupStats): int { r.day }

  function BlankDay(day: int): DayTotals { DayTotals(day, 0, 0) }

  function AddDay(t: DayTotals, r: DailyGroupStats): DayTotals {
    t.(chats := t.chats + r.chats, messages := t.messages + r.messages)
  }

  function DayTotalsDay(t: DayTotals): int { t.day }

  function DayTotalsKey(t: DayTotals): Key { Key(t.day, "") }

  function DayChats(t: DayTotals): int { t.chats }

  function DayMessages(t: DayTotals): int { t.messages }

  /** The reduce by date, then the sort by date. */
  function ChatsTrend(rows: seq<DailyGroupStats>): seq<DayTotals> {
    SortBy(ValuesOf(GroupFold(rows, RowDay, BlankDay, AddDay)), DayTotalsKey, false)
  }

  /** `getChatsTrend(range)`. */
  function GetChatsTrend(sessions: seq<Session>, messages: seq<Message>, range: DateRange): seq<DayTotals> {
    ChatsTrend(DailyGroupRows(sessions, messages, range, SessionClass, None))
  }

  function RowsOn(rows: seq<DailyGroupStats>, day: int): seq<DailyGroupStats> {
    Filter(rows, KeyIs(RowDay, day))
  }

  /** Days strictly ascending, each a day of the rows with the sums of
      that day's chats and messages; every day of the rows is present. */
  lemma ChatsTrendSpec(rows: seq<DailyGroupStats>)
    ensures var r := ChatsTrend(rows);
      (forall i, j :: 0 <= i < j < |r| ==> r[i].day < r[j].day) &&
      (forall t :: t in r ==>
        RowsOn(rows, t.day) != [] && t.chats == SumBy(RowsOn(rows, t.day), Chats) && t.messages == SumBy(RowsOn(rows, t.day), Messages)) &&
      (forall x :: x in rows ==> exists t :: t in r && t.day == x.day)
  {
    var d := GroupFold(rows, RowDay, BlankDay, AddDay);
    var vs := ValuesOf(d);
    var r := ChatsTrend(rows);
    GroupFoldKeys(rows, RowDay, BlankDay, AddDay);
    GroupFoldValuesKeyed(rows, RowDay, BlankDay, AddDay, DayTotalsDay);
    assert UniqueKeys(vs, DayTotalsKey) by {
      forall i, j | 0 <= i < j < |vs|
        ensures DayTotalsKey(vs[i]) != DayTotalsKey(vs[j])
      {
        assert d[i].key != d[j].key;
      }
    }
    UniqueKeysPermutation(vs, r, DayTotalsKey);
    forall i, j | 0 <= i < j < |r|
      ensures r[i].day < r[j].day
    {
      assert Before(DayTotalsKey(r[i]), DayTotalsKey(r[j]), false);
    }
    forall t | t in r
      ensures RowsOn(rows, t.day) != [] &&
        t.chats == SumBy(RowsOn(rows, t.day), Chats) && t.messages == SumBy(RowsOn(rows, t.day), Messages)
    {
      assert t in multiset(vs);
      var i :| 0 <= i < |vs| && vs[i] == t;
      GroupFoldEntry(rows, RowDay, BlankDay, AddDay, i);
      FoldLeftSum(BlankDay(t.day), RowsOn(rows, t.day), AddDay, DayChats, Chats);
      FoldLeftSum(BlankDay(t.day), RowsOn(rows, t.day), AddDay, DayMessages, Messages);
    }
    forall x | x in rows
      ensures exists t :: t in r && t.day == x.day
    {
      GroupFoldHasKey(rows, RowDay, BlankDay, AddDay, x);
      var i :| 0 <= i < |d| && KeysOf(d)[i] == x.day;
      assert vs[i] in multiset(r);
    }
  }

  /** Summed over the trend, chats count the sessions created in the range
      and messages add up their messages. */
  lemma ChatsTrendTotals(sessions: seq<Session>, messages: seq<Message>, range: DateRange)
    ensures var r := GetChatsTrend(sessions, messages, range);
      var scoped := Filter(sessions, InScope(range, SessionClass, None));
      SumBy(r, DayChats) == |scoped| && SumBy(r, DayMessages) == SumBy(scoped, SessionMessageCount(messages))
  {
    var rows := DailyGroupRows(sessions, messages, range, SessionClass, None);
    var d := GroupFold(rows, RowDay, BlankDay, AddDay);
    DailyGroupRowsTotals(sessions, messages, range, SessionClass, None);
    GroupFoldSum(rows, RowDay, BlankDay, AddDay, DayChats, Chats);
    GroupFoldSum(rows, RowDay, BlankDay, AddDay, DayMessages, Messages);
    SumValues(d, DayChats);
    SumValues(d, DayMessages);
    SumByPermutation(ValuesOf(d), GetChatsTrend(sessions, messages, range), DayChats);
    SumByPermutation(ValuesOf(d), GetChatsTrend(sessions, messages, range), DayMessages);
  }
}
