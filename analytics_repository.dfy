/** The analytics repository: per-day signup counts, per-day chat and
    message counts grouped by class or by subject, and the per-class
    totals built from those daily rows. The database queries are filters
    over the tables; the grouping is a dictionary filled item by item. */
module AnalyticsRepository {
  import opened Wrappers
  import opened Seqs
  import opened Sorting
  import opened Schema
  import opened Dicts
  import ChatRepository

  const DAY_MS := 86400000

  /** The UTC calendar day of a timestamp, `toISOString().split('T')[0]`,
      as a day number. */
  function DayOf(t: int): int {
    t / DAY_MS
  }

  /** `startOfDay(t)`, on UTC days. */
  function StartOfDay(t: int): int {
    DayOf(t) * DAY_MS
  }

  /** `{ gte: from, lte: to }`: both ends are inclusive. */
  datatype DateRange = DateRange(from: int, to: int)

  predicate InRange(range: DateRange, t: int) {
    range.from <= t <= range.to
  }

  // ----- getDailyUserStats and groupByDay -----

  /** `item[dateField]`, then its day. */
  function DayField<T>(field: T -> int): T -> int {
    (x: T) => DayOf(field(x))
  }

  function NoneCounted(day: int): int { 0 }

  function CountOne<T>(n: int, x: T): int { n + 1 }

  /** `groupByDay(items, dateField)`: how many items fall on each day, in
      the order the days first occur. */
  function GroupByDay<T(!new)>(items: seq<T>, field: T -> int): seq<Entry<int, int>> {
    GroupFold(items, DayField(field), NoneCounted, CountOne)
  }

  function Identity(n: int): int { n }

  function One<T>(x: T): int { 1 }

  /** Every day of the result is a day some item falls on, counted
      exactly; every item's day is present; the counts add up to the
      number of items. */
  lemma GroupByDayCounts<T(!new)>(items: seq<T>, field: T -> int)
    ensures var d := GroupByDay(items, field);
      DistinctKeys(d) &&
      (forall i :: 0 <= i < |d| ==> d[i].val == |Filter(items, KeyIs(DayField(field), d[i].key))| >= 1) &&
      (forall x :: x in items ==> DayOf(field(x)) in KeysOf(d)) &&
      SumBy(d, ValMeasure(Identity)) == |items|
  {
    var d := GroupByDay(items, field);
    GroupFoldKeys(items, DayField(field), NoneCounted, CountOne);
    forall i | 0 <= i < |d|
      ensures d[i].val == |Filter(items, KeyIs(DayField(field), d[i].key))| >= 1
    {
      GroupFoldEntry(items, DayField(field), NoneCounted, CountOne, i);
      var f := Filter(items, KeyIs(DayField(field), d[i].key));
      FoldLeftSum(0, f, CountOne, Identity, One);
      SumByOne(f, One);
    }
    forall x | x in items
      ensures DayOf(field(x)) in KeysOf(d)
    {
      GroupFoldHasKey(items, DayField(field), NoneCounted, CountOne, x);
    }
    GroupFoldSum(items, DayField(field), NoneCounted, CountOne, Identity, One);
    SumByOne(items, One);
  }

  /** One row of `getDailyUserStats`; `id` and `date` are both the day. */
  datatype DailyUserStats = DailyUserStats(day: int, activeUsers: int, totalUsers: int, newUsers: int)

  function CreatedAt(u: User): int { u.createdAt }

  function UserCreatedIn(range: DateRange): User -> bool {
    (u: User) => InRange(range, u.createdAt)
  }

  function UserStatsOf(e: Entry<int, int>): DailyUserStats {
    DailyUserStats(e.key, e.val, 0, e.val)
  }

  function UserStatsDay(s: DailyUserStats): Key { Key(s.day, "") }

  function NewUsers(s: DailyUserStats): int { s.newUsers }

  /** `getDailyUserStats(range)`. */
  function GetDailyUserStats(users: seq<User>, range: DateRange): seq<DailyUserStats> {
    var signups := Filter(users, UserCreatedIn(range));
    SortBy(Map(GroupByDay(signups, CreatedAt), UserStatsOf), UserStatsDay, false)
  }

  /** The users who signed up in the range on that day. */
  function SignupsOn(users: seq<User>, range: DateRange, day: int): seq<User> {
    Filter(Filter(users, UserCreatedIn(range)), KeyIs(DayField(CreatedAt), day))
  }

  /** One row per day with a signup in the range, days strictly
      ascending; each row's new and active users are that day's signups
      and its total is 0; the new users add up to all signups in the
      range. */
  lemma DailyUserStatsSpec(users: seq<User>, range: DateRange)
    ensures var r := GetDailyUserStats(users, range);
      (forall i, j :: 0 <= i < j < |r| ==> r[i].day < r[j].day) &&
      (forall i :: 0 <= i < |r| ==>
        r[i].newUsers == r[i].activeUsers == |SignupsOn(users, range, r[i].day)| >= 1 && r[i].totalUsers == 0) &&
      (forall u :: u in users && InRange(range, u.createdAt) ==>
        exists i :: 0 <= i < |r| && r[i].day == DayOf(u.createdAt)) &&
      SumBy(r, NewUsers) == |Filter(users, UserCreatedIn(range))|
  {
    var signups := Filter(users, UserCreatedIn(range));
    var d := GroupByDay(signups, CreatedAt);
    var m := Map(d, UserStatsOf);
    var r := GetDailyUserStats(users, range);
    GroupByDayCounts(signups, CreatedAt);
    UserStatsDaysStrict(d, m, r);
    UserStatsRows(users, range, d, m, r);
    UserStatsCover(users, range, d, m, r);
    SumByPermutation(m, r, NewUsers);
    UserStatsSum(d);
  }

  lemma UserStatsRows(users: seq<User>, range: DateRange, d: seq<Entry<int, int>>, m: seq<DailyUserStats>,
                      r: seq<DailyUserStats>)
    requires d == GroupByDay(Filter(users, UserCreatedIn(range)), CreatedAt)
    requires m == Map(d, UserStatsOf) && multiset(r) == multiset(m)
    requires forall i :: 0 <= i < |d| ==>
      d[i].val == |Filter(Filter(users, UserCreatedIn(range)), KeyIs(DayField(CreatedAt), d[i].key))| >= 1
    ensures forall i :: 0 <= i < |r| ==>
      r[i].newUsers == r[i].activeUsers == |SignupsOn(users, range, r[i].day)| >= 1 && r[i].totalUsers == 0
  {
    forall i | 0 <= i < |r|
      ensures r[i].newUsers == r[i].activeUsers == |SignupsOn(users, range, r[i].day)| >= 1 && r[i].totalUsers == 0
    {
      assert r[i] in multiset(m);
      var j :| 0 <= j < |m| && m[j] == r[i];
    }
  }

  lemma UserStatsCover(users: seq<User>, range: DateRange, d: seq<Entry<int, int>>, m: seq<DailyUserStats>,
                       r: seq<DailyUserStats>)
    requires d == GroupByDay(Filter(users, UserCreatedIn(range)), CreatedAt)
    requires m == Map(d, UserStatsOf) && multiset(r) == multiset(m)
    requires forall x :: x in Filter(users, UserCreatedIn(range)) ==> DayOf(x.createdAt) in KeysOf(d)
    ensures forall u :: u in users && InRange(range, u.createdAt) ==>
      exists i :: 0 <= i < |r| && r[i].day == DayOf(u.createdAt)
  {
    forall u | u in users && InRange(range, u.createdAt)
      ensures exists i :: 0 <= i < |r| && r[i].day == DayOf(u.createdAt)
    {
      assert u in Filter(users, UserCreatedIn(range));
      assert DayOf(u.createdAt) in KeysOf(d);
      var j :| 0 <= j < |d| && KeysOf(d)[j] == DayOf(u.createdAt);
      assert m[j] in multiset(r);
      var i :| 0 <= i < |r| && r[i] == m[j];
    }
  }

  lemma {:induction false} UserStatsSum(d: seq<Entry<int, int>>)
    ensures SumBy(Map(d, UserStatsOf), NewUsers) == SumBy(d, ValMeasure(Identity))
    decreases |d|
  {
    if d != [] {
      assert Map(d, UserStatsOf)[1..] == Map(d[1..], UserStatsOf);
      assert NewUsers(Map(d, UserStatsOf)[0]) == ValMeasure(Identity)(d[0]);
      UserStatsSum(d[1..]);
    }
  }

  /** Distinct days stay distinct through the sort, so it orders them strictly. */
  lemma UserStatsDaysStrict(d: seq<Entry<int, int>>, m: seq<DailyUserStats>, r: seq<DailyUserStats>)
    requires DistinctKeys(d) && m == Map(d, UserStatsOf) && r == SortBy(m, UserStatsDay, false)
    ensures forall i, j :: 0 <= i < j < |r| ==> r[i].day < r[j].day
  {
    assert UniqueKeys(m, UserStatsDay) by {
      forall i, j | 0 <= i < j < |m|
        ensures UserStatsDay(m[i]) != UserStatsDay(m[j])
      {
        assert d[i].key != d[j].key;
      }
    }
    UniqueKeysPermutation(m, r, UserStatsDay);
    forall i, j | 0 <= i < j < |r|
      ensures r[i].day < r[j].day
    {
      assert Before(UserStatsDay(r[i]), UserStatsDay(r[j]), false);
      assert UserStatsDay(r[i]) != UserStatsDay(r[j]);
    }
  }

  // ----- getDailyClassStats and getDailySubjectStats -----

  /** One row of the daily class (or subject) statistics; `groupId` is the
      class (or subject) id, and the row's `id` is `<day>_<groupId>`. */
  datatype DailyGroupStats = DailyGroupStats(day: int, groupId: string, chats: int, messages: int, activeStudents: int)

  const UNKNOWN := "unknown"

  /** `session.classId || 'unknown'`. */
  function GroupOr(g: Option<string>): string {
    if Truthy(g) then g.value else UNKNOWN
  }

  function SessionClass(s: Session): Option<string> { s.classId }

  function SessionSubject(s: Session): Option<string> { s.subjectId }

  /** The query's `where`: created in the range and, when a non-empty id
      is given, in that class (or subject). */
  function InScope(range: DateRange, groupOf: Session -> Option<string>, filterId: Option<string>): Session -> bool {
    (s: Session) => InRange(range, s.createdAt) && (Truthy(filterId) ==> groupOf(s) == filterId)
  }

  /** The dictionary key `${dateKey}_${cId}`: the day and the group. */
  function DayGroup(groupOf: Session -> Option<string>): Session -> (int, string) {
    (s: Session) => (DayOf(s.createdAt), GroupOr(groupOf(s)))
  }

  function BlankStats(k: (int, string)): DailyGroupStats {
    DailyGroupStats(k.0, k.1, 0, 0, 0)
  }

  /** `session.messages.length`: every message of the session, whatever its date. */
  function MessageCount(messages: seq<Message>, s: Session): int {
    |Filter(messages, ChatRepository.InSession(s.id))|
  }

  /** `chats += 1; messages += session.messages.length`. */
  function Tally(messages: seq<Message>): (DailyGroupStats, Session) -> DailyGroupStats {
    (r: DailyGroupStats, s: Session) => r.(chats := r.chats + 1, messages := r.messages + MessageCount(messages, s))
  }

  function StatsDay(r: DailyGroupStats): Key { Key(r.day, "") }

  /** The rows the query and the `forEach` produce, sorted by day. */
  function DailyGroupRows(sessions: seq<Session>, messages: seq<Message>, range: DateRange,
                          groupOf: Session -> Option<string>, filterId: Option<string>): seq<DailyGroupStats>
  {
    var scoped := Filter(sessions, InScope(range, groupOf, filterId));
    SortBy(ValuesOf(GroupFold(scoped, DayGroup(groupOf), BlankStats, Tally(messages))), StatsDay, false)
  }

  /** One turn of the `forEach`: start the day's row if it is new, then
      count the session and its messages. */
  method AddSession(dailyStats: seq<Entry<(int, string), DailyGroupStats>>, key: (int, string),
                    session: Session, messages: seq<Message>)
    returns (r: seq<Entry<(int, string), DailyGroupStats>>)
    ensures r == Put(dailyStats, key, Tally(messages)(GetOr(dailyStats, key, BlankStats(key)), session))
  {
    var current := Get(dailyStats, key);
    var stat := if current.None? then BlankStats(key) else current.value;
    ghost var before := stat;
    assert before == GetOr(dailyStats, key, BlankStats(key));
    stat := stat.(chats := stat.chats + 1);
    stat := stat.(messages := stat.messages + MessageCount(messages, session));
    assert stat == Tally(messages)(before, session);
    r := Put(dailyStats, key, stat);
  }

  /** The shared body of `getDailyClassStats` and `getDailySubjectStats`. */
  method DailyStats(sessions: seq<Session>, messages: seq<Message>, range: DateRange,
                    groupOf: Session -> Option<string>, filterId: Option<string>)
    returns (rows: seq<DailyGroupStats>)
    ensures rows == DailyGroupRows(sessions, messages, range, groupOf, filterId)
  {
    var found := Filter(sessions, InScope(range, groupOf, filterId));
    var dailyStats: seq<Entry<(int, string), DailyGroupStats>> := [];
    var i := 0;
    while i < |found|
      invariant 0 <= i <= |found|
      invariant dailyStats == GroupFold(found[..i], DayGroup(groupOf), BlankStats, Tally(messages))
    {
      var session := found[i];
      var key := (DayOf(session.createdAt), GroupOr(groupOf(session)));
      assert key == DayGroup(groupOf)(session);
      GroupFoldStep(found, i, DayGroup(groupOf), BlankStats, Tally(messages));
      dailyStats := AddSession(dailyStats, key, session, messages);
      i := i + 1;
    }
    assert found[..i] == found;
    rows := SortBy(ValuesOf(dailyStats), StatsDay, false);
  }

  /** `getDailyClassStats(range, classId?)`. */
  method GetDailyClassStats(sessions: seq<Session>, messages: seq<Message>, range: DateRange, classId: Option<string>)
    returns (rows: seq<DailyGroupStats>)
    ensures rows == DailyGroupRows(sessions, messages, range, SessionClass, classId)
  {
    rows := DailyStats(sessions, messages, range, SessionClass, classId);
  }

  /** `getDailySubjectStats(range, subjectId?)`. */
  method GetDailySubjectStats(sessions: seq<Session>, messages: seq<Message>, range: DateRange, subjectId: Option<string>)
    returns (rows: seq<DailyGroupStats>)
    ensures rows == DailyGroupRows(sessions, messages, range, SessionSubject, subjectId)
  {
    rows := DailyStats(sessions, messages, range, SessionSubject, subjectId);
  }

  /** The sessions counted in the row of a day and group. */
  function SessionsOf(sessions: seq<Session>, range: DateRange, groupOf: Session -> Option<string>,
                      filterId: Option<string>, day: int, groupId: string): seq<Session>
  {
    Filter(Filter(sessions, InScope(range, groupOf, filterId)), KeyIs(DayGroup(groupOf), (day, groupId)))
  }

  function Chats(r: DailyGroupStats): int { r.chats }

  function Messages(r: DailyGroupStats): int { r.messages }

  function ActiveStudents(r: DailyGroupStats): int { r.activeStudents }

  function SessionMessageCount(messages: seq<Message>): Session -> int {
    (s: Session) => MessageCount(messages, s)
  }

  /** Each row counts the in-scope sessions of its day and group (at
      least one), its messages are all the messages of those sessions, and
      its active students are 0; the rows are in day order. */
  lemma DailyGroupRowsMeaning(sessions: seq<Session>, messages: seq<Message>, range: DateRange,
                              groupOf: Session -> Option<string>, filterId: Option<string>)
    ensures var r := DailyGroupRows(sessions, messages, range, groupOf, filterId);
      Sorted(r, StatsDay, false) &&
      forall x :: x in r ==>
        var f := SessionsOf(sessions, range, groupOf, filterId, x.day, x.groupId);
        x.chats == |f| >= 1 && x.messages == SumBy(f, SessionMessageCount(messages)) && x.activeStudents == 0
  {
    var scoped := Filter(sessions, InScope(range, groupOf, filterId));
    var d := GroupFold(scoped, DayGroup(groupOf), BlankStats, Tally(messages));
    var r := DailyGroupRows(sessions, messages, range, groupOf, filterId);
    forall x | x in r
      ensures var f := SessionsOf(sessions, range, groupOf, filterId, x.day, x.groupId);
        x.chats == |f| >= 1 && x.messages == SumBy(f, SessionMessageCount(messages)) && x.activeStudents == 0
    {
      assert x in multiset(ValuesOf(d));
      var i :| 0 <= i < |d| && ValuesOf(d)[i] == x;
      DailyEntryMeaning(scoped, messages, groupOf, d, i);
    }
  }

  lemma DailyEntryMeaning(scoped: seq<Session>, messages: seq<Message>, groupOf: Session -> Option<string>,
                          d: seq<Entry<(int, string), DailyGroupStats>>, i: int)
    requires d == GroupFold(scoped, DayGroup(groupOf), BlankStats, Tally(messages)) && 0 <= i < |d|
    ensures var f := Filter(scoped, KeyIs(DayGroup(groupOf), (d[i].val.day, d[i].val.groupId)));
      d[i].val.chats == |f| >= 1 && d[i].val.messages == SumBy(f, SessionMessageCount(messages)) &&
      d[i].val.activeStudents == 0
  {
    var k := d[i].key;
    GroupFoldEntry(scoped, DayGroup(groupOf), BlankStats, Tally(messages), i);
    var f := Filter(scoped, KeyIs(DayGroup(groupOf), k));
    FoldLeftSum(BlankStats(k), f, Tally(messages), Chats, One);
    SumByOne(f, One);
    FoldLeftSum(BlankStats(k), f, Tally(messages), Messages, SessionMessageCount(messages));
    FoldLeftSum(BlankStats(k), f, Tally(messages), ActiveStudents, Zero);
    SumByZero(f, Zero);
    FoldLeftInvariant(BlankStats(k), f, Tally(messages), HasKey(k));
  }

  function Zero<T>(x: T): int { 0 }

  lemma {:induction false} SumByZero<T>(s: seq<T>, f: T -> int)
    requires forall x :: f(x) == 0
    ensures SumBy(s, f) == 0
    decreases |s|
  {
    if s != [] {
      SumByZero(s[1..], f);
    }
  }

  function HasKey(k: (int, string)): DailyGroupStats -> bool {
    (r: DailyGroupStats) => r.day == k.0 && r.groupId == k.1
  }

  /** Summed over all rows, chats count the sessions in scope and messages
      add up those sessions' messages. */
  lemma DailyGroupRowsTotals(sessions: seq<Session>, messages: seq<Message>, range: DateRange,
                             groupOf: Session -> Option<string>, filterId: Option<string>)
    ensures var r := DailyGroupRows(sessions, messages, range, groupOf, filterId);
      var scoped := Filter(sessions, InScope(range, groupOf, filterId));
      SumBy(r, Chats) == |scoped| && SumBy(r, Messages) == SumBy(scoped, SessionMessageCount(messages))
  {
    var scoped := Filter(sessions, InScope(range, groupOf, filterId));
    var d := GroupFold(scoped, DayGroup(groupOf), BlankStats, Tally(messages));
    var r := DailyGroupRows(sessions, messages, range, groupOf, filterId);
    GroupFoldSum(scoped, DayGroup(groupOf), BlankStats, Tally(messages), Chats, One);
    GroupFoldSum(scoped, DayGroup(groupOf), BlankStats, Tally(messages), Messages, SessionMessageCount(messages));
    SumByOne(scoped, One);
    SumValues(d, Chats);
    SumValues(d, Messages);
    SumByPermutation(ValuesOf(d), r, Chats);
    SumByPermutation(ValuesOf(d), r, Messages);
  }

  /** Every in-scope session has its row, and no two rows share a day and
      a group. */
  lemma DailyGroupRowsCover(sessions: seq<Session>, messages: seq<Message>, range: DateRange,
                            groupOf: Session -> Option<string>, filterId: Option<string>)
    ensures var r := DailyGroupRows(sessions, messages, range, groupOf, filterId);
      (forall s :: s in sessions && InScope(range, groupOf, filterId)(s) ==>
        exists x :: x in r && x.day == DayOf(s.createdAt) && x.groupId == GroupOr(groupOf(s))) &&
      (forall i, j :: 0 <= i < j < |r| ==> (r[i].day, r[i].groupId) != (r[j].day, r[j].groupId))
  {
    var scoped := Filter(sessions, InScope(range, groupOf, filterId));
    var d := GroupFold(scoped, DayGroup(groupOf), BlankStats, Tally(messages));
    var r := DailyGroupRows(sessions, messages, range, groupOf, filterId);
    assert r == SortBy(ValuesOf(d), StatsDay, false);
    GroupFoldKeys(scoped, DayGroup(groupOf), BlankStats, Tally(messages));
    GroupFoldValuesKeyed(scoped, DayGroup(groupOf), BlankStats, Tally(messages), StatsKey);
    DailyRowsCoverScope(sessions, range, groupOf, filterId, d, r);
    DailyRowsUnique(d, r);
  }

  /** A row's day and group. */
  function StatsKey(r: DailyGroupStats): (int, string) { (r.day, r.groupId) }

  /** Every session in scope has the row of its day and group. */
  lemma DailyRowsCoverScope(sessions: seq<Session>, range: DateRange, groupOf: Session -> Option<string>,
                            filterId: Option<string>, d: seq<Entry<(int, string), DailyGroupStats>>,
                            r: seq<DailyGroupStats>)
    requires KeysOf(d) == FirstOccurrences(Map(Filter(sessions, InScope(range, groupOf, filterId)), DayGroup(groupOf)))
    requires forall i :: 0 <= i < |d| ==> StatsKey(ValuesOf(d)[i]) == d[i].key
    requires multiset(r) == multiset(ValuesOf(d))
    ensures forall s :: s in sessions && InScope(range, groupOf, filterId)(s) ==>
      exists x :: x in r && x.day == DayOf(s.createdAt) && x.groupId == GroupOr(groupOf(s))
  {
    var scoped := Filter(sessions, InScope(range, groupOf, filterId));
    forall s | s in sessions && InScope(range, groupOf, filterId)(s)
      ensures exists x :: x in r && x.day == DayOf(s.createdAt) && x.groupId == GroupOr(groupOf(s))
    {
      assert s in scoped;
      var j :| 0 <= j < |scoped| && scoped[j] == s;
      assert Map(scoped, DayGroup(groupOf))[j] == DayGroup(groupOf)(s);
      assert DayGroup(groupOf)(s) in KeysOf(d);
      var i :| 0 <= i < |d| && KeysOf(d)[i] == DayGroup(groupOf)(s);
      assert ValuesOf(d)[i] in multiset(r);
    }
  }

  /** Distinct group keys make distinct rows, whatever their order. */
  lemma DailyRowsUnique(d: seq<Entry<(int, string), DailyGroupStats>>, r: seq<DailyGroupStats>)
    requires DistinctKeys(d)
    requires forall i :: 0 <= i < |d| ==> StatsKey(ValuesOf(d)[i]) == d[i].key
    requires multiset(r) == multiset(ValuesOf(d))
    ensures forall i, j :: 0 <= i < j < |r| ==> (r[i].day, r[i].groupId) != (r[j].day, r[j].groupId)
  {
    var vs := ValuesOf(d);
    assert UniqueKeys(vs, RowKey) by {
      forall i, j | 0 <= i < j < |vs|
        ensures RowKey(vs[i]) != RowKey(vs[j])
      {
        assert d[i].key != d[j].key;
      }
    }
    UniqueKeysPermutation(vs, r, RowKey);
    forall i, j | 0 <= i < j < |r|
      ensures (r[i].day, r[i].groupId) != (r[j].day, r[j].groupId)
    {
      assert RowKey(r[i]) != RowKey(r[j]);
    }
  }


  /** The day and group of a row, as a sort key. */
  function RowKey(r: DailyGroupStats): Key { Key(r.day, r.groupId) }

  // ----- getAggregatedClassStats -----

  /** One row of `getAggregatedClassStats` (and of the service's per-class
      and per-subject statistics, where `name` is the id again). */
  datatype GroupTotals = GroupTotals(groupId: string, activeStudents: int, chats: int, messages: int)

  function GroupIdOf(r: DailyGroupStats): string { r.groupId }

  function BlankTotals(groupId: string): GroupTotals { GroupTotals(groupId, 0, 0, 0) }

  /** `chats += curr.chats; messages += curr.messages;
      activeStudents = Math.max(activeStudents, curr.activeStudents)`. */
  function AddRow(t: GroupTotals, r: DailyGroupStats): GroupTotals {
    t.(chats := t.chats + r.chats, messages := t.messages + r.messages,
       activeStudents := Max(t.activeStudents, r.activeStudents))
  }

  /** The `reduce` by group id, then `Object.values`. */
  function AggregateByGroup(rows: seq<DailyGroupStats>): seq<GroupTotals> {
    ValuesOf(GroupFold(rows, GroupIdOf, BlankTotals, AddRow))
  }

  /** `getAggregatedClassStats(range)`: the per-class totals over every class. */
  function GetAggregatedClassStats(sessions: seq<Session>, messages: seq<Message>, range: DateRange): seq<GroupTotals> {
    AggregateByGroup(DailyGroupRows(sessions, messages, range, SessionClass, None))
  }

  function TotalChats(t: GroupTotals): int { t.chats }

  function TotalMessages(t: GroupTotals): int { t.messages }

  function TotalsGroup(t: GroupTotals): string { t.groupId }

  /** The rows of one group. */
  function RowsOf(rows: seq<DailyGroupStats>, groupId: string): seq<DailyGroupStats> {
    Filter(rows, KeyIs(GroupIdOf, groupId))
  }

  /** One total per distinct group id, in the order the ids first occur;
      each sums its group's chats and messages and takes the largest of 0
      and its rows' active students; nothing is lost or counted twice. */
  lemma AggregateByGroupSpec(rows: seq<DailyGroupStats>)
    ensures var a := AggregateByGroup(rows);
      Map(a, TotalsGroup) == FirstOccurrences(Map(rows, GroupIdOf)) &&
      (forall t :: t in a ==>
        t.chats == SumBy(RowsOf(rows, t.groupId), Chats) &&
        t.messages == SumBy(RowsOf(rows, t.groupId), Messages) &&
        t.activeStudents == MaxFrom(0, RowsOf(rows, t.groupId), ActiveStudents) &&
        RowsOf(rows, t.groupId) != []) &&
      SumBy(a, TotalChats) == SumBy(rows, Chats) && SumBy(a, TotalMessages) == SumBy(rows, Messages)
  {
    var d := GroupFold(rows, GroupIdOf, BlankTotals, AddRow);
    var a := AggregateByGroup(rows);
    GroupFoldKeys(rows, GroupIdOf, BlankTotals, AddRow);
    forall i | 0 <= i < |d|
      ensures a[i].groupId == d[i].key
      ensures var f := RowsOf(rows, d[i].key);
        a[i].chats == SumBy(f, Chats) && a[i].messages == SumBy(f, Messages) &&
        a[i].activeStudents == MaxFrom(0, f, ActiveStudents) && f != []
    {
      GroupFoldEntry(rows, GroupIdOf, BlankTotals, AddRow, i);
      var f := RowsOf(rows, d[i].key);
      FoldLeftSum(BlankTotals(d[i].key), f, AddRow, TotalChats, Chats);
      FoldLeftSum(BlankTotals(d[i].key), f, AddRow, TotalMessages, Messages);
      FoldLeftMax(BlankTotals(d[i].key), f, AddRow, TotalActive, ActiveStudents);
      FoldLeftInvariant(BlankTotals(d[i].key), f, AddRow, TotalsOf(d[i].key));
    }
    assert Map(a, TotalsGroup) == KeysOf(d);
    GroupFoldSum(rows, GroupIdOf, BlankTotals, AddRow, TotalChats, Chats);
    GroupFoldSum(rows, GroupIdOf, BlankTotals, AddRow, TotalMessages, Messages);
    SumValues(d, TotalChats);
    SumValues(d, TotalMessages);
  }

  function TotalActive(t: GroupTotals): int { t.activeStudents }

  function TotalsOf(groupId: string): GroupTotals -> bool {
    (t: GroupTotals) => t.groupId == groupId
  }

  /** The daily rows carry no active students, so neither do the totals;
      and the per-class chats add up to the sessions created in range. */
  lemma AggregatedClassStatsTotals(sessions: seq<Session>, messages: seq<Message>, range: DateRange)
    ensures var a := GetAggregatedClassStats(sessions, messages, range);
      (forall t :: t in a ==> t.activeStudents == 0) &&
      SumBy(a, TotalChats) == |Filter(sessions, InScope(range, SessionClass, None))|
  {
    var rows := DailyGroupRows(sessions, messages, range, SessionClass, None);
    DailyGroupRowsMeaning(sessions, messages, range, SessionClass, None);
    DailyGroupRowsTotals(sessions, messages, range, SessionClass, None);
    AggregateByGroupSpec(rows);
    forall t | t in GetAggregatedClassStats(sessions, messages, range)
      ensures t.activeStudents == 0
    {
      MaxOfZeros(RowsOf(rows, t.groupId));
    }
  }

  lemma MaxOfZeros(rs: seq<DailyGroupStats>)
    requires forall x :: x in rs ==> x.activeStudents == 0
    ensures MaxFrom(0, rs, ActiveStudents) == 0
  {
    MaxFromIsMax(0, rs, ActiveStudents);
  }
}
