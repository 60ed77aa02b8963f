/** The analytics routes `GET /api/admin/analytics/classes`, `…/subjects`
    and `…/chats`: read `from` and `to` from the query string, default the
    range to the thirty days before now, fetch the daily class (or subject)
    rows and fold them per id or per day. The clock, date parsing and a
    failing query are inputs. */
module AnalyticsRoutes {
  import opened Wrappers
  import opened Seqs
  import opened Sorting
  import opened Schema
  import opened Dicts
  import opened AnalyticsRepository

  /** `AnalyticsQuerySchema`: four optional strings. */
  datatype AnalyticsQuery = AnalyticsQuery(from: Option<string>, to: Option<string>,
                                           classId: Option<string>, subjectId: Option<string>)

  function Param(params: map<string, string>, name: string): Option<string> {
    if name in params then Some(params[name]) else None
  }

  /** `AnalyticsQuerySchema.safeParse(Object.fromEntries(searchParams))`.
      Every query-string value is a string, so the parse cannot fail. */
  function ParseQuery(params: map<string, string>): (r: Result<AnalyticsQuery, string>)
    ensures r.Success?
    ensures r.value.from == (if "from" in params then Some(params["from"]) else None)
    ensures r.value.to == (if "to" in params then Some(params["to"]) else None)
  {
    Success(AnalyticsQuery(Param(params, "from"), Param(params, "to"), Param(params, "classId"), Param(params, "subjectId")))
  }

  const DEFAULT_DAYS := 30

  /** `startOfDay(subDays(now, 30))`. */
  function DefaultFrom(now: int): int {
    StartOfDay(now - DEFAULT_DAYS * DAY_MS)
  }

  /** The default start is midnight at the start of the day thirty days
      before now: at most thirty-one days back, at least thirty. */
  lemma DefaultFromBounds(now: int)
    ensures DefaultFrom(now) % DAY_MS == 0
    ensures now - (DEFAULT_DAYS + 1) * DAY_MS < DefaultFrom(now) <= now - DEFAULT_DAYS * DAY_MS
  {
    var t := now - DEFAULT_DAYS * DAY_MS;
    assert t == DayOf(t) * DAY_MS + t % DAY_MS;
  }

  /** The range: a truthy `from` or `to` is parsed (`new Date(…)`), and a
      missing or empty one takes its default. `None` when a given date does
      not parse, which makes the query throw. */
  function RangeOf(q: AnalyticsQuery, now: int, parseDate: string -> Option<int>): Option<DateRange> {
    var from := if Truthy(q.from) then parseDate(q.from.value) else Some(DefaultFrom(now));
    var to := if Truthy(q.to) then parseDate(q.to.value) else Some(now);
    if from.None? || to.None? then None else Some(DateRange(from.value, to.value))
  }

  /** The reply: a JSON body with status 200, or `{ error }` with a status. */
  datatype Reply<T> = Ok(body: T) | Err(status: int, error: string)

  const INVALID_PARAMS: string := "Invalid params"
  const SERVER_ERROR: string := "Internal Server Error"

  /** The shared head of the three routes: parse, default the range, and
      fetch the daily rows of the class (or subject) grouping. */
  function FetchRows(params: map<string, string>, now: int, parseDate: string -> Option<int>,
                     sessions: seq<Session>, messages: seq<Message>, groupOf: Session -> Option<string>,
                     queryFails: bool): Result<seq<DailyGroupStats>, (int, string)>
  {
    match ParseQuery(params)
    case Failure(_) => Failure((400, INVALID_PARAMS))
    case Success(q) =>
      match RangeOf(q, now, parseDate)
      case None => Failure((500, SERVER_ERROR))
      case Some(range) =>
        if queryFails then Failure((500, SERVER_ERROR))
        else Success(DailyGroupRows(sessions, messages, range, groupOf, None))
  }

  /** The route never answers 400; it answers 500 exactly when a given
      date does not parse or the query fails; otherwise it reads the daily
      rows of the range from the parameters and their defaults. */
  lemma FetchRowsOutcome(params: map<string, string>, now: int, parseDate: string -> Option<int>,
                         sessions: seq<Session>, messages: seq<Message>, groupOf: Session -> Option<string>,
                         queryFails: bool)
    ensures var r := FetchRows(params, now, parseDate, sessions, messages, groupOf, queryFails);
      var from := Param(params, "from");
      var to := Param(params, "to");
      (r.Failure? ==> r.error == (500, SERVER_ERROR)) &&
      (r.Failure? <==> queryFails || (Truthy(from) && parseDate(from.value).None?) ||
                       (Truthy(to) && parseDate(to.value).None?)) &&
      (r.Success? ==>
        exists range: DateRange ::
          range.from == (if Truthy(from) then parseDate(from.value).value else DefaultFrom(now)) &&
          range.to == (if Truthy(to) then parseDate(to.value).value else now) &&
          r.value == DailyGroupRows(sessions, messages, range, groupOf, None))
  {
    var q := ParseQuery(params).value;
    var range := RangeOf(q, now, parseDate);
    if range.Some? && !queryFails {
      assert FetchRows(params, now, parseDate, sessions, messages, groupOf, queryFails).value ==
             DailyGroupRows(sessions, messages, range.value, groupOf, None);
    }
  }

  // ----- classes and subjects -----

  /** `{ date, value }` of `dailyActivity`. */
  datatype DayPoint = DayPoint(day: int, value: int)

  /** `ClassAnalyticsDTO` (and `SubjectAnalyticsDTO`): `name` is the id again. */
  datatype GroupAnalytics = GroupAnalytics(groupId: string, name: string, activeStudents: int, totalChats: int,
                                           totalMessages: int, dailyActivity: seq<DayPoint>)

  function BlankAnalytics(groupId: string): GroupAnalytics {
    GroupAnalytics(groupId, groupId, 0, 0, 0, [])
  }

  function ChatsPoint(r: DailyGroupStats): DayPoint { DayPoint(r.day, r.chats) }

  /** The body of the reduce: sums, the maximum, and one more point. */
  function AddToGroup(g: GroupAnalytics, r: DailyGroupStats): GroupAnalytics {
    g.(totalChats := g.totalChats + r.chats, totalMessages := g.totalMessages + r.messages,
       activeStudents := Max(g.activeStudents, r.activeStudents),
       dailyActivity := g.dailyActivity + [ChatsPoint(r)])
  }

  /** `Object.values` of the reduce by id. */
  function PerGroup(rows: seq<DailyGroupStats>): seq<GroupAnalytics> {
    ValuesOf(GroupFold(rows, GroupIdOf, BlankAnalytics, AddToGroup))
  }

  /** `GET /api/admin/analytics/classes`. */
  function ClassesGet(params: map<string, string>, now: int, parseDate: string -> Option<int>,
                      sessions: seq<Session>, messages: seq<Message>, queryFails: bool): Reply<seq<GroupAnalytics>>
  {
    match FetchRows(params, now, parseDate, sessions, messages, SessionClass, queryFails)
    case Failure((status, error)) => Err(status, error)
    case Success(rows) => Ok(PerGroup(rows))
  }

  /** `GET /api/admin/analytics/subjects`. */
  function SubjectsGet(params: map<string, string>, now: int, parseDate: string -> Option<int>,
                       sessions: seq<Session>, messages: seq<Message>, queryFails: bool): Reply<seq<GroupAnalytics>>
  {
    match FetchRows(params, now, parseDate, sessions, messages, SessionSubject, queryFails)
    case Failure((status, error)) => Err(status, error)
    case Success(rows) => Ok(PerGroup(rows))
  }

  function AnalyticsId(g: GroupAnalytics): string { g.groupId }
  function AnalyticsChats(g: GroupAnalytics): int { g.totalChats }
  function AnalyticsMessages(g: GroupAnalytics): int { g.totalMessages }
  function AnalyticsActive(g: GroupAnalytics): int { g.activeStudents }
  function AnalyticsPoints(g: GroupAnalytics): seq<DayPoint> { g.dailyActivity }

  /** One entry per distinct id of the rows, in first-occurrence order; its
      name is its id; its totals sum that id's rows and its active students
      is their maximum; its daily activity is one point per row of that id,
      carrying the row's chats, in the rows' order. */
  lemma PerGroupSpec(rows: seq<DailyGroupStats>)
    ensures var g := PerGroup(rows);
      Map(g, AnalyticsId) == FirstOccurrences(Map(rows, GroupIdOf)) &&
      forall x :: x in g ==>
        x.name == x.groupId &&
        x.totalChats == SumBy(RowsOf(rows, x.groupId), Chats) &&
        x.totalMessages == SumBy(RowsOf(rows, x.groupId), Messages) &&
        x.activeStudents == MaxFrom(0, RowsOf(rows, x.groupId), ActiveStudents) &&
        x.dailyActivity == Map(RowsOf(rows, x.groupId), ChatsPoint)
  {
    var d := GroupFold(rows, GroupIdOf, BlankAnalytics, AddToGroup);
    var g := PerGroup(rows);
    GroupFoldKeys(rows, GroupIdOf, BlankAnalytics, AddToGroup);
    GroupFoldValuesKeyed(rows, GroupIdOf, BlankAnalytics, AddToGroup, AnalyticsId);
    assert Map(g, AnalyticsId) == KeysOf(d);
    forall x | x in g
      ensures x.name == x.groupId &&
        x.totalChats == SumBy(RowsOf(rows, x.groupId), Chats) &&
        x.totalMessages == SumBy(RowsOf(rows, x.groupId), Messages) &&
        x.activeStudents == MaxFrom(0, RowsOf(rows, x.groupId), ActiveStudents) &&
        x.dailyActivity == Map(RowsOf(rows, x.groupId), ChatsPoint)
    {
      var i :| 0 <= i < |g| && g[i] == x;
      GroupEntryTotals(rows, d, i);
    }
  }

  lemma GroupEntryTotals(rows: seq<DailyGroupStats>, d: seq<Entry<string, GroupAnalytics>>, i: int)
    requires d == GroupFold(rows, GroupIdOf, BlankAnalytics, AddToGroup) && 0 <= i < |d|
    ensures var x := d[i].val;
      var f := RowsOf(rows, d[i].key);
      x.name == d[i].key &&
      x.totalChats == SumBy(f, Chats) && x.totalMessages == SumBy(f, Messages) &&
      x.activeStudents == MaxFrom(0, f, ActiveStudents) && x.dailyActivity == Map(f, ChatsPoint)
  {
    var k := d[i].key;
    var f := RowsOf(rows, k);
    GroupFoldEntry(rows, GroupIdOf, BlankAnalytics, AddToGroup, i);
    FoldLeftSum(BlankAnalytics(k), f, AddToGroup, AnalyticsChats, Chats);
    FoldLeftSum(BlankAnalytics(k), f, AddToGroup, AnalyticsMessages, Messages);
    FoldLeftMax(BlankAnalytics(k), f, AddToGroup, AnalyticsActive, ActiveStudents);
    FoldLeftCollect(BlankAnalytics(k), f, AddToGroup, AnalyticsPoints, ChatsPoint);
    FoldLeftInvariant(BlankAnalytics(k), f, AddToGroup, NamedAs(k));
  }

  function NamedAs(k: string): GroupAnalytics -> bool {
    (g: GroupAnalytics) => g.name == k
  }

  /** Summed over the classes reply, chats count the sessions created in
      the range; the daily points of all classes together number as many as
      the daily rows. */
  lemma ClassesTotals(params: map<string, string>, now: int, parseDate: string -> Option<int>,
                      sessions: seq<Session>, messages: seq<Message>, queryFails: bool, range: DateRange)
    requires RangeOf(ParseQuery(params).value, now, parseDate) == Some(range) && !queryFails
    ensures var r := ClassesGet(params, now, parseDate, sessions, messages, queryFails);
      r.Ok? && SumBy(r.body, AnalyticsChats) == |Filter(sessions, InScope(range, SessionClass, None))|
  {
    var rows := DailyGroupRows(sessions, messages, range, SessionClass, None);
    var d := GroupFold(rows, GroupIdOf, BlankAnalytics, AddToGroup);
    assert ClassesGet(params, now, parseDate, sessions, messages, queryFails) == Ok(PerGroup(rows));
    DailyGroupRowsTotals(sessions, messages, range, SessionClass, None);
    GroupFoldSum(rows, GroupIdOf, BlankAnalytics, AddToGroup, AnalyticsChats, Chats);
    SumValues(d, AnalyticsChats);
  }

  // ----- chats -----

  /** `ChatAnalyticsDTO`: a day and its chats. */
  datatype DayCount = DayCount(day: int, count: int)

  function BlankCount(day: int): DayCount { DayCount(day, 0) }

  function AddChats(c: DayCount, r: DailyGroupStats): DayCount { c.(count := c.count + r.chats) }

  function CountDay(c: DayCount): int { c.day }

  function CountKey(c: DayCount): Key { Key(c.day, "") }

  function CountOf(c: DayCount): int { c.count }

  /** The reduce by date, then the sort by date. */
  function ChatsByDay(rows: seq<DailyGroupStats>): seq<DayCount> {
    SortBy(ValuesOf(GroupFold(rows, RowDay, BlankCount, AddChats)), CountKey, false)
  }

  function RowDay(r: DailyGroupStats): int { r.day }

  /** `GET /api/admin/analytics/chats`. */
  function ChatsGet(params: map<string, string>, now: int, parseDate: string -> Option<int>,
                    sessions: seq<Session>, messages: seq<Message>, queryFails: bool): Reply<seq<DayCount>>
  {
    match FetchRows(params, now, parseDate, sessions, messages, SessionClass, queryFails)
    case Failure((status, error)) => Err(status, error)
    case Success(rows) => Ok(ChatsByDay(rows))
  }

  /** Days strictly ascending, each a day of the rows whose count sums
      that day's chats over every class; every day of the rows is present;
      the counts add up to all the rows' chats. */
  lemma ChatsByDaySpec(rows: seq<DailyGroupStats>)
    ensures var r := ChatsByDay(rows);
      (forall i, j :: 0 <= i < j < |r| ==> r[i].day < r[j].day) &&
      (forall c :: c in r ==> c.count == SumBy(Filter(rows, KeyIs(RowDay, c.day)), Chats)) &&
      (forall x :: x in rows ==> exists c :: c in r && c.day == x.day) &&
      SumBy(r, CountOf) == SumBy(rows, Chats)
  {
    var d := GroupFold(rows, RowDay, BlankCount, AddChats);
    var vs := ValuesOf(d);
    var r := ChatsByDay(rows);
    GroupFoldKeys(rows, RowDay, BlankCount, AddChats);
    GroupFoldValuesKeyed(rows, RowDay, BlankCount, AddChats, CountDay);
    assert UniqueKeys(vs, CountKey) by {
      forall i, j | 0 <= i < j < |vs|
        ensures CountKey(vs[i]) != CountKey(vs[j])
      {
        assert d[i].key != d[j].key;
      }
    }
    UniqueKeysPermutation(vs, r, CountKey);
    forall i, j | 0 <= i < j < |r|
      ensures r[i].day < r[j].day
    {
      assert Before(CountKey(r[i]), CountKey(r[j]), false);
    }
    forall c | c in r
      ensures c.count == SumBy(Filter(rows, KeyIs(RowDay, c.day)), Chats)
    {
      assert c in multiset(vs);
      var i :| 0 <= i < |vs| && vs[i] == c;
      GroupFoldEntry(rows, RowDay, BlankCount, AddChats, i);
      FoldLeftSum(BlankCount(c.day), Filter(rows, KeyIs(RowDay, c.day)), AddChats, CountOf, Chats);
    }
    forall x | x in rows
      ensures exists c :: c in r && c.day == x.day
    {
      GroupFoldHasKey(rows, RowDay, BlankCount, AddChats, x);
      var i :| 0 <= i < |d| && KeysOf(d)[i] == x.day;
      assert vs[i] in multiset(r);
    }
    GroupFoldSum(rows, RowDay, BlankCount, AddChats, CountOf, Chats);
    SumValues(d, CountOf);
    SumByPermutation(vs, r, CountOf);
  }

  /** Summed over the chats reply, the counts are the sessions created in
      the range. */
  lemma ChatsTotals(params: map<string, string>, now: int, parseDate: string -> Option<int>,
                    sessions: seq<Session>, messages: seq<Message>, queryFails: bool, range: DateRange)
    requires RangeOf(ParseQuery(params).value, now, parseDate) == Some(range) && !queryFails
    ensures var r := ChatsGet(params, now, parseDate, sessions, messages, queryFails);
      r.Ok? && SumBy(r.body, CountOf) == |Filter(sessions, InScope(range, SessionClass, None))|
  {
    var rows := DailyGroupRows(sessions, messages, range, SessionClass, None);
    assert ChatsGet(params, now, parseDate, sessions, messages, queryFails) == Ok(ChatsByDay(rows));
    DailyGroupRowsTotals(sessions, messages, range, SessionClass, None);
    ChatsByDaySpec(rows);
  }
}
