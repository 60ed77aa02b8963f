/** The admin class listing: page and size defaults, the date range of the
    statistics, the page of enriched classes, the table total and whether
    more pages follow. The writes pass through to the repository
    unchanged. */
module AdminClassService {
  import opened Wrappers
  import opened Seqs
  import opened Sorting
  import opened Schema
  import opened Paging
  import opened AdminClassRepository

  /** The query of the class list; the cursor it also accepts is unused. */
  datatype ClassListParams = ClassListParams(from: Option<string>, to: Option<string>,
                                             page: Option<nat>, limit: Option<nat>)

  datatype ClassesList = ClassesList(classes: seq<ClassWithStats>, total: nat, hasMore: bool)

  /** `getClassesList(params)`: `None` when a date cannot be read. */
  function GetClassesList(classes: seq<Class>, subjects: seq<Subject>, sessions: seq<Session>,
                          messages: seq<Message>, params: ClassListParams, now: int,
                          parseDate: string -> Option<int>): Option<ClassesList>
  {
    var limit := OrDefault(params.limit, DEFAULT_LIMIT);
    var page := OrDefault(params.page, 1);
    var skip := Offset(page, limit);
    match EpochToNow(params.from, params.to, now, parseDate)
    case None => None
    case Some(range) =>
      var (from, to) := range;
      var total := |classes|;
      Some(ClassesList(ListWithStats(classes, subjects, sessions, messages, from, to, skip, limit),
                       total, total > skip + limit))
  }

  /** The list fails exactly when a given date cannot be read. Otherwise
      the page holds at most `limit` classes (20 when none or zero is asked
      for) from offset (page - 1) * limit of the newest-first listing, the
      total is the whole table, and `hasMore` holds exactly when the next
      page is not empty. */
  lemma ClassesListPage(classes: seq<Class>, subjects: seq<Subject>, sessions: seq<Session>,
                        messages: seq<Message>, params: ClassListParams, now: int,
                        parseDate: string -> Option<int>)
    ensures GetClassesList(classes, subjects, sessions, messages, params, now, parseDate).None? <==>
            EpochToNow(params.from, params.to, now, parseDate).None?
    ensures EpochToNow(params.from, params.to, now, parseDate).Some? ==>
      var r := GetClassesList(classes, subjects, sessions, messages, params, now, parseDate);
      var from := EpochToNow(params.from, params.to, now, parseDate).value.0;
      var to := EpochToNow(params.from, params.to, now, parseDate).value.1;
      var limit := if params.limit.Some? && params.limit.value > 0 then params.limit.value else 20;
      var page := if params.page.Some? && params.page.value > 0 then params.page.value else 1;
      var skip := Offset(page, limit);
      r.Some? && r.value.total == |classes| &&
      Map(r.value.classes, Listed) == Take(Drop(SortBy(classes, CreatedKey, true), skip), limit) &&
      (r.value.hasMore <==>
        ListWithStats(classes, subjects, sessions, messages, from, to, skip + limit, limit) != [])
  {
    if EpochToNow(params.from, params.to, now, parseDate).Some? {
      var range := EpochToNow(params.from, params.to, now, parseDate).value;
      var limit := OrDefault(params.limit, DEFAULT_LIMIT);
      var page := OrDefault(params.page, 1);
      var skip := Offset(page, limit);
      var listed := ListWithStats(classes, subjects, sessions, messages, range.0, range.1, skip, limit);
      assert GetClassesList(classes, subjects, sessions, messages, params, now, parseDate) ==
             Some(ClassesList(listed, |classes|, |classes| > skip + limit));
      ListedSlice(classes, subjects, sessions, messages, range.0, range.1, skip, limit);
    }
  }
}
