/** The admin subject listing: page and size defaults, the statistics
    range, the filtered page of enriched subjects, the total under the same
    filters, whether more pages follow, and up to 100 classes for the
    filter picker. The writes pass through to the repository unchanged. */
module AdminSubjectService {
  import opened Wrappers
  import opened Text
  import opened Seqs
  import opened Sorting
  import opened Schema
  import opened Paging
  import opened AdminSubjectRepository
  import AdminClassRepository

  datatype SubjectListParams = SubjectListParams(classId: Option<string>, from: Option<string>, to: Option<string>,
                                                 q: Option<string>, page: Option<nat>, limit: Option<nat>)

  datatype SubjectsList = SubjectsList(subjects: seq<SubjectWithStats>,
                                       allClasses: seq<AdminClassRepository.ClassOption>,
                                       total: nat, hasMore: bool)

  /** How many classes the filter picker loads. */
  const PICKER_LIMIT: nat := 100

  /** The `where` of the total, built from its own two conditional spreads. */
  function CountWhere(classId: Option<string>, q: Option<string>): Subject -> bool {
    (s: Subject) => (if Selected(classId) then s.classId == classId.value else true) &&
                    (if Truthy(q) then ContainsInsensitive(s.name, q.value) else true)
  }

  function PickerEntry(r: AdminClassRepository.ClassRow): AdminClassRepository.ClassOption {
    AdminClassRepository.AsOption(r.cls)
  }

  /** `getSubjectsList(params)`: `None` when a date cannot be read. */
  function GetSubjectsList(subjects: seq<Subject>, classes: seq<Class>, sessions: seq<Session>,
                           messages: seq<Message>, params: SubjectListParams, now: int,
                           parseDate: string -> Option<int>): Option<SubjectsList>
  {
    var limit := OrDefault(params.limit, DEFAULT_LIMIT);
    var page := OrDefault(params.page, 1);
    var skip := Offset(page, limit);
    match EpochToNow(params.from, params.to, now, parseDate)
    case None => None
    case Some(range) =>
      var (from, to) := range;
      var listed := ListWithStats(subjects, classes, sessions, messages, params.classId, params.q, from, to, skip, limit);
      var total := CountAll(subjects, CountWhere(params.classId, params.q));
      var allClasses := Map(AdminClassRepository.FindAll(classes, subjects, sessions, PICKER_LIMIT, None), PickerEntry);
      Some(SubjectsList(listed, allClasses, total, total > skip + limit))
  }

  /** The total's `where` and the listing's `where` keep the same subjects. */
  lemma CountWhereAgrees(subjects: seq<Subject>, classId: Option<string>, q: Option<string>)
    ensures Count(subjects, CountWhere(classId, q)) == Count(subjects, SubjectWhere(classId, q))
  {
    FilterExt(subjects, CountWhere(classId, q), SubjectWhere(classId, q));
  }

  /** The list fails exactly when a given date cannot be read. Otherwise
      the page holds at most `limit` subjects (20 when none or zero is
      asked for) from offset (page - 1) * limit of the filtered subjects
      newest first; the total counts the subjects under the same class and
      search filters, so `hasMore` holds exactly when the next page is not
      empty. */
  lemma SubjectsListPage(subjects: seq<Subject>, classes: seq<Class>, sessions: seq<Session>,
                         messages: seq<Message>, params: SubjectListParams, now: int,
                         parseDate: string -> Option<int>)
    ensures GetSubjectsList(subjects, classes, sessions, messages, params, now, parseDate).None? <==>
            EpochToNow(params.from, params.to, now, parseDate).None?
    ensures EpochToNow(params.from, params.to, now, parseDate).Some? ==>
      var r := GetSubjectsList(subjects, classes, sessions, messages, params, now, parseDate).value;
      var from := EpochToNow(params.from, params.to, now, parseDate).value.0;
      var to := EpochToNow(params.from, params.to, now, parseDate).value.1;
      var limit := if params.limit.Some? && params.limit.value > 0 then params.limit.value else 20;
      var page := if params.page.Some? && params.page.value > 0 then params.page.value else 1;
      var skip := Offset(page, limit);
      r.total == Count(subjects, SubjectWhere(params.classId, params.q)) &&
      Map(r.subjects, Listed) ==
        Take(Drop(SortBy(Filter(subjects, SubjectWhere(params.classId, params.q)), CreatedKey, true), skip), limit) &&
      (r.hasMore <==>
        ListWithStats(subjects, classes, sessions, messages, params.classId, params.q, from, to, skip + limit, limit) != [])
  {
    if EpochToNow(params.from, params.to, now, parseDate).Some? {
      var range := EpochToNow(params.from, params.to, now, parseDate).value;
      var limit := OrDefault(params.limit, DEFAULT_LIMIT);
      var page := OrDefault(params.page, 1);
      CountWhereAgrees(subjects, params.classId, params.q);
      ListedSlice(subjects, classes, sessions, messages, params.classId, params.q, range.0, range.1,
                  Offset(page, limit), limit);
    }
  }

  /** The picker shows at most 100 `(id, name)` pairs of stored classes,
      whatever the filters. */
  lemma SubjectsListPicker(subjects: seq<Subject>, classes: seq<Class>, sessions: seq<Session>,
                           messages: seq<Message>, params: SubjectListParams, now: int,
                           parseDate: string -> Option<int>)
    requires GetSubjectsList(subjects, classes, sessions, messages, params, now, parseDate).Some?
    ensures var p := GetSubjectsList(subjects, classes, sessions, messages, params, now, parseDate).value.allClasses;
      |p| <= PICKER_LIMIT &&
      forall i :: 0 <= i < |p| ==> exists c :: c in classes && p[i] == AdminClassRepository.AsOption(c)
  {
    var rows := AdminClassRepository.FindAll(classes, subjects, sessions, PICKER_LIMIT, None);
    assert GetSubjectsList(subjects, classes, sessions, messages, params, now, parseDate).value.allClasses ==
           Map(rows, PickerEntry);
    AdminClassRepository.FindAllShape(classes, subjects, sessions, PICKER_LIMIT, None);
    var p := Map(rows, PickerEntry);
    forall i | 0 <= i < |p|
      ensures exists c :: c in classes && p[i] == AdminClassRepository.AsOption(c)
    {
      assert rows[i].cls in classes;
    }
  }
}
