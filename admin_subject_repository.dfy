/** The admin subject table: a filtered cursor listing with each subject's
    class, the active subjects for pickers, per-subject statistics over a
    date range, a filtered newest-first listing enriched with them, and the
    three writes. */
module AdminSubjectRepository {
  import opened Wrappers
  import opened Text
  import opened Seqs
  import opened Sorting
  import opened Schema
  import opened Paging
  import opened Dicts
  import AdminClassRepository

  /** The default order of `findAll`: `createdAt` descending with `id`
      descending as tie-break. */
  function SubjectKey(s: Subject): Key { Key(s.createdAt, s.id) }

  /** The order of `listWithStats`: `createdAt` descending alone. */
  function CreatedKey(s: Subject): Key { Key(s.createdAt, "") }

  /** The `where` both listings build: a selected class (not empty, not
      "all") restricts to that class, and a non-empty search keeps names
      containing it, ignoring case. */
  function SubjectWhere(classId: Option<string>, q: Option<string>): Subject -> bool {
    (s: Subject) => (!Selected(classId) || s.classId == classId.value) &&
                    (!Truthy(q) || ContainsInsensitive(s.name, q.value))
  }

  /** A subject with its class's `(id, name)`; none when the class row is gone. */
  datatype SubjectRow = SubjectRow(subject: Subject, cls: Option<AdminClassRepository.ClassOption>)

  function ClassOf(classes: seq<Class>, classId: string): Option<AdminClassRepository.ClassOption> {
    match FindById(classes, ClassId, classId)
    case Some(c) => Some(AdminClassRepository.AsOption(c))
    case None => None
  }

  function WithClass(classes: seq<Class>): Subject -> SubjectRow {
    (s: Subject) => SubjectRow(s, ClassOf(classes, s.classId))
  }

  /** `findAll({ classId, q, limit, cursor })` in the default order: a
      non-empty cursor is skipped over itself. */
  function FindAll(subjects: seq<Subject>, classes: seq<Class>, classId: Option<string>, q: Option<string>,
                   limit: nat, cursor: Option<string>): seq<SubjectRow>
  {
    var skip := if Truthy(cursor) then 1 else 0;
    Map(FindMany(subjects, SubjectWhere(classId, q), SubjectKey, true, SubjectId, cursor, skip, limit),
        WithClass(classes))
  }

  /** At most `limit` rows, newest first (ties by id, descending), each a
      stored subject of the selected class whose name contains the search,
      paired with its own class. */
  lemma FindAllShape(subjects: seq<Subject>, classes: seq<Class>, classId: Option<string>, q: Option<string>,
                     limit: nat, cursor: Option<string>)
    ensures var r := FindAll(subjects, classes, classId, q, limit, cursor);
      |r| <= limit &&
      (forall i :: 0 <= i < |r| ==>
        r[i].subject in subjects &&
        (Selected(classId) ==> r[i].subject.classId == classId.value) &&
        (Truthy(q) ==> ContainsInsensitive(r[i].subject.name, q.value)) &&
        r[i].cls == ClassOf(classes, r[i].subject.classId)) &&
      (forall i, j :: 0 <= i < j < |r| ==> KeyLe(SubjectKey(r[j].subject), SubjectKey(r[i].subject)))
  {
    var skip := if Truthy(cursor) then 1 else 0;
    var f := FindMany(subjects, SubjectWhere(classId, q), SubjectKey, true, SubjectId, cursor, skip, limit);
    FindManyShape(subjects, SubjectWhere(classId, q), SubjectKey, true, SubjectId, cursor, skip, limit);
    var r := FindAll(subjects, classes, classId, q, limit, cursor);
    forall i | 0 <= i < |r|
      ensures r[i].subject in subjects && SubjectWhere(classId, q)(r[i].subject)
    {
      assert r[i].subject == f[i] && f[i] in f;
    }
  }

  /** The page at cursor position `k` of the filtered ordering is the next
      `limit` subjects after the first `k`. */
  lemma FindAllPages(subjects: seq<Subject>, classes: seq<Class>, classId: Option<string>, q: Option<string>,
                     limit: nat, k: nat)
    requires IdsValid(subjects, SubjectId)
    requires k <= |Ordered(subjects, SubjectWhere(classId, q), SubjectKey, true)|
    ensures var f := Ordered(subjects, SubjectWhere(classId, q), SubjectKey, true);
      FindAll(subjects, classes, classId, q, limit, CursorAt(f, SubjectId, k)) == Map(Take(f[k..], limit), WithClass(classes))
  {
    var f := Ordered(subjects, SubjectWhere(classId, q), SubjectKey, true);
    if k == 0 {
      assert f[0..] == f;
    } else {
      assert f[k - 1] in f;
      SortByMembers(Filter(subjects, SubjectWhere(classId, q)), SubjectKey, true);
      assert SubjectId(f[k - 1]) != "" by {
        var m :| 0 <= m < |subjects| && subjects[m] == f[k - 1];
      }
      FindManyAfterCursor(subjects, SubjectWhere(classId, q), SubjectKey, true, SubjectId, limit, k);
    }
  }

  /** `countAll(where)`. */
  function CountAll(subjects: seq<Subject>, where: Subject -> bool): nat {
    Count(subjects, where)
  }

  /** The `(id, name, classId)` triple a picker shows. */
  datatype SubjectOption = SubjectOption(id: string, name: string, classId: string)

  function AsOption(s: Subject): SubjectOption { SubjectOption(s.id, s.name, s.classId) }

  predicate IsActive(s: Subject) { s.isActive }

  function NameKey(s: Subject): Key { Key(0, s.name) }

  /** `findAllActive()`: active subjects as `(id, name, classId)`, by name ascending. */
  function FindAllActive(subjects: seq<Subject>): seq<SubjectOption> {
    Map(SortBy(Filter(subjects, IsActive), NameKey, false), AsOption)
  }

  /** Every active subject appears, no inactive one does, as many entries
      as active subjects, sorted by name. */
  lemma FindAllActiveSpec(subjects: seq<Subject>)
    ensures var r := FindAllActive(subjects);
      |r| == Count(subjects, IsActive) &&
      (forall s :: s in subjects && s.isActive ==> AsOption(s) in r) &&
      (forall i :: 0 <= i < |r| ==> exists s :: s in subjects && s.isActive && r[i] == AsOption(s)) &&
      (forall i, j :: 0 <= i < j < |r| ==> LessEq(r[i].name, r[j].name))
  {
    var f := Filter(subjects, IsActive);
    var o := SortBy(f, NameKey, false);
    SortByMembers(f, NameKey, false);
    var r := FindAllActive(subjects);
    forall s | s in subjects && s.isActive
      ensures AsOption(s) in r
    {
      var i :| 0 <= i < |o| && o[i] == s;
      assert r[i] == AsOption(s);
    }
    forall i | 0 <= i < |r|
      ensures exists s :: s in subjects && s.isActive && r[i] == AsOption(s)
    {
      assert o[i] in o;
    }
    forall i, j | 0 <= i < j < |r|
      ensures LessEq(r[i].name, r[j].name)
    {
      assert KeyLe(NameKey(o[i]), NameKey(o[j]));
    }
  }

  // ----- statistics -----

  /** The counters `getStats` returns for one subject and one date range. */
  datatype SubjectStats = SubjectStats(chatsCount: nat, messagesCount: nat, activeUsersCount: nat)

  function SessionOf(subjectId: string): Session -> bool {
    (s: Session) => s.subjectId == Some(subjectId)
  }

  function CreatedIn(subjectId: string, from: int, to: int): Session -> bool {
    (s: Session) => s.subjectId == Some(subjectId) && from <= s.createdAt <= to
  }

  function MessageIn(sessions: seq<Session>, subjectId: string, from: int, to: int): Message -> bool {
    (m: Message) => SessionMatches(sessions, SessionOf(subjectId))(m) && from <= m.createdAt <= to
  }

  function ActiveIn(subjectId: string, from: int, to: int): Session -> bool {
    (s: Session) => s.subjectId == Some(subjectId) && from <= s.lastMessageAt <= to
  }

  /** `getStats(subjectId, from, to)`: the subject's sessions created in
      range, the in-range messages of its sessions, and the users grouped
      from its sessions whose last message is in range. */
  function GetStats(sessions: seq<Session>, messages: seq<Message>, subjectId: string, from: int, to: int): SubjectStats {
    SubjectStats(
      Count(sessions, CreatedIn(subjectId, from, to)),
      Count(messages, MessageIn(sessions, subjectId, from, to)),
      |UserGroups(sessions, ActiveIn(subjectId, from, to))|)
  }

  /** The active-user count is the number of distinct users with a session
      of the subject active in range, so never more than such sessions; the
      other counters are bounded by the subject's sessions and their
      messages. */
  lemma GetStatsSpec(sessions: seq<Session>, messages: seq<Message>, subjectId: string, from: int, to: int)
    ensures var st := GetStats(sessions, messages, subjectId, from, to);
      st.activeUsersCount == |set s | s in sessions && ActiveIn(subjectId, from, to)(s) :: s.userId| &&
      st.activeUsersCount <= Count(sessions, SessionOf(subjectId)) &&
      st.chatsCount <= Count(sessions, SessionOf(subjectId)) &&
      st.messagesCount <= Count(messages, SessionMatches(sessions, SessionOf(subjectId)))
  {
    UserGroupsCount(sessions, ActiveIn(subjectId, from, to));
    var f := Filter(sessions, ActiveIn(subjectId, from, to));
    FilterImplies(sessions, ActiveIn(subjectId, from, to), SessionOf(subjectId));
    FilterImplies(sessions, CreatedIn(subjectId, from, to), SessionOf(subjectId));
    FilterImplies(messages, MessageIn(sessions, subjectId, from, to), SessionMatches(sessions, SessionOf(subjectId)));
    AdminClassRepository.FirstOccurrencesBound(Map(f, SessionUser));
  }

  /** Widening the date range never lowers a counter. */
  lemma GetStatsWiden(sessions: seq<Session>, messages: seq<Message>, subjectId: string,
                      from: int, to: int, from': int, to': int)
    requires from' <= from && to <= to'
    ensures var a := GetStats(sessions, messages, subjectId, from, to);
      var b := GetStats(sessions, messages, subjectId, from', to');
      a.chatsCount <= b.chatsCount && a.messagesCount <= b.messagesCount && a.activeUsersCount <= b.activeUsersCount
  {
    FilterImplies(sessions, CreatedIn(subjectId, from, to), CreatedIn(subjectId, from', to'));
    FilterImplies(messages, MessageIn(sessions, subjectId, from, to), MessageIn(sessions, subjectId, from', to'));
    UserGroupsCount(sessions, ActiveIn(subjectId, from, to));
    UserGroupsCount(sessions, ActiveIn(subjectId, from', to'));
    var narrow := set s | s in sessions && ActiveIn(subjectId, from, to)(s) :: s.userId;
    var wide := set s | s in sessions && ActiveIn(subjectId, from', to')(s) :: s.userId;
    assert narrow <= wide;
    SubsetCard(narrow, wide);
  }

  /** A subject of `listWithStats`: with its class and its statistics over the range. */
  datatype SubjectWithStats = SubjectWithStats(subject: Subject, cls: Option<AdminClassRepository.ClassOption>,
                                               stats: SubjectStats)

  function WithStats(classes: seq<Class>, sessions: seq<Session>, messages: seq<Message>,
                     from: int, to: int): Subject -> SubjectWithStats
  {
    (s: Subject) => SubjectWithStats(s, ClassOf(classes, s.classId), GetStats(sessions, messages, s.id, from, to))
  }

  function Listed(e: SubjectWithStats): Subject { e.subject }

  /** `listWithStats({ classId, q, from, to, skip, take })`: the subjects of
      the `where`, newest first, `skip` dropped, at most `take`, each with
      its own statistics. */
  function ListWithStats(subjects: seq<Subject>, classes: seq<Class>, sessions: seq<Session>, messages: seq<Message>,
                         classId: Option<string>, q: Option<string>, from: int, to: int,
                         skip: nat, take: nat): seq<SubjectWithStats>
  {
    Map(Take(Drop(SortBy(Filter(subjects, SubjectWhere(classId, q)), CreatedKey, true), skip), take),
        WithStats(classes, sessions, messages, from, to))
  }

  /** The subjects listed are the slice `[skip, skip + take)` of the
      filtered subjects newest first, and the page after it is empty
      exactly when no filtered subject is left beyond it. */
  lemma ListedSlice(subjects: seq<Subject>, classes: seq<Class>, sessions: seq<Session>, messages: seq<Message>,
                    classId: Option<string>, q: Option<string>, from: int, to: int, skip: nat, take: nat)
    ensures Map(ListWithStats(subjects, classes, sessions, messages, classId, q, from, to, skip, take), Listed) ==
            Take(Drop(SortBy(Filter(subjects, SubjectWhere(classId, q)), CreatedKey, true), skip), take)
    ensures take > 0 ==>
      (ListWithStats(subjects, classes, sessions, messages, classId, q, from, to, skip + take, take) != [] <==>
       Count(subjects, SubjectWhere(classId, q)) > skip + take)
  {
    if take > 0 {
      NextPageEmpty(SortBy(Filter(subjects, SubjectWhere(classId, q)), CreatedKey, true), skip, take);
    }
  }

  /** At most `take` subjects, each in the `where`, newest first, each
      entry with the statistics of its own subject. */
  lemma ListWithStatsSpec(subjects: seq<Subject>, classes: seq<Class>, sessions: seq<Session>, messages: seq<Message>,
                          classId: Option<string>, q: Option<string>, from: int, to: int, skip: nat, take: nat)
    ensures var r := ListWithStats(subjects, classes, sessions, messages, classId, q, from, to, skip, take);
      |r| <= take &&
      (forall i :: 0 <= i < |r| ==>
        r[i].subject in subjects &&
        (Selected(classId) ==> r[i].subject.classId == classId.value) &&
        (Truthy(q) ==> ContainsInsensitive(r[i].subject.name, q.value))) &&
      (forall i, j :: 0 <= i < j < |r| ==> r[j].subject.createdAt <= r[i].subject.createdAt) &&
      (forall i :: 0 <= i < |r| ==> r[i].stats == GetStats(sessions, messages, r[i].subject.id, from, to))
  {
    var g := Filter(subjects, SubjectWhere(classId, q));
    var o := SortBy(g, CreatedKey, true);
    SortByMembers(g, CreatedKey, true);
    SliceSorted(o, CreatedKey, true, skip, take);
    var f := Take(Drop(o, skip), take);
    var r := ListWithStats(subjects, classes, sessions, messages, classId, q, from, to, skip, take);
    forall i | 0 <= i < |r|
      ensures r[i].subject in subjects && SubjectWhere(classId, q)(r[i].subject)
    {
      assert r[i].subject == f[i] && f[i] in f;
    }
    forall i, j | 0 <= i < j < |r|
      ensures r[j].subject.createdAt <= r[i].subject.createdAt
    {
      assert Before(CreatedKey(f[i]), CreatedKey(f[j]), true);
    }
  }

  // ----- writes -----

  /** The data `create` accepts; a missing `isActive` takes the database default. */
  datatype NewSubject = NewSubject(name: string, classId: string, isActive: Option<bool>)

  /** `create({ data })`: a new row with a fresh id and the current time;
      the class id is stored as given. */
  method Create(db: Db, data: NewSubject, id: string, now: int) returns (s: Subject)
    requires db.Valid() && Fresh(db.subjects, SubjectId, id)
    modifies db`subjects
    ensures db.Valid()
    ensures s == Subject(id, data.name, data.classId,
                         if data.isActive.Some? then data.isActive.value else db.defaultIsActive, now)
    ensures db.subjects == old(db.subjects) + [s]
    ensures FindById(db.subjects, SubjectId, id) == Some(s)
  {
    s := Subject(id, data.name, data.classId,
                 if data.isActive.Some? then data.isActive.value else db.defaultIsActive, now);
    IdsValidAppend(db.subjects, SubjectId, s);
    db.subjects := db.subjects + [s];
    FindByIdUnique(db.subjects, SubjectId, |db.subjects| - 1);
  }

  /** The only fields `update` accepts; the class is not one of them. */
  datatype SubjectPatch = SubjectPatch(name: Option<string>, isActive: Option<bool>)

  function Patch(p: SubjectPatch): Subject -> Subject {
    (s: Subject) => s.(name := if p.name.Some? then p.name.value else s.name,
                       isActive := if p.isActive.Some? then p.isActive.value else s.isActive)
  }

  /** A patch sets exactly the fields it carries, never moves the subject
      to another class, keeps its id and creation time, and applying it
      twice is applying it once. */
  lemma PatchSpec(p: SubjectPatch, s: Subject)
    ensures var t := Patch(p)(s);
      t.id == s.id && t.classId == s.classId && t.createdAt == s.createdAt &&
      (p.name.Some? ==> t.name == p.name.value) && (p.name.None? ==> t.name == s.name) &&
      (p.isActive.Some? ==> t.isActive == p.isActive.value) && (p.isActive.None? ==> t.isActive == s.isActive) &&
      Patch(p)(t) == t
  {
  }

  /** `update(id, data)`: an update of a missing row fails and writes
      nothing; otherwise every subject keeps its class. */
  method Update(db: Db, id: string, p: SubjectPatch) returns (r: Result<Subject, string>)
    requires db.Valid()
    modifies db`subjects
    ensures db.Valid()
    ensures FindById(old(db.subjects), SubjectId, id).None? ==> r.Failure? && unchanged(db)
    ensures FindById(old(db.subjects), SubjectId, id).Some? ==>
      r == Success(Patch(p)(FindById(old(db.subjects), SubjectId, id).value)) &&
      db.subjects == UpdateById(old(db.subjects), SubjectId, id, Patch(p)) &&
      FindById(db.subjects, SubjectId, id) == Some(r.value)
    ensures |db.subjects| == |old(db.subjects)| &&
      forall i :: 0 <= i < |db.subjects| ==> db.subjects[i].classId == old(db.subjects[i].classId)
  {
    var found := FindById(db.subjects, SubjectId, id);
    if found.None? {
      return Failure("Record to update not found");
    }
    UpdateByIdFinds(db.subjects, SubjectId, id, Patch(p));
    db.subjects := UpdateById(db.subjects, SubjectId, id, Patch(p));
    r := Success(Patch(p)(found.value));
  }

  /** `delete(id)`: a hard delete; sessions keep their dangling subject id;
      a missing row fails. */
  method Delete(db: Db, id: string) returns (r: Result<Subject, string>)
    requires db.Valid()
    modifies db`subjects
    ensures db.Valid()
    ensures FindById(old(db.subjects), SubjectId, id).None? ==> r.Failure? && unchanged(db)
    ensures FindById(old(db.subjects), SubjectId, id).Some? ==>
      r == Success(FindById(old(db.subjects), SubjectId, id).value) &&
      db.subjects == RemoveById(old(db.subjects), SubjectId, id) &&
      FindById(db.subjects, SubjectId, id).None? && |db.subjects| < |old(db.subjects)|
    ensures db.classes == old(db.classes) && db.sessions == old(db.sessions)
  {
    var found := FindById(db.subjects, SubjectId, id);
    if found.None? {
      return Failure("Record to delete does not exist");
    }
    RemoveByIdEffect(db.subjects, SubjectId, id);
    db.subjects := RemoveById(db.subjects, SubjectId, id);
    r := Success(found.value);
  }
}
