/** The admin class table: a cursor listing with relation counts, the
    active classes for pickers, per-class statistics over a date range, a
    newest-first listing enriched with those statistics, and the three
    writes. */
module AdminClassRepository {
  import opened Wrappers
  import opened Text
  import opened Seqs
  import opened Sorting
  import opened Schema
  import opened Paging
  import opened Dicts

  /** The default order of `findAll`: `createdAt` descending with `id`
      descending as tie-break. */
  function ClassKey(c: Class): Key { Key(c.createdAt, c.id) }

  /** The order of `listWithStats`: `createdAt` descending alone. */
  function CreatedKey(c: Class): Key { Key(c.createdAt, "") }

  /** The empty `where`. */
  predicate AnyClass(c: Class) { true }

  function SubjectOf(classId: string): Subject -> bool {
    (s: Subject) => s.classId == classId
  }

  function SessionOf(classId: string): Session -> bool {
    (s: Session) => s.classId == Some(classId)
  }

  /** A class with `_count` of its subjects and its sessions. */
  datatype ClassRow = ClassRow(cls: Class, subjectCount: nat, sessionCount: nat)

  function WithCounts(subjects: seq<Subject>, sessions: seq<Session>): Class -> ClassRow {
    (c: Class) => ClassRow(c, Count(subjects, SubjectOf(c.id)), Count(sessions, SessionOf(c.id)))
  }

  /** `findAll({ limit, cursor })` in the default order: a non-empty cursor
      is skipped over itself. */
  function FindAll(classes: seq<Class>, subjects: seq<Subject>, sessions: seq<Session>,
                   limit: nat, cursor: Option<string>): seq<ClassRow>
  {
    var skip := if Truthy(cursor) then 1 else 0;
    Map(FindMany(classes, AnyClass, ClassKey, true, ClassId, cursor, skip, limit), WithCounts(subjects, sessions))
  }

  /** At most `limit` rows, newest first (ties by id, descending), each a
      stored class with the counts of its own subjects and sessions. */
  lemma FindAllShape(classes: seq<Class>, subjects: seq<Subject>, sessions: seq<Session>,
                     limit: nat, cursor: Option<string>)
    ensures var r := FindAll(classes, subjects, sessions, limit, cursor);
      |r| <= limit &&
      (forall i :: 0 <= i < |r| ==>
        r[i].cls in classes &&
        r[i].subjectCount == Count(subjects, SubjectOf(r[i].cls.id)) &&
        r[i].sessionCount == Count(sessions, SessionOf(r[i].cls.id))) &&
      (forall i, j :: 0 <= i < j < |r| ==> KeyLe(ClassKey(r[j].cls), ClassKey(r[i].cls)))
  {
    var skip := if Truthy(cursor) then 1 else 0;
    var f := FindMany(classes, AnyClass, ClassKey, true, ClassId, cursor, skip, limit);
    FindManyShape(classes, AnyClass, ClassKey, true, ClassId, cursor, skip, limit);
    var r := FindAll(classes, subjects, sessions, limit, cursor);
    forall i | 0 <= i < |r|
      ensures r[i].cls in classes
    {
      assert r[i].cls == f[i] && f[i] in f;
    }
  }

  /** The page at cursor position `k` of the full ordering is the next
      `limit` classes after the first `k`: following cursors neither skips
      nor repeats a class. */
  lemma FindAllPages(classes: seq<Class>, subjects: seq<Subject>, sessions: seq<Session>, limit: nat, k: nat)
    requires IdsValid(classes, ClassId)
    requires k <= |Ordered(classes, AnyClass, ClassKey, true)|
    ensures var f := Ordered(classes, AnyClass, ClassKey, true);
      FindAll(classes, subjects, sessions, limit, CursorAt(f, ClassId, k)) ==
      Map(Take(f[k..], limit), WithCounts(subjects, sessions))
  {
    var f := Ordered(classes, AnyClass, ClassKey, true);
    if k == 0 {
      assert f[0..] == f;
    } else {
      assert f[k - 1] in f;
      SortByMembers(Filter(classes, AnyClass), ClassKey, true);
      assert ClassId(f[k - 1]) != "" by {
        var m :| 0 <= m < |classes| && classes[m] == f[k - 1];
      }
      FindManyAfterCursor(classes, AnyClass, ClassKey, true, ClassId, limit, k);
    }
  }

  /** The `(id, name)` pair a picker shows. */
  datatype ClassOption = ClassOption(id: string, name: string)

  function AsOption(c: Class): ClassOption { ClassOption(c.id, c.name) }

  predicate IsActive(c: Class) { c.isActive }

  function NameKey(c: Class): Key { Key(0, c.name) }

  /** `findAllActive()`: active classes as `(id, name)`, by name ascending. */
  function FindAllActive(classes: seq<Class>): seq<ClassOption> {
    Map(SortBy(Filter(classes, IsActive), NameKey, false), AsOption)
  }

  /** Every active class appears, no inactive one does, as many entries as
      active classes, sorted by name. */
  lemma FindAllActiveSpec(classes: seq<Class>)
    ensures var r := FindAllActive(classes);
      |r| == Count(classes, IsActive) &&
      (forall c :: c in classes && c.isActive ==> AsOption(c) in r) &&
      (forall i :: 0 <= i < |r| ==> exists c :: c in classes && c.isActive && r[i] == AsOption(c)) &&
      (forall i, j :: 0 <= i < j < |r| ==> LessEq(r[i].name, r[j].name))
  {
    var f := Filter(classes, IsActive);
    var s := SortBy(f, NameKey, false);
    SortByMembers(f, NameKey, false);
    var r := FindAllActive(classes);
    forall c | c in classes && c.isActive
      ensures AsOption(c) in r
    {
      var i :| 0 <= i < |s| && s[i] == c;
      assert r[i] == AsOption(c);
    }
    forall i | 0 <= i < |r|
      ensures exists c :: c in classes && c.isActive && r[i] == AsOption(c)
    {
      assert s[i] in s;
    }
    forall i, j | 0 <= i < j < |r|
      ensures LessEq(r[i].name, r[j].name)
    {
      assert KeyLe(NameKey(s[i]), NameKey(s[j]));
    }
  }

  // ----- statistics -----

  /** The counters `getStats` returns for one class and one date range. */
  datatype ClassStats = ClassStats(subjectsCount: nat, chatsCount: nat, messagesCount: nat, activeUsersCount: nat)

  function CreatedIn(classId: string, from: int, to: int): Session -> bool {
    (s: Session) => s.classId == Some(classId) && from <= s.createdAt <= to
  }

  function MessageIn(sessions: seq<Session>, classId: string, from: int, to: int): Message -> bool {
    (m: Message) => SessionMatches(sessions, SessionOf(classId))(m) && from <= m.createdAt <= to
  }

  function ActiveIn(classId: string, from: int, to: int): Session -> bool {
    (s: Session) => s.classId == Some(classId) && from <= s.lastMessageAt <= to
  }

  /** `getStats(classId, from, to)`: all subjects of the class whatever
      their date, its sessions created in range, the in-range messages of
      its sessions, and the users grouped from its sessions whose last
      message is in range. */
  function GetStats(subjects: seq<Subject>, sessions: seq<Session>, messages: seq<Message>,
                    classId: string, from: int, to: int): ClassStats
  {
    ClassStats(
      Count(subjects, SubjectOf(classId)),
      Count(sessions, CreatedIn(classId, from, to)),
      Count(messages, MessageIn(sessions, classId, from, to)),
      |UserGroups(sessions, ActiveIn(classId, from, to))|)
  }

  /** The active-user count is the number of distinct users with a session
      of the class active in range, so never more than such sessions; the
      other counters are bounded by the class's sessions and their
      messages. */
  lemma GetStatsSpec(subjects: seq<Subject>, sessions: seq<Session>, messages: seq<Message>,
                     classId: string, from: int, to: int)
    ensures var st := GetStats(subjects, sessions, messages, classId, from, to);
      st.activeUsersCount == |set s | s in sessions && ActiveIn(classId, from, to)(s) :: s.userId| &&
      st.activeUsersCount <= Count(sessions, SessionOf(classId)) &&
      st.chatsCount <= Count(sessions, SessionOf(classId)) &&
      st.messagesCount <= Count(messages, SessionMatches(sessions, SessionOf(classId)))
  {
    UserGroupsCount(sessions, ActiveIn(classId, from, to));
    var f := Filter(sessions, ActiveIn(classId, from, to));
    FilterImplies(sessions, ActiveIn(classId, from, to), SessionOf(classId));
    FilterImplies(sessions, CreatedIn(classId, from, to), SessionOf(classId));
    FilterImplies(messages, MessageIn(sessions, classId, from, to), SessionMatches(sessions, SessionOf(classId)));
    assert |FirstOccurrences(Map(f, SessionUser))| <= |f| by {
      FirstOccurrencesBound(Map(f, SessionUser));
    }
  }

  /** Widening the date range never lowers a counter, and the subject
      count does not depend on the range at all. */
  lemma GetStatsWiden(subjects: seq<Subject>, sessions: seq<Session>, messages: seq<Message>,
                      classId: string, from: int, to: int, from': int, to': int)
    requires from' <= from && to <= to'
    ensures var a := GetStats(subjects, sessions, messages, classId, from, to);
      var b := GetStats(subjects, sessions, messages, classId, from', to');
      a.subjectsCount == b.subjectsCount && a.chatsCount <= b.chatsCount &&
      a.messagesCount <= b.messagesCount && a.activeUsersCount <= b.activeUsersCount
  {
    FilterImplies(sessions, CreatedIn(classId, from, to), CreatedIn(classId, from', to'));
    FilterImplies(messages, MessageIn(sessions, classId, from, to), MessageIn(sessions, classId, from', to'));
    UserGroupsCount(sessions, ActiveIn(classId, from, to));
    UserGroupsCount(sessions, ActiveIn(classId, from', to'));
    var narrow := set s | s in sessions && ActiveIn(classId, from, to)(s) :: s.userId;
    var wide := set s | s in sessions && ActiveIn(classId, from', to')(s) :: s.userId;
    assert narrow <= wide;
    SubsetCard(narrow, wide);
  }

  /** Grouping never yields more groups than items. */
  lemma {:induction false} FirstOccurrencesBound<K(!new)>(ks: seq<K>)
    ensures |FirstOccurrences(ks)| <= |ks|
    decreases |ks|
  {
    if ks != [] {
      FirstOccurrencesBound(ks[..|ks| - 1]);
    }
  }

  /** A class of `listWithStats`: with `_count` of its subjects and its
      statistics over the range. */
  datatype ClassWithStats = ClassWithStats(cls: Class, subjectCount: nat, stats: ClassStats)

  function WithStats(subjects: seq<Subject>, sessions: seq<Session>, messages: seq<Message>,
                     from: int, to: int): Class -> ClassWithStats
  {
    (c: Class) => ClassWithStats(c, Count(subjects, SubjectOf(c.id)), GetStats(subjects, sessions, messages, c.id, from, to))
  }

  /** `listWithStats({ from, to, skip, take })`: newest first, `skip`
      dropped, at most `take`, each class with its own statistics. */
  function ListWithStats(classes: seq<Class>, subjects: seq<Subject>, sessions: seq<Session>,
                         messages: seq<Message>, from: int, to: int, skip: nat, take: nat): seq<ClassWithStats>
  {
    Map(Take(Drop(SortBy(classes, CreatedKey, true), skip), take), WithStats(subjects, sessions, messages, from, to))
  }

  /** The classes listed are the slice `[skip, skip + take)` of all classes
      newest first, and the page after it is empty exactly when no class
      is left beyond it. */
  lemma ListedSlice(classes: seq<Class>, subjects: seq<Subject>, sessions: seq<Session>,
                    messages: seq<Message>, from: int, to: int, skip: nat, take: nat)
    ensures Map(ListWithStats(classes, subjects, sessions, messages, from, to, skip, take), Listed) ==
            Take(Drop(SortBy(classes, CreatedKey, true), skip), take)
    ensures take > 0 ==>
      (ListWithStats(classes, subjects, sessions, messages, from, to, skip + take, take) != [] <==>
       |classes| > skip + take)
  {
    if take > 0 {
      NextPageEmpty(SortBy(classes, CreatedKey, true), skip, take);
    }
  }

  /** At most `take` classes, newest first, each entry with the statistics
      of its own class. */
  lemma ListWithStatsSpec(classes: seq<Class>, subjects: seq<Subject>, sessions: seq<Session>,
                          messages: seq<Message>, from: int, to: int, skip: nat, take: nat)
    ensures var r := ListWithStats(classes, subjects, sessions, messages, from, to, skip, take);
      |r| <= take &&
      (forall i :: 0 <= i < |r| ==> r[i].cls in classes) &&
      (forall i, j :: 0 <= i < j < |r| ==> r[j].cls.createdAt <= r[i].cls.createdAt) &&
      (forall i :: 0 <= i < |r| ==>
        r[i].stats == GetStats(subjects, sessions, messages, r[i].cls.id, from, to) &&
        r[i].subjectCount == r[i].stats.subjectsCount)
  {
    var o := SortBy(classes, CreatedKey, true);
    SortByMembers(classes, CreatedKey, true);
    SliceSorted(o, CreatedKey, true, skip, take);
    var f := Take(Drop(o, skip), take);
    var r := ListWithStats(classes, subjects, sessions, messages, from, to, skip, take);
    forall i | 0 <= i < |r|
      ensures r[i].cls in classes
    {
      assert r[i].cls == f[i] && f[i] in f;
    }
    forall i, j | 0 <= i < j < |r|
      ensures r[j].cls.createdAt <= r[i].cls.createdAt
    {
      assert Before(CreatedKey(f[i]), CreatedKey(f[j]), true);
    }
  }

  function Listed(e: ClassWithStats): Class { e.cls }

  // ----- writes -----

  /** The data `create` accepts; a missing `isActive` takes the database default. */
  datatype NewClass = NewClass(name: string, grade: Option<string>, isActive: Option<bool>)

  /** `create({ data })`: a new row with a fresh id and the current time. */
  method Create(db: Db, data: NewClass, id: string, now: int) returns (c: Class)
    requires db.Valid() && Fresh(db.classes, ClassId, id)
    modifies db`classes
    ensures db.Valid()
    ensures c == Class(id, data.name, data.grade,
                       if data.isActive.Some? then data.isActive.value else db.defaultIsActive, now)
    ensures db.classes == old(db.classes) + [c]
    ensures FindById(db.classes, ClassId, id) == Some(c)
  {
    c := Class(id, data.name, data.grade,
               if data.isActive.Some? then data.isActive.value else db.defaultIsActive, now);
    IdsValidAppend(db.classes, ClassId, c);
    db.classes := db.classes + [c];
    FindByIdUnique(db.classes, ClassId, |db.classes| - 1);
  }

  /** The fields `update` may set; a missing field is left as it is. */
  datatype ClassPatch = ClassPatch(name: Option<string>, grade: Option<string>, isActive: Option<bool>)

  function Patch(p: ClassPatch): Class -> Class {
    (c: Class) => c.(name := if p.name.Some? then p.name.value else c.name,
            grade := if p.grade.Some? then p.grade else c.grade,
            isActive := if p.isActive.Some? then p.isActive.value else c.isActive)
  }

  /** A patch sets exactly the fields it carries, keeps the id and the
      creation time, and applying it twice is applying it once. */
  lemma PatchSpec(p: ClassPatch, c: Class)
    ensures var d := Patch(p)(c);
      d.id == c.id && d.createdAt == c.createdAt &&
      (p.name.Some? ==> d.name == p.name.value) && (p.name.None? ==> d.name == c.name) &&
      (p.grade.Some? ==> d.grade == p.grade) && (p.grade.None? ==> d.grade == c.grade) &&
      (p.isActive.Some? ==> d.isActive == p.isActive.value) && (p.isActive.None? ==> d.isActive == c.isActive) &&
      Patch(p)(d) == d
  {
  }

  /** `update(id, data)`: an update of a missing row fails and writes nothing. */
  method Update(db: Db, id: string, p: ClassPatch) returns (r: Result<Class, string>)
    requires db.Valid()
    modifies db`classes
    ensures db.Valid()
    ensures FindById(old(db.classes), ClassId, id).None? ==> r.Failure? && unchanged(db)
    ensures FindById(old(db.classes), ClassId, id).Some? ==>
      r == Success(Patch(p)(FindById(old(db.classes), ClassId, id).value)) &&
      db.classes == UpdateById(old(db.classes), ClassId, id, Patch(p)) &&
      FindById(db.classes, ClassId, id) == Some(r.value)
  {
    var found := FindById(db.classes, ClassId, id);
    if found.None? {
      return Failure("Record to update not found");
    }
    UpdateByIdFinds(db.classes, ClassId, id, Patch(p));
    db.classes := UpdateById(db.classes, ClassId, id, Patch(p));
    r := Success(Patch(p)(found.value));
  }

  /** `delete(id)`: a hard delete with no check of the class's subjects or
      sessions, which keep their dangling class id; a missing row fails. */
  method Delete(db: Db, id: string) returns (r: Result<Class, string>)
    requires db.Valid()
    modifies db`classes
    ensures db.Valid()
    ensures FindById(old(db.classes), ClassId, id).None? ==> r.Failure? && unchanged(db)
    ensures FindById(old(db.classes), ClassId, id).Some? ==>
      r == Success(FindById(old(db.classes), ClassId, id).value) &&
      db.classes == RemoveById(old(db.classes), ClassId, id) &&
      FindById(db.classes, ClassId, id).None? && |db.classes| < |old(db.classes)|
    ensures db.subjects == old(db.subjects) && db.sessions == old(db.sessions)
  {
    var found := FindById(db.classes, ClassId, id);
    if found.None? {
      return Failure("Record to delete does not exist");
    }
    RemoveByIdEffect(db.classes, ClassId, id);
    db.classes := RemoveById(db.classes, ClassId, id);
    r := Success(found.value);
  }
}
