/** The database as in-memory tables: one record type per collection and
    one `Db` object whose fields are the collections, standing for the
    shared Prisma client that every repository writes through. */
module Schema {
  import opened Wrappers
  import opened Seqs
  import opened Dicts

  /** A user; `role` is "USER" or "ADMIN"; `selectedClass`/`selectedSubject`
      hold the names chosen on the context form. */
  datatype User = User(
    id: string,
    email: string,
    name: Option<string>,
    passwordHash: Option<string>,
    role: string,
    selectedClass: Option<string>,
    selectedSubject: Option<string>,
    createdAt: int,
    lastLoginAt: Option<int>)

  /** The separate admin record checked by the admin-creation route. */
  datatype Admin = Admin(id: string, userId: string, role: string)

  datatype Class = Class(id: string, name: string, grade: Option<string>, isActive: bool, createdAt: int)

  datatype Subject = Subject(id: string, name: string, classId: string, isActive: bool, createdAt: int)

  /** A user's folder; the class and subject names are optional labels. */
  datatype Folder = Folder(id: string, name: string, userId: string, className: Option<string>, subjectName: Option<string>)

  datatype Session = Session(
    id: string,
    userId: string,
    folderId: Option<string>,
    classId: Option<string>,
    subjectId: Option<string>,
    title: string,
    className: Option<string>,
    subjectName: Option<string>,
    messageCount: int,
    lastMessageAt: int,
    createdAt: int)

  datatype MessageRole = UserRole | AssistantRole | SystemRole

  datatype Message = Message(id: string, sessionId: string, role: MessageRole, content: string, createdAt: int)

  /** Every row has a non-empty id and no two rows share one. */
  predicate IdsValid<T>(rows: seq<T>, id: T -> string) {
    (forall i :: 0 <= i < |rows| ==> id(rows[i]) != "") &&
    (forall i, j :: 0 <= i < j < |rows| ==> id(rows[i]) != id(rows[j]))
  }

  /** A generated id is fresh when no row carries it yet. */
  predicate Fresh<T>(rows: seq<T>, id: T -> string, x: string) {
    x != "" && forall i :: 0 <= i < |rows| ==> id(rows[i]) != x
  }

  /** The unique index on `email`: no two users share one. */
  predicate EmailsUnique(users: seq<User>) {
    forall i, j :: 0 <= i < j < |users| ==> users[i].email != users[j].email
  }

  /** `findUnique({ where: { id } })`: the first row with that id. */
  function FindById<T(!new)>(rows: seq<T>, id: T -> string, x: string): (r: Option<T>)
    ensures r.Some? ==> r.value in rows && id(r.value) == x
    ensures r.None? <==> forall y :: y in rows ==> id(y) != x
  {
    if rows == [] then None
    else if id(rows[0]) == x then Some(rows[0])
    else FindById(rows[1..], id, x)
  }

  /** With unique ids, the row found is the only row with that id. */
  lemma {:induction false} FindByIdUnique<T(!new)>(rows: seq<T>, id: T -> string, k: int)
    requires IdsValid(rows, id) && 0 <= k < |rows|
    ensures FindById(rows, id, id(rows[k])) == Some(rows[k])
  {
    if k > 0 {
      assert id(rows[0]) != id(rows[k]);
      assert IdsValid(rows[1..], id) by {
        forall i, j | 0 <= i < j < |rows[1..]|
          ensures id(rows[1..][i]) != id(rows[1..][j])
        {
          assert rows[1..][i] == rows[i + 1] && rows[1..][j] == rows[j + 1];
        }
      }
      assert rows[1..][k - 1] == rows[k];
      FindByIdUnique(rows[1..], id, k - 1);
    }
  }

  lemma FindByIdMember<T(!new)>(rows: seq<T>, id: T -> string, x: T)
    requires IdsValid(rows, id) && x in rows
    ensures FindById(rows, id, id(x)) == Some(x)
  {
    var k :| 0 <= k < |rows| && rows[k] == x;
    FindByIdUnique(rows, id, k);
  }

  /** `findFirst({ where })`: the first row, in table order, that
      satisfies the condition. */
  function FindFirst<T(!new)>(rows: seq<T>, p: T -> bool): (r: Option<T>)
    ensures r.Some? ==> r.value in rows && p(r.value)
    ensures r.None? <==> forall x :: x in rows ==> !p(x)
  {
    if rows == [] then None
    else if p(rows[0]) then Some(rows[0])
    else FindFirst(rows[1..], p)
  }

  /** The row found is the head of the filtered table. */
  lemma {:induction false} FindFirstIsFilterHead<T(!new)>(rows: seq<T>, p: T -> bool)
    ensures FindFirst(rows, p) == if Filter(rows, p) == [] then None else Some(Filter(rows, p)[0])
  {
    if rows != [] {
      FindFirstIsFilterHead(rows[1..], p);
    }
  }

  /** A row appended at the end is found only when no earlier row matches. */
  lemma FindFirstAppend<T(!new)>(rows: seq<T>, p: T -> bool, x: T)
    ensures FindFirst(rows + [x], p) ==
      if FindFirst(rows, p).Some? then FindFirst(rows, p) else if p(x) then Some(x) else None
  {
    FilterConcat(rows, [x], p);
    FindFirstIsFilterHead(rows + [x], p);
    FindFirstIsFilterHead(rows, p);
  }

  /** `findFirst(...) || create(...)`: the rows afterwards and the record used. */
  function FindOrCreate<T(!new)>(rows: seq<T>, p: T -> bool, created: T): (seq<T>, T) {
    match FindFirst(rows, p)
    case Some(x) => (rows, x)
    case None => (rows + [created], created)
  }

  /** Find-or-create creates a row only when none matches, and afterwards
      the same lookup finds the record it used, so repeating it creates
      nothing more. */
  lemma FindOrCreateFinds<T(!new)>(rows: seq<T>, p: T -> bool, created: T)
    requires p(created)
    ensures var (rows', x) := FindOrCreate(rows, p, created);
      x in rows' && p(x) && FindFirst(rows', p) == Some(x) &&
      ((exists y :: y in rows && p(y)) ==> rows' == rows && Some(x) == FindFirst(rows, p)) &&
      ((forall y :: y in rows ==> !p(y)) ==> rows' == rows + [created] && x == created)
  {
    FindFirstAppend(rows, p, created);
  }

  /** Appending a row with a fresh id keeps the ids valid. */
  lemma IdsValidAppend<T>(rows: seq<T>, id: T -> string, x: T)
    requires IdsValid(rows, id) && Fresh(rows, id, id(x))
    ensures IdsValid(rows + [x], id)
  {
    var r := rows + [x];
    forall i, j | 0 <= i < j < |r|
      ensures id(r[i]) != id(r[j])
    {
      assert r[i] == rows[i];
    }
  }

  /** Removing rows keeps the ids valid. */
  lemma IdsValidFilter<T(!new)>(rows: seq<T>, id: T -> string, p: T -> bool)
    requires IdsValid(rows, id)
    ensures IdsValid(Filter(rows, p), id)
  {
    var r := Filter(rows, p);
    forall i | 0 <= i < |r|
      ensures id(r[i]) != ""
    {
      assert r[i] in rows;
    }
    IdsValidFilterDistinct(rows, id, p);
  }

  lemma {:induction false} IdsValidFilterDistinct<T(!new)>(rows: seq<T>, id: T -> string, p: T -> bool)
    requires forall i, j :: 0 <= i < j < |rows| ==> id(rows[i]) != id(rows[j])
    ensures forall i, j :: 0 <= i < j < |Filter(rows, p)| ==> id(Filter(rows, p)[i]) != id(Filter(rows, p)[j])
  {
    if rows != [] {
      var t := rows[1..];
      assert forall i, j :: 0 <= i < j < |t| ==> id(t[i]) != id(t[j]) by {
        forall i, j | 0 <= i < j < |t|
          ensures id(t[i]) != id(t[j])
        {
          assert t[i] == rows[i + 1] && t[j] == rows[j + 1];
        }
      }
      IdsValidFilterDistinct(t, id, p);
      if p(rows[0]) {
        var f := Filter(t, p);
        var r := [rows[0]] + f;
        forall i, j | 0 <= i < j < |r|
          ensures id(r[i]) != id(r[j])
        {
          if i == 0 {
            assert r[j] in t;
            var m :| 0 <= m < |t| && t[m] == r[j];
            assert rows[m + 1] == r[j];
          } else {
            assert r[i] == f[i - 1] && r[j] == f[j - 1];
          }
        }
      }
    }
  }

  /** Replace the row with id `x` by `f` of it; the other rows are untouched. */
  function UpdateById<T>(rows: seq<T>, id: T -> string, x: string, f: T -> T): (r: seq<T>)
    ensures |r| == |rows|
    ensures forall i :: 0 <= i < |rows| ==> r[i] == if id(rows[i]) == x then f(rows[i]) else rows[i]
  {
    seq(|rows|, i requires 0 <= i < |rows| => if id(rows[i]) == x then f(rows[i]) else rows[i])
  }

  /** An update that keeps the search condition finds the updated image
      of the row found before. */
  lemma {:induction false} FindFirstUpdate<T(!new)>(rows: seq<T>, id: T -> string, x: string, f: T -> T, p: T -> bool)
    requires forall y :: p(f(y)) == p(y)
    ensures FindFirst(UpdateById(rows, id, x, f), p) ==
      match FindFirst(rows, p)
      case None => None
      case Some(y) => Some(if id(y) == x then f(y) else y)
  {
    if rows != [] {
      assert UpdateById(rows, id, x, f)[1..] == UpdateById(rows[1..], id, x, f);
      FindFirstUpdate(rows[1..], id, x, f, p);
    }
  }

  /** An update that keeps ids keeps them valid. */
  lemma IdsValidUpdate<T>(rows: seq<T>, id: T -> string, x: string, f: T -> T)
    requires IdsValid(rows, id)
    requires forall y :: id(f(y)) == id(y)
    ensures IdsValid(UpdateById(rows, id, x, f), id)
  {
  }

  /** An update that keeps emails keeps them unique. */
  lemma EmailsUniqueUpdate(users: seq<User>, id: User -> string, x: string, f: User -> User)
    requires EmailsUnique(users)
    requires forall u :: f(u).email == u.email
    ensures EmailsUnique(UpdateById(users, id, x, f))
  {
  }

  /** Updating the row with id `x`, when one exists, keeps the ids valid
      and finds the updated image of that row under the same id. */
  lemma UpdateByIdFinds<T(!new)>(rows: seq<T>, id: T -> string, x: string, f: T -> T)
    requires IdsValid(rows, id) && FindById(rows, id, x).Some?
    requires forall y :: id(f(y)) == id(y)
    ensures IdsValid(UpdateById(rows, id, x, f), id)
    ensures FindById(UpdateById(rows, id, x, f), id, x) == Some(f(FindById(rows, id, x).value))
  {
    var k :| 0 <= k < |rows| && rows[k] == FindById(rows, id, x).value;
    IdsValidUpdate(rows, id, x, f);
    FindByIdUnique(UpdateById(rows, id, x, f), id, k);
  }

  /** The rows whose id is not `x`: `delete({ where: { id } })` once the row exists. */
  function RemoveById<T(!new)>(rows: seq<T>, id: T -> string, x: string): seq<T> {
    Filter(rows, IdIsNot(id, x))
  }

  function IdIsNot<T>(id: T -> string, x: string): T -> bool {
    r => id(r) != x
  }

  /** Deleting by id keeps exactly the other rows, in order, keeps the ids
      valid, leaves no row with that id, and shortens the table when one
      was there. */
  lemma RemoveByIdEffect<T(!new)>(rows: seq<T>, id: T -> string, x: string)
    requires IdsValid(rows, id)
    ensures var r := RemoveById(rows, id, x);
      IdsValid(r, id) && FindById(r, id, x).None? &&
      (forall y :: y in r <==> y in rows && id(y) != x) &&
      (FindById(rows, id, x).Some? ==> |r| < |rows|)
  {
    IdsValidFilter(rows, id, IdIsNot(id, x));
    if FindById(rows, id, x).Some? {
      FilterShrinks(rows, IdIsNot(id, x), FindById(rows, id, x).value);
    }
  }

  function UserId(u: User): string { u.id }
  function AdminId(a: Admin): string { a.id }
  function ClassId(c: Class): string { c.id }
  function SubjectId(s: Subject): string { s.id }
  function FolderId(f: Folder): string { f.id }
  function SessionId(s: Session): string { s.id }
  function MessageId(m: Message): string { m.id }

  function SessionUser(s: Session): string { s.userId }

  /** `chatSession.groupBy({ by: ['userId'], where })`: one group per
      distinct user among the sessions kept, in first-seen order. */
  function UserGroups(sessions: seq<Session>, where: Session -> bool): seq<string> {
    FirstOccurrences(Map(Filter(sessions, where), SessionUser))
  }

  /** The number of groups is the number of distinct users owning a kept session. */
  lemma UserGroupsCount(sessions: seq<Session>, where: Session -> bool)
    ensures |UserGroups(sessions, where)| == |set s | s in sessions && where(s) :: s.userId|
  {
    var f := Filter(sessions, where);
    var ks := Map(f, SessionUser);
    FirstOccurrencesCount(ks);
    var users := set s | s in sessions && where(s) :: s.userId;
    forall k | k in ks
      ensures k in users
    {
      var i :| 0 <= i < |ks| && ks[i] == k;
      assert f[i] in f;
    }
    forall k | k in users
      ensures k in ks
    {
      var s :| s in sessions && where(s) && s.userId == k;
      var i :| 0 <= i < |f| && f[i] == s;
      assert ks[i] == k;
    }
    assert (set k | k in ks) == users;
  }

  /** A `where` on a message's session (`where: { session: { ... } }`):
      a message whose session row is missing never matches. */
  function SessionMatches(sessions: seq<Session>, where: Session -> bool): Message -> bool {
    (m: Message) => match FindById(sessions, SessionId, m.sessionId)
         case Some(s) => where(s)
         case None => false
  }

  /** The shared Prisma client: one mutable collection per table. The
      defaults the database schema fills in are constants fixed when the
      database is opened. */
  class Db {
    var users: seq<User>
    var admins: seq<Admin>
    var classes: seq<Class>
    var subjects: seq<Subject>
    var folders: seq<Folder>
    var sessions: seq<Session>
    var messages: seq<Message>
    /** Role given to a user created without one. */
    const defaultRole: string
    /** `messageCount` of a session created without one. */
    const defaultMessageCount: int
    /** `isActive` of a class or subject created without one. */
    const defaultIsActive: bool

    constructor(defaultRole: string, defaultMessageCount: int, defaultIsActive: bool)
      ensures users == [] && admins == [] && classes == [] && subjects == []
      ensures folders == [] && sessions == [] && messages == []
      ensures this.defaultRole == defaultRole && this.defaultMessageCount == defaultMessageCount
      ensures this.defaultIsActive == defaultIsActive
    {
      users, admins, classes, subjects := [], [], [], [];
      folders, sessions, messages := [], [], [];
      this.defaultRole := defaultRole;
      this.defaultMessageCount := defaultMessageCount;
      this.defaultIsActive := defaultIsActive;
    }

    /** Every table has valid ids (the database's primary keys), and no
        two users share an email (its unique index). */
    predicate Valid()
      reads this
    {
      IdsValid(users, UserId) && IdsValid(admins, AdminId) && IdsValid(classes, ClassId) &&
      IdsValid(subjects, SubjectId) && IdsValid(folders, FolderId) &&
      IdsValid(sessions, SessionId) && IdsValid(messages, MessageId) &&
      EmailsUnique(users)
    }
  }
}
