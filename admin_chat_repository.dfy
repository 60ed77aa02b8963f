/** The admin view of chat sessions: a filtered, searchable listing of
    every user's sessions with their owner, class, subject and message
    count; the total under a `where`; one session with its relations; and
    a session's messages oldest first. */
module AdminChatRepository {
  import opened Wrappers
  import opened Text
  import opened Seqs
  import opened Sorting
  import opened Schema
  import opened Paging
  import ChatRepository

  /** The filters of `findAll`, with the dates already read as instants. */
  datatype ChatFilter = ChatFilter(classId: Option<string>, subjectId: Option<string>, q: Option<string>,
                                   from: Option<int>, to: Option<int>)

  /** `{ gte: from, lte: to }` on `lastMessageAt`; a missing bound is no bound. */
  predicate InRange(t: int, from: Option<int>, to: Option<int>) {
    (from.None? || from.value <= t) && (to.None? || t <= to.value)
  }

  /** The owner's email or name contains the search, ignoring case; a
      missing owner or a missing name does not match. */
  predicate OwnerMatches(users: seq<User>, userId: string, q: string) {
    match FindById(users, UserId, userId)
    case None => false
    case Some(u) => ContainsInsensitive(u.email, q) || (u.name.Some? && ContainsInsensitive(u.name.value, q))
  }

  /** The `OR` of the search: title, id, or the owner's email or name. */
  predicate SearchMatches(users: seq<User>, s: Session, q: string) {
    ContainsInsensitive(s.title, q) || ContainsInsensitive(s.id, q) || OwnerMatches(users, s.userId, q)
  }

  /** The `where` `findAll` builds: a selected class or subject (set and
      not "all") must match, the last message time must be in range, and a
      non-empty search must match. */
  function ChatWhere(users: seq<User>, f: ChatFilter): Session -> bool {
    (s: Session) =>
      (!Selected(f.classId) || s.classId == Some(f.classId.value)) &&
      (!Selected(f.subjectId) || s.subjectId == Some(f.subjectId.value)) &&
      InRange(s.lastMessageAt, f.from, f.to) &&
      (!Truthy(f.q) || SearchMatches(users, s, f.q.value))
  }

  /** The selected owner fields. */
  datatype Owner = Owner(email: string, name: Option<string>)

  /** A listed session with its owner, the names of its linked class and
      subject rows, and its number of messages. */
  datatype ChatRow = ChatRow(session: Session, owner: Option<Owner>, className: Option<string>,
                             subjectName: Option<string>, messageTotal: nat)

  function OwnerOf(users: seq<User>, userId: string): Option<Owner> {
    match FindById(users, UserId, userId)
    case Some(u) => Some(Owner(u.email, u.name))
    case None => None
  }

  function ClassNameOf(classes: seq<Class>, classId: Option<string>): Option<string> {
    if classId.None? then None
    else match FindById(classes, ClassId, classId.value)
      case Some(c) => Some(c.name)
      case None => None
  }

  function SubjectNameOf(subjects: seq<Subject>, subjectId: Option<string>): Option<string> {
    if subjectId.None? then None
    else match FindById(subjects, SubjectId, subjectId.value)
      case Some(s) => Some(s.name)
      case None => None
  }

  function WithDetails(users: seq<User>, classes: seq<Class>, subjects: seq<Subject>,
                       messages: seq<Message>): Session -> ChatRow
  {
    (s: Session) => ChatRow(s, OwnerOf(users, s.userId), ClassNameOf(classes, s.classId),
                            SubjectNameOf(subjects, s.subjectId),
                            Count(messages, ChatRepository.InSession(s.id)))
  }

  function Listed(r: ChatRow): Session { r.session }

  /** An explicit skip wins; otherwise a non-empty cursor skips itself. */
  function FinalSkip(skip: Option<nat>, cursor: Option<string>): nat {
    if skip.Some? then skip.value else if Truthy(cursor) then 1 else 0
  }

  /** `findAll(...)`: newest activity first, ties by id descending. */
  function FindAll(sessions: seq<Session>, users: seq<User>, classes: seq<Class>, subjects: seq<Subject>,
                   messages: seq<Message>, f: ChatFilter, limit: nat, cursor: Option<string>,
                   skip: Option<nat>): seq<ChatRow>
  {
    Map(FindMany(sessions, ChatWhere(users, f), ChatRepository.SessionKey, true, SessionId, cursor,
                 FinalSkip(skip, cursor), limit),
        WithDetails(users, classes, subjects, messages))
  }

  /** At most `limit` rows, each a stored session that meets every filter
      spelled out, carrying its own relations and count, ordered by
      `(lastMessageAt, id)` descending. */
  lemma FindAllShape(sessions: seq<Session>, users: seq<User>, classes: seq<Class>, subjects: seq<Subject>,
                     messages: seq<Message>, f: ChatFilter, limit: nat, cursor: Option<string>,
                     skip: Option<nat>)
    ensures var r := FindAll(sessions, users, classes, subjects, messages, f, limit, cursor, skip);
      |r| <= limit &&
      (forall i :: 0 <= i < |r| ==>
        r[i].session in sessions &&
        (Selected(f.classId) ==> r[i].session.classId == Some(f.classId.value)) &&
        (Selected(f.subjectId) ==> r[i].session.subjectId == Some(f.subjectId.value)) &&
        (f.from.Some? ==> f.from.value <= r[i].session.lastMessageAt) &&
        (f.to.Some? ==> r[i].session.lastMessageAt <= f.to.value) &&
        (Truthy(f.q) ==> SearchMatches(users, r[i].session, f.q.value)) &&
        r[i].owner == OwnerOf(users, r[i].session.userId) &&
        r[i].messageTotal == Count(messages, ChatRepository.InSession(r[i].session.id))) &&
      (forall i, j :: 0 <= i < j < |r| ==>
        KeyLe(ChatRepository.SessionKey(r[j].session), ChatRepository.SessionKey(r[i].session)))
  {
    var w := ChatWhere(users, f);
    var n := FinalSkip(skip, cursor);
    var g := FindMany(sessions, w, ChatRepository.SessionKey, true, SessionId, cursor, n, limit);
    FindManyShape(sessions, w, ChatRepository.SessionKey, true, SessionId, cursor, n, limit);
    var r := FindAll(sessions, users, classes, subjects, messages, f, limit, cursor, skip);
    forall i | 0 <= i < |r|
      ensures r[i].session in sessions && w(r[i].session)
    {
      assert r[i].session == g[i] && g[i] in g;
    }
  }

  /** With unique ids and the cursor naming the `k`-th session of the
      filtered listing, an explicit skip counts from the cursor row itself,
      and without one the page starts right after it. */
  lemma FindAllAtCursor(sessions: seq<Session>, users: seq<User>, classes: seq<Class>, subjects: seq<Subject>,
                        messages: seq<Message>, f: ChatFilter, limit: nat, skip: Option<nat>, k: nat)
    requires IdsValid(sessions, SessionId)
    requires 0 < k <= |Ordered(sessions, ChatWhere(users, f), ChatRepository.SessionKey, true)|
    ensures var o := Ordered(sessions, ChatWhere(users, f), ChatRepository.SessionKey, true);
      skip.Some? ==>
      Map(FindAll(sessions, users, classes, subjects, messages, f, limit, Some(o[k - 1].id), skip), Listed) ==
        Take(Drop(o[k - 1..], skip.value), limit)
    ensures var o := Ordered(sessions, ChatWhere(users, f), ChatRepository.SessionKey, true);
      skip.None? ==>
      Map(FindAll(sessions, users, classes, subjects, messages, f, limit, Some(o[k - 1].id), skip), Listed) ==
        Take(o[k..], limit)
  {
    var w := ChatWhere(users, f);
    var o := Ordered(sessions, w, ChatRepository.SessionKey, true);
    var c := SessionId(o[k - 1]);
    assert o[k - 1] in o;
    SortByMembers(Filter(sessions, w), ChatRepository.SessionKey, true);
    assert c != "" by {
      var m :| 0 <= m < |sessions| && sessions[m] == o[k - 1];
    }
    var n := FinalSkip(skip, Some(c));
    ChatRepository.SessionKeyEndsWithId();
    FindManyAtCursor(sessions, w, ChatRepository.SessionKey, true, SessionId, n, limit, k);
    var g := FindMany(sessions, w, ChatRepository.SessionKey, true, SessionId, Some(c), n, limit);
    assert g == Take(Drop(o[k - 1..], n), limit);
    var d := WithDetails(users, classes, subjects, messages);
    assert FindAll(sessions, users, classes, subjects, messages, f, limit, Some(c), skip) == Map(g, d);
    MapListed(g, d);
    if skip.None? {
      assert Drop(o[k - 1..], 1) == o[k..];
    }
  }

  /** The rows keep their sessions, in order. */
  lemma MapListed(g: seq<Session>, d: Session -> ChatRow)
    requires forall s :: d(s).session == s
    ensures Map(Map(g, d), Listed) == g
  {
    assert forall i :: 0 <= i < |g| ==> Map(Map(g, d), Listed)[i] == g[i];
  }

  /** Without a cursor, an explicit skip is an offset into the filtered
      listing. */
  lemma FindAllOffset(sessions: seq<Session>, users: seq<User>, classes: seq<Class>, subjects: seq<Subject>,
                      messages: seq<Message>, f: ChatFilter, limit: nat, skip: nat)
    ensures Map(FindAll(sessions, users, classes, subjects, messages, f, limit, None, Some(skip)), Listed) ==
            Take(Drop(Ordered(sessions, ChatWhere(users, f), ChatRepository.SessionKey, true), skip), limit)
  {
    var g := FindMany(sessions, ChatWhere(users, f), ChatRepository.SessionKey, true, SessionId, None, skip, limit);
    MapListed(g, WithDetails(users, classes, subjects, messages));
  }

  /** `countAll(where)` */
  function CountAll(sessions: seq<Session>, where: Session -> bool): nat {
    Count(sessions, where)
  }

  /** A session with its owner and the names of its class and subject. */
  datatype ChatDetail = ChatDetail(session: Session, owner: Option<Owner>, className: Option<string>,
                                   subjectName: Option<string>)

  /** `findById(sessionId)`: `None` when no session has that id. */
  function FindChat(sessions: seq<Session>, users: seq<User>, classes: seq<Class>, subjects: seq<Subject>,
                    sessionId: string): (r: Option<ChatDetail>)
    ensures r.None? <==> forall s :: s in sessions ==> s.id != sessionId
    ensures r.Some? ==>
      r.value.session in sessions && r.value.session.id == sessionId &&
      r.value.owner == OwnerOf(users, r.value.session.userId) &&
      r.value.className == ClassNameOf(classes, r.value.session.classId) &&
      r.value.subjectName == SubjectNameOf(subjects, r.value.session.subjectId)
  {
    match FindById(sessions, SessionId, sessionId)
    case None => None
    case Some(s) => Some(ChatDetail(s, OwnerOf(users, s.userId), ClassNameOf(classes, s.classId),
                                    SubjectNameOf(subjects, s.subjectId)))
  }

  /** The default page size of `findMessages`. */
  const MESSAGES_LIMIT: nat := 50

  /** `findMessages({ sessionId, limit, cursor })`: oldest first by
      `createdAt` alone; a non-empty cursor skips itself. */
  function FindMessages(messages: seq<Message>, sessionId: string, limit: Option<nat>,
                        cursor: Option<string>): seq<Message>
  {
    var take := if limit.Some? then limit.value else MESSAGES_LIMIT;
    FindMany(messages, ChatRepository.InSession(sessionId), ChatRepository.CreatedAtKey, false, MessageId,
             cursor, if Truthy(cursor) then 1 else 0, take)
  }

  /** At most `limit` (50 when not given) messages, all of that session,
      in non-decreasing `createdAt` order. */
  lemma FindMessagesShape(messages: seq<Message>, sessionId: string, limit: Option<nat>, cursor: Option<string>)
    ensures var r := FindMessages(messages, sessionId, limit, cursor);
      |r| <= (if limit.Some? then limit.value else 50) &&
      (forall m :: m in r ==> m in messages && m.sessionId == sessionId) &&
      (forall i, j :: 0 <= i < j < |r| ==> r[i].createdAt <= r[j].createdAt)
  {
    var take := if limit.Some? then limit.value else MESSAGES_LIMIT;
    FindManyShape(messages, ChatRepository.InSession(sessionId), ChatRepository.CreatedAtKey, false, MessageId,
                  cursor, if Truthy(cursor) then 1 else 0, take);
  }

  /** Without a cursor, a session with no more messages than the limit is
      shown in full: the page holds exactly its messages. */
  lemma FindMessagesAll(messages: seq<Message>, sessionId: string, limit: Option<nat>)
    requires Count(messages, ChatRepository.InSession(sessionId)) <= (if limit.Some? then limit.value else 50)
    ensures multiset(FindMessages(messages, sessionId, limit, None)) ==
            multiset(Filter(messages, ChatRepository.InSession(sessionId)))
  {
    var g := Filter(messages, ChatRepository.InSession(sessionId));
    SortByMembers(g, ChatRepository.CreatedAtKey, false);
  }
}
