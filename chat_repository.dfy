/** The chat store: sessions listed newest-activity first and messages
    oldest first, both with an id cursor resolved to a compound key; an
    ownership test; and the writes (session creation with its first
    messages, the two-message exchange, deletion). */
module ChatRepository {
  import opened Wrappers
  import opened Text
  import opened Seqs
  import opened Sorting
  import opened Schema
  import opened Paging

  /** Sessions are ordered by `(lastMessageAt, id)`. */
  function SessionKey(s: Session): Key { Key(s.lastMessageAt, s.id) }

  /** Messages are ordered by `(createdAt, id)`. */
  function MessageKey(m: Message): Key { Key(m.createdAt, m.id) }

  /** The session cursor condition as written: an earlier `lastMessageAt`,
      or the same one and a smaller id. */
  predicate BelowCursor(s: Session, c: Session) {
    s.lastMessageAt < c.lastMessageAt || (s.lastMessageAt == c.lastMessageAt && Less(s.id, c.id))
  }

  /** The message cursor condition as written: a later `createdAt`, or the
      same one and a greater id. */
  predicate AfterCursor(m: Message, c: Message) {
    m.createdAt > c.createdAt || (m.createdAt == c.createdAt && Less(c.id, m.id))
  }

  /** The hand-written session condition is the strict compound-key
      inequality in descending order. */
  lemma BelowCursorIsStrict(s: Session, c: Session)
    ensures BelowCursor(s, c) <==> StrictlyBefore(SessionKey(c), SessionKey(s), true)
  {
    if Less(s.id, c.id) {
      LessIrreflexive(s.id);
    }
    if s.lastMessageAt == c.lastMessageAt && LessEq(s.id, c.id) && s.id != c.id {
      assert Less(s.id, c.id);
    }
  }

  /** The hand-written message condition is the strict compound-key
      inequality in ascending order. */
  lemma AfterCursorIsStrict(m: Message, c: Message)
    ensures AfterCursor(m, c) <==> StrictlyBefore(MessageKey(c), MessageKey(m), false)
  {
    if Less(c.id, m.id) {
      LessIrreflexive(c.id);
    }
  }

  /** The `where` of `listSessions`: the user's sessions below the cursor row, if any. */
  function SessionWhere(userId: string, cursorData: Option<Session>): Session -> bool {
    (s: Session) => s.userId == userId && (cursorData.None? || BelowCursor(s, cursorData.value))
  }

  /** The `where` of `listMessages`: the session's messages after the cursor row, if any. */
  function MessageWhere(sessionId: string, cursorData: Option<Message>): Message -> bool {
    (m: Message) => m.sessionId == sessionId && (cursorData.None? || AfterCursor(m, cursorData.value))
  }

  /** `listSessions(userId, limit, cursor)`. */
  function ListSessions(sessions: seq<Session>, userId: string, limit: nat, cursor: Option<string>): (r: seq<Session>)
    ensures |r| <= limit
    ensures forall s :: s in r ==> s in sessions && s.userId == userId
    ensures Sorted(r, SessionKey, true)
    ensures ResolveCursor(sessions, SessionId, cursor).Some? ==>
              forall s :: s in r ==> BelowCursor(s, ResolveCursor(sessions, SessionId, cursor).value)
  {
    var cursorData := ResolveCursor(sessions, SessionId, cursor);
    var f := Filter(sessions, SessionWhere(userId, cursorData));
    var o := SortBy(f, SessionKey, true);
    SortByMembers(f, SessionKey, true);
    var r := Take(o, limit);
    assert forall s :: s in r ==> s in o;
    assert Sorted(r, SessionKey, true) by {
      forall i, j | 0 <= i < j < |r|
        ensures Before(SessionKey(r[i]), SessionKey(r[j]), true)
      {
        assert r[i] == o[i] && r[j] == o[j];
      }
    }
    r
  }

  /** A listed session with the `name` of its folder, as the `include` of
      `listSessions` selects it. */
  datatype SessionWithFolder = SessionWithFolder(session: Session, folderName: Option<string>)

  /** The folder joined to a session: none without a folder id or without
      a folder row carrying it. */
  function FolderName(folders: seq<Folder>, s: Session): Option<string> {
    if s.folderId.None? then None
    else
      match FindById(folders, FolderId, s.folderId.value)
      case None => None
      case Some(f) => Some(f.name)
  }

  /** `listSessions` with its `include`: the page of `ListSessions`, each
      session paired with the name of the folder it points to. */
  function ListSessionsWithFolders(sessions: seq<Session>, folders: seq<Folder>, userId: string, limit: nat,
                                   cursor: Option<string>): (r: seq<SessionWithFolder>)
    ensures var page := ListSessions(sessions, userId, limit, cursor);
      |r| == |page| && forall i :: 0 <= i < |r| ==> r[i].session == page[i]
    ensures forall i :: 0 <= i < |r| ==>
      (r[i].folderName.Some? <==>
         r[i].session.folderId.Some? && exists f :: f in folders && f.id == r[i].session.folderId.value)
    ensures forall i :: 0 <= i < |r| && r[i].folderName.Some? ==>
      exists f :: f in folders && f.id == r[i].session.folderId.value && f.name == r[i].folderName.value
  {
    var page := ListSessions(sessions, userId, limit, cursor);
    seq(|page|, i requires 0 <= i < |page| => SessionWithFolder(page[i], FolderName(folders, page[i])))
  }

  /** `listMessages(sessionId, limit, cursor)`. */
  function ListMessages(messages: seq<Message>, sessionId: string, limit: nat, cursor: Option<string>): (r: seq<Message>)
    ensures |r| <= limit
    ensures forall m :: m in r ==> m in messages && m.sessionId == sessionId
    ensures Sorted(r, MessageKey, false)
    ensures ResolveCursor(messages, MessageId, cursor).Some? ==>
              forall m :: m in r ==> AfterCursor(m, ResolveCursor(messages, MessageId, cursor).value)
  {
    var cursorData := ResolveCursor(messages, MessageId, cursor);
    var f := Filter(messages, MessageWhere(sessionId, cursorData));
    var o := SortBy(f, MessageKey, false);
    SortByMembers(f, MessageKey, false);
    var r := Take(o, limit);
    assert forall m :: m in r ==> m in o;
    assert Sorted(r, MessageKey, false) by {
      forall i, j | 0 <= i < j < |r|
        ensures Before(MessageKey(r[i]), MessageKey(r[j]), false)
      {
        assert r[i] == o[i] && r[j] == o[j];
      }
    }
    r
  }

  function OwnedBy(userId: string): Session -> bool {
    (s: Session) => s.userId == userId
  }

  function InSession(sessionId: string): Message -> bool {
    (m: Message) => m.sessionId == sessionId
  }

  /** The session listing is the generic cursor page. */
  lemma ListSessionsIsPage(sessions: seq<Session>, userId: string, limit: nat, cursor: Option<string>)
    ensures ListSessions(sessions, userId, limit, cursor)
         == Page(sessions, OwnedBy(userId), SessionKey, SessionId, true, limit, cursor)
  {
    var c := ResolveCursor(sessions, SessionId, cursor);
    forall s | s in sessions
      ensures SessionWhere(userId, c)(s) == PageScope(OwnedBy(userId), SessionKey, true, c)(s)
    {
      if c.Some? {
        BelowCursorIsStrict(s, c.value);
      }
    }
    FilterExt(sessions, SessionWhere(userId, c), PageScope(OwnedBy(userId), SessionKey, true, c));
  }

  /** The message listing is the generic cursor page. */
  lemma ListMessagesIsPage(messages: seq<Message>, sessionId: string, limit: nat, cursor: Option<string>)
    ensures ListMessages(messages, sessionId, limit, cursor)
         == Page(messages, InSession(sessionId), MessageKey, MessageId, false, limit, cursor)
  {
    var c := ResolveCursor(messages, MessageId, cursor);
    forall m | m in messages
      ensures MessageWhere(sessionId, c)(m) == PageScope(InSession(sessionId), MessageKey, false, c)(m)
    {
      if c.Some? {
        AfterCursorIsStrict(m, c.value);
      }
    }
    FilterExt(messages, MessageWhere(sessionId, c), PageScope(InSession(sessionId), MessageKey, false, c));
  }

  /** A cursor id that names no session is ignored: the first page again. */
  lemma UnknownSessionCursorIgnored(sessions: seq<Session>, userId: string, limit: nat, cursor: string)
    requires forall s :: s in sessions ==> s.id != cursor
    ensures ListSessions(sessions, userId, limit, Some(cursor)) == ListSessions(sessions, userId, limit, None)
  {
    assert ResolveCursor(sessions, SessionId, Some(cursor)).None?;
  }

  /** The user's sessions in listing order, newest activity first. */
  function UserSessions(sessions: seq<Session>, userId: string): seq<Session> {
    Ordered(sessions, OwnedBy(userId), SessionKey, true)
  }

  lemma SessionKeyEndsWithId()
    ensures KeyEndsWithId(SessionKey, SessionId)
  {
  }

  lemma MessageKeyEndsWithId()
    ensures KeyEndsWithId(MessageKey, MessageId)
  {
  }

  /** With no writes in between, the page after the cursor "id of the k-th
      session seen" is the next `limit` sessions of the user's listing. */
  lemma SessionPageAt(sessions: seq<Session>, userId: string, limit: nat, k: nat)
    requires IdsValid(sessions, SessionId)
    requires k <= |UserSessions(sessions, userId)|
    ensures var f := UserSessions(sessions, userId);
            ListSessions(sessions, userId, limit, CursorAt(f, SessionId, k)) == Take(f[k..], limit)
  {
    var f := UserSessions(sessions, userId);
    ListSessionsIsPage(sessions, userId, limit, CursorAt(f, SessionId, k));
    SessionKeyEndsWithId();
    PageAt(sessions, OwnedBy(userId), SessionKey, SessionId, true, limit, k);
  }

  /** Paging through a user's sessions with successive last ids, until a
      page comes back short, returns each of the user's sessions exactly
      once, newest activity first. */
  lemma BrowseSessionsComplete(sessions: seq<Session>, userId: string, limit: nat, pages: nat)
    requires IdsValid(sessions, SessionId)
    requires limit > 0 && pages * limit > |Filter(sessions, OwnedBy(userId))|
    ensures var b := Browse(c => ListSessions(sessions, userId, limit, c), SessionId, limit, None, pages);
            b == UserSessions(sessions, userId) &&
            multiset(b) == multiset(Filter(sessions, OwnedBy(userId))) &&
            Sorted(b, SessionKey, true)
  {
    SessionPagesServeSlices(sessions, userId, limit);
    BrowseFrom(c => ListSessions(sessions, userId, limit, c), SessionId, limit, UserSessions(sessions, userId), 0, pages);
  }

  /** The session listing serves the user's ordered sessions slice by slice. */
  lemma SessionPagesServeSlices(sessions: seq<Session>, userId: string, limit: nat)
    requires IdsValid(sessions, SessionId)
    ensures ServesSlices(c => ListSessions(sessions, userId, limit, c), SessionId, limit, UserSessions(sessions, userId))
  {
    var f := UserSessions(sessions, userId);
    forall k: nat | k <= |f|
      ensures ListSessions(sessions, userId, limit, CursorAt(f, SessionId, k)) == Take(f[k..], limit)
    {
      SessionPageAt(sessions, userId, limit, k);
    }
  }

  /** Two successive session pages share no session. */
  lemma SecondPageDisjoint(sessions: seq<Session>, userId: string, limit: nat, p1: seq<Session>, p2: seq<Session>)
    requires IdsValid(sessions, SessionId)
    requires p1 == ListSessions(sessions, userId, limit, None) && p1 != []
    requires p2 == ListSessions(sessions, userId, limit, Some(p1[|p1| - 1].id))
    ensures forall i, j :: 0 <= i < |p1| && 0 <= j < |p2| ==> p1[i].id != p2[j].id
  {
    var page := c => ListSessions(sessions, userId, limit, c);
    assert page(None) == p1;
    assert page(Some(SessionId(p1[|p1| - 1]))) == p2;
    SessionPagesServeSlices(sessions, userId, limit);
    OrderedIdsDistinct(sessions, OwnedBy(userId), SessionKey, SessionId, true);
    NextPageDisjoint(page, SessionId, limit, UserSessions(sessions, userId));
    assert forall i, j :: 0 <= i < |p1| && 0 <= j < |p2| ==> SessionId(p1[i]) != SessionId(p2[j]);
  }

  /** The session's messages in listing order, oldest first. */
  function SessionMessages(messages: seq<Message>, sessionId: string): seq<Message> {
    Ordered(messages, InSession(sessionId), MessageKey, false)
  }

  /** Message pages follow the session's messages without gap or repeat. */
  lemma MessagePageAt(messages: seq<Message>, sessionId: string, limit: nat, k: nat)
    requires IdsValid(messages, MessageId)
    requires k <= |SessionMessages(messages, sessionId)|
    ensures var f := SessionMessages(messages, sessionId);
            ListMessages(messages, sessionId, limit, CursorAt(f, MessageId, k)) == Take(f[k..], limit)
  {
    var f := SessionMessages(messages, sessionId);
    ListMessagesIsPage(messages, sessionId, limit, CursorAt(f, MessageId, k));
    MessageKeyEndsWithId();
    PageAt(messages, InSession(sessionId), MessageKey, MessageId, false, limit, k);
  }

  /** `isOwner(sessionId, userId)`: a count of sessions with both fields, compared to zero. */
  function IsOwner(sessions: seq<Session>, sessionId: string, userId: string): (r: bool)
    ensures r <==> exists s :: s in sessions && s.id == sessionId && s.userId == userId
  {
    var matching := Filter(sessions, (s: Session) => s.id == sessionId && s.userId == userId);
    assert matching != [] ==> matching[0] in matching;
    Count(sessions, (s: Session) => s.id == sessionId && s.userId == userId) > 0
  }

  /** A session has one owner: nobody else passes the ownership test. */
  lemma OwnerIsUnique(sessions: seq<Session>, sessionId: string, a: string, b: string)
    requires IdsValid(sessions, SessionId)
    requires IsOwner(sessions, sessionId, a) && a != b
    ensures !IsOwner(sessions, sessionId, b)
  {
  }

  /** Key of the message order used by `findSessionById`: `createdAt` only;
      ties keep the table's order. */
  function CreatedAtKey(m: Message): Key { Key(m.createdAt, "") }

  datatype SessionWithMessages = SessionWithMessages(session: Session, messages: seq<Message>)

  /** `findSessionById(id)`: the session with all its messages by `createdAt`. */
  function FindSessionById(sessions: seq<Session>, messages: seq<Message>, id: string): (r: Option<SessionWithMessages>)
    ensures r.None? <==> forall s :: s in sessions ==> s.id != id
    ensures r.Some? ==> r.value.session in sessions && r.value.session.id == id
    ensures r.Some? ==> multiset(r.value.messages) == multiset(Filter(messages, InSession(id)))
    ensures r.Some? ==> Sorted(r.value.messages, CreatedAtKey, false)
  {
    match FindById(sessions, SessionId, id)
    case None => None
    case Some(s) => Some(SessionWithMessages(s, SortBy(Filter(messages, InSession(id)), CreatedAtKey, false)))
  }

  /** What `createSession` is given: the nested session data and its
      initial messages. */
  datatype SessionData = SessionData(
    userId: string,
    classId: Option<string>,
    subjectId: Option<string>,
    folderId: Option<string>,
    title: string,
    className: Option<string>,
    subjectName: Option<string>,
    lastMessageAt: int,
    initialMessages: seq<(MessageRole, string)>)

  /** The stored session row: `messageCount` is the schema default. */
  function NewSessionRow(id: string, d: SessionData, defaultMessageCount: int, now: int): (s: Session)
    ensures s.id == id && s.userId == d.userId && s.title == d.title
    ensures s.messageCount == defaultMessageCount && s.createdAt == now && s.lastMessageAt == d.lastMessageAt
  {
    Session(id, d.userId, d.folderId, d.classId, d.subjectId, d.title, d.className, d.subjectName,
            defaultMessageCount, d.lastMessageAt, now)
  }

  /** The stored initial messages, in the order given. */
  function NewMessageRows(sessionId: string, ids: seq<string>, ms: seq<(MessageRole, string)>, now: int): (r: seq<Message>)
    requires |ids| == |ms|
    ensures |r| == |ms|
    ensures forall i :: 0 <= i < |r| ==> r[i] == Message(ids[i], sessionId, ms[i].0, ms[i].1, now)
  {
    seq(|ms|, i requires 0 <= i < |ms| => Message(ids[i], sessionId, ms[i].0, ms[i].1, now))
  }

  /** The records a nested `connect` names must exist. */
  predicate ConnectsResolve(users: seq<User>, classes: seq<Class>, subjects: seq<Subject>,
                            folders: seq<Folder>, d: SessionData)
  {
    FindById(users, UserId, d.userId).Some? &&
    (d.classId.Some? ==> FindById(classes, ClassId, d.classId.value).Some?) &&
    (d.subjectId.Some? ==> FindById(subjects, SubjectId, d.subjectId.value).Some?) &&
    (d.folderId.Some? ==> FindById(folders, FolderId, d.folderId.value).Some?)
  }

  /** Ids the database hands out: fresh and pairwise distinct. */
  predicate FreshMessageIds(messages: seq<Message>, ids: seq<string>) {
    (forall i :: 0 <= i < |ids| ==> Fresh(messages, MessageId, ids[i])) &&
    (forall i, j :: 0 <= i < j < |ids| ==> ids[i] != ids[j])
  }

  lemma AppendMessagesValid(messages: seq<Message>, rows: seq<Message>, ids: seq<string>)
    requires IdsValid(messages, MessageId) && FreshMessageIds(messages, ids)
    requires |rows| == |ids| && forall i :: 0 <= i < |rows| ==> rows[i].id == ids[i]
    ensures IdsValid(messages + rows, MessageId)
  {
    var r := messages + rows;
    forall i, j | 0 <= i < j < |r|
      ensures r[i].id != r[j].id
    {
      if j >= |messages| && i < |messages| {
        assert Fresh(messages, MessageId, ids[j - |messages|]);
        assert r[i] == messages[i];
      }
    }
  }

  /** The error of a nested write whose `connect` target is missing. */
  const CONNECT_FAILED := "Record to connect not found"

  /** `createSession(data)`: one nested write; a `connect` to a missing
      record fails it and nothing is stored. */
  method CreateSession(db: Db, d: SessionData, id: string, messageIds: seq<string>, now: int)
    returns (r: Result<Session, string>)
    requires db.Valid()
    requires Fresh(db.sessions, SessionId, id)
    requires |messageIds| == |d.initialMessages| && FreshMessageIds(db.messages, messageIds)
    modifies db`sessions, db`messages
    ensures db.Valid()
    ensures !ConnectsResolve(db.users, db.classes, db.subjects, db.folders, d) ==> r == Failure(CONNECT_FAILED) && unchanged(db)
    ensures ConnectsResolve(db.users, db.classes, db.subjects, db.folders, d) ==>
      var row := NewSessionRow(id, d, db.defaultMessageCount, now);
      r == Success(row) &&
      db.sessions == old(db.sessions) + [row] &&
      db.messages == old(db.messages) + NewMessageRows(id, messageIds, d.initialMessages, now)
    ensures db.users == old(db.users) && db.classes == old(db.classes) && db.subjects == old(db.subjects)
    ensures db.folders == old(db.folders)
  {
    if !ConnectsResolve(db.users, db.classes, db.subjects, db.folders, d) {
      return Failure(CONNECT_FAILED);
    }
    var row := NewSessionRow(id, d, db.defaultMessageCount, now);
    IdsValidAppend(db.sessions, SessionId, row);
    AppendMessagesValid(db.messages, NewMessageRows(id, messageIds, d.initialMessages, now), messageIds);
    db.sessions := db.sessions + [row];
    db.messages := db.messages + NewMessageRows(id, messageIds, d.initialMessages, now);
    r := Success(row);
  }

  /** The session update of an exchange: last activity now, two more messages. */
  function Bump(s: Session, now: int): Session {
    s.(lastMessageAt := now, messageCount := s.messageCount + 2)
  }

  function BumpSession(sessions: seq<Session>, sessionId: string, now: int): seq<Session> {
    UpdateById(sessions, SessionId, sessionId, s => Bump(s, now))
  }

  /** The exchange touches exactly one session and only its two counters. */
  lemma BumpSessionEffect(sessions: seq<Session>, sessionId: string, now: int)
    requires IdsValid(sessions, SessionId)
    ensures var r := BumpSession(sessions, sessionId, now);
      |r| == |sessions| && IdsValid(r, SessionId) &&
      forall i :: 0 <= i < |sessions| ==>
        if sessions[i].id == sessionId then
          r[i].messageCount == sessions[i].messageCount + 2 && r[i].lastMessageAt == now &&
          r[i] == sessions[i].(lastMessageAt := r[i].lastMessageAt, messageCount := r[i].messageCount)
        else r[i] == sessions[i]
  {
    IdsValidUpdate(sessions, SessionId, sessionId, s => Bump(s, now));
  }

  /** The pair the exchange writes: the user's message, then the reply. */
  function ExchangeRows(sessionId: string, userMsgId: string, aiMsgId: string,
                        userContent: string, assistantContent: string, now: int): seq<Message> {
    [Message(userMsgId, sessionId, UserRole, userContent, now),
     Message(aiMsgId, sessionId, AssistantRole, assistantContent, now)]
  }

  /** `messageCount` agrees with the stored messages of the session. */
  predicate CountConsistent(sessions: seq<Session>, messages: seq<Message>, sessionId: string) {
    forall s :: s in sessions && s.id == sessionId ==> s.messageCount == Count(messages, InSession(sessionId))
  }

  /** An exchange keeps the counter in step with the rows: two rows, plus two. */
  lemma ExchangeKeepsCountConsistent(sessions: seq<Session>, messages: seq<Message>, sessionId: string,
                                     userMsgId: string, aiMsgId: string, u: string, a: string, now: int)
    requires IdsValid(sessions, SessionId)
    requires CountConsistent(sessions, messages, sessionId)
    ensures CountConsistent(BumpSession(sessions, sessionId, now),
                            messages + ExchangeRows(sessionId, userMsgId, aiMsgId, u, a, now), sessionId)
  {
    var rows := ExchangeRows(sessionId, userMsgId, aiMsgId, u, a, now);
    FilterConcat(messages, rows, InSession(sessionId));
    assert Filter(rows, InSession(sessionId)) == rows by {
      FilterAll(rows, InSession(sessionId));
    }
    var r := BumpSession(sessions, sessionId, now);
    forall s | s in r && s.id == sessionId
      ensures s.messageCount == Count(messages + rows, InSession(sessionId))
    {
      var i :| 0 <= i < |r| && r[i] == s;
      assert sessions[i] in sessions;
    }
  }

  /** An exchange leaves every other session's message rows as they were. */
  lemma ExchangeLeavesOtherSessions(messages: seq<Message>, sessionId: string, other: string,
                                    userMsgId: string, aiMsgId: string, u: string, a: string, now: int)
    requires other != sessionId
    ensures Filter(messages + ExchangeRows(sessionId, userMsgId, aiMsgId, u, a, now), InSession(other))
         == Filter(messages, InSession(other))
  {
    var rows := ExchangeRows(sessionId, userMsgId, aiMsgId, u, a, now);
    FilterConcat(messages, rows, InSession(other));
    assert Filter(rows, InSession(other)) == [] by {
      assert forall x :: x in Filter(rows, InSession(other)) ==> x in rows && x.sessionId == other;
    }
  }

  /** `addExchange(sessionId, userContent, assistantContent)`: one
      transaction; if the session is missing its final update fails and
      the whole transaction, both inserts included, rolls back. */
  method AddExchange(db: Db, sessionId: string, userContent: string, assistantContent: string,
                     userMsgId: string, aiMsgId: string, now: int)
    returns (r: Result<(Message, Message), string>)
    requires db.Valid()
    requires Fresh(db.messages, MessageId, userMsgId) && Fresh(db.messages, MessageId, aiMsgId)
    requires userMsgId != aiMsgId
    modifies db`sessions, db`messages
    ensures db.Valid()
    ensures FindById(old(db.sessions), SessionId, sessionId).None? ==> r.Failure? && unchanged(db)
    ensures FindById(old(db.sessions), SessionId, sessionId).Some? ==>
      var rows := ExchangeRows(sessionId, userMsgId, aiMsgId, userContent, assistantContent, now);
      r == Success((rows[0], rows[1])) &&
      db.messages == old(db.messages) + rows &&
      db.sessions == BumpSession(old(db.sessions), sessionId, now)
  {
    if FindById(db.sessions, SessionId, sessionId).None? {
      return Failure("Record to update not found");
    }
    var rows := ExchangeRows(sessionId, userMsgId, aiMsgId, userContent, assistantContent, now);
    AppendMessagesValid(db.messages, rows, [userMsgId, aiMsgId]);
    IdsValidUpdate(db.sessions, SessionId, sessionId, s => Bump(s, now));
    db.messages := db.messages + rows;
    db.sessions := BumpSession(db.sessions, sessionId, now);
    r := Success((rows[0], rows[1]));
  }

  function Without(sessions: seq<Session>, sessionId: string): seq<Session> {
    Filter(sessions, (s: Session) => s.id != sessionId)
  }

  /** Deleting removes the session with that id and keeps every other one. */
  lemma WithoutEffect(sessions: seq<Session>, sessionId: string)
    ensures forall s :: s in Without(sessions, sessionId) <==> s in sessions && s.id != sessionId
    ensures FindById(sessions, SessionId, sessionId).Some? ==> |Without(sessions, sessionId)| < |sessions|
  {
    if FindById(sessions, SessionId, sessionId).Some? {
      var s := FindById(sessions, SessionId, sessionId).value;
      assert s !in Without(sessions, sessionId);
      FilterShrinks(sessions, (x: Session) => x.id != sessionId, s);
    }
  }

  /** `deleteSession(id)`: a delete of a missing row fails; the messages
      are not touched here. */
  method DeleteSession(db: Db, sessionId: string) returns (r: Result<Session, string>)
    requires db.Valid()
    modifies db`sessions
    ensures db.Valid()
    ensures FindById(old(db.sessions), SessionId, sessionId).None? ==> r.Failure? && unchanged(db)
    ensures FindById(old(db.sessions), SessionId, sessionId).Some? ==>
      r == Success(FindById(old(db.sessions), SessionId, sessionId).value) &&
      db.sessions == Without(old(db.sessions), sessionId)
  {
    var found := FindById(db.sessions, SessionId, sessionId);
    if found.None? {
      return Failure("Record to delete does not exist");
    }
    IdsValidFilter(db.sessions, SessionId, (s: Session) => s.id != sessionId);
    db.sessions := Without(db.sessions, sessionId);
    r := Success(found.value);
  }
}
