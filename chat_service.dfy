/** The chat service: creating a session for the user's selected class
    and subject (finding or creating both), sending a message with its
    echoed reply, reading and deleting a session, each gated by
    ownership. */
module ChatService {
  import opened Wrappers
  import opened Seqs
  import opened Schema
  import opened Errors
  import opened ChatValidation
  import opened ChatRepository

  const USER_NOT_FOUND := NewAppError("User not found", NOT_FOUND, Some(404))
  const NO_SELECTION := NewAppError("No class or subject selected", VALIDATION_ERROR, None)
  const INVALID_INPUT := NewAppError("Invalid input", VALIDATION_ERROR, None)
  const ACCESS_DENIED := NewAppError("Access Denied", FORBIDDEN, Some(403))
  const SESSION_NOT_FOUND := NewAppError("Not Found", NOT_FOUND, Some(404))

  /** What `getContext` selects of a user. */
  datatype UserContext = UserContext(id: string, selectedClass: Option<string>, selectedSubject: Option<string>)

  /** `userService.getUserContext(userId)`. */
  function GetUserContext(users: seq<User>, userId: string): (r: Result<UserContext, Thrown>)
    ensures r.Success? <==> exists u :: u in users && u.id == userId
    ensures r.Success? ==>
      exists u :: u in users && u.id == userId && r.value == UserContext(u.id, u.selectedClass, u.selectedSubject)
    ensures r.Failure? ==> r.error == App(USER_NOT_FOUND) && r.error.err.statusCode == 404
  {
    match FindById(users, UserId, userId)
    case None => Failure(App(USER_NOT_FOUND))
    case Some(u) => Success(UserContext(u.id, u.selectedClass, u.selectedSubject))
  }

  /** The (class name, subject name) a new session is for, or the error
      `createSession` throws before writing anything. */
  function Selection(users: seq<User>, userId: string): (r: Result<(string, string), Thrown>)
    ensures r.Success? ==> r.value.0 != "" && r.value.1 != ""
    ensures r.Success? ==>
      exists u :: u in users && u.id == userId && u.selectedClass == Some(r.value.0) && u.selectedSubject == Some(r.value.1)
  {
    match GetUserContext(users, userId)
    case Failure(e) => Failure(e)
    case Success(c) =>
      if !Truthy(c.selectedClass) || !Truthy(c.selectedSubject) then Failure(App(NO_SELECTION))
      else Success((c.selectedClass.value, c.selectedSubject.value))
  }

  /** For a stored user, a session can be created exactly when both
      selections are non-empty; otherwise the error is the validation error. */
  lemma SelectionRequired(users: seq<User>, u: User)
    requires IdsValid(users, UserId) && u in users
    ensures Selection(users, u.id).Success? <==> Truthy(u.selectedClass) && Truthy(u.selectedSubject)
    ensures Selection(users, u.id).Success? ==>
      Selection(users, u.id).value == (u.selectedClass.value, u.selectedSubject.value)
    ensures Selection(users, u.id).Failure? ==> Selection(users, u.id).error == App(NO_SELECTION)
  {
    FindByIdMember(users, UserId, u);
  }

  const WELCOME_OPENING := "Hello! I'm your AI tutor for **"
  const WELCOME_CLOSING := ").\n\nHow can I help you regarding this subject today?"

  function WelcomeText(subjectName: string, className: string): string {
    WELCOME_OPENING + subjectName + "** (" + className + WELCOME_CLOSING
  }

  function ClassNamed(name: string): Class -> bool {
    (c: Class) => c.name == name
  }

  function SubjectNamed(name: string, classId: string): Subject -> bool {
    (s: Subject) => s.name == name && s.classId == classId
  }

  /** The ids the database generates for the rows one creation may write. */
  datatype NewIds = NewIds(classId: string, subjectId: string, sessionId: string, welcomeId: string)

  predicate IdsFresh(classes: seq<Class>, subjects: seq<Subject>, sessions: seq<Session>,
                     messages: seq<Message>, ids: NewIds) {
    Fresh(classes, ClassId, ids.classId) && Fresh(subjects, SubjectId, ids.subjectId) &&
    Fresh(sessions, SessionId, ids.sessionId) && Fresh(messages, MessageId, ids.welcomeId)
  }

  /** The nested session write: owned by the caller, titled
      "<subject> - <class>", one assistant welcome message; the folder is
      connected only for a non-empty folder id. */
  function SessionDataFor(userId: string, className: string, subjectName: string, c: Class, s: Subject,
                          folderId: Option<string>, now: int): SessionData {
    SessionData(userId, Some(c.id), Some(s.id), if Truthy(folderId) then folderId else None,
                subjectName + " - " + className, Some(className), Some(subjectName), now,
                [(AssistantRole, WelcomeText(subjectName, className))])
  }

  /** What a creation leaves behind: the class and subject tables, the
      result, and the message rows written. */
  datatype Outcome = Outcome(classes: seq<Class>, subjects: seq<Subject>,
                             session: Result<Session, Thrown>, welcome: seq<Message>)

  /** `class.findFirst({ where: { name } }) || class.create(...)`. */
  function ResolveClass(classes: seq<Class>, className: string, ids: NewIds, isActive: bool, now: int)
    : (seq<Class>, Class) {
    FindOrCreate(classes, ClassNamed(className), Class(ids.classId, className, None, isActive, now))
  }

  /** `subject.findFirst({ where: { name, classId } }) || subject.create(...)`. */
  function ResolveSubject(subjects: seq<Subject>, subjectName: string, classId: string, ids: NewIds,
                          isActive: bool, now: int): (seq<Subject>, Subject) {
    FindOrCreate(subjects, SubjectNamed(subjectName, classId), Subject(ids.subjectId, subjectName, classId, isActive, now))
  }

  /** The session write once class and subject are resolved: it fails
      only on a folder id that names no folder. */
  function PlanSession(folders: seq<Folder>, d: SessionData, ids: NewIds, messageCount: int, now: int)
    : (Result<Session, Thrown>, seq<Message>)
    requires |d.initialMessages| == 1
  {
    if d.folderId.Some? && FindById(folders, FolderId, d.folderId.value).None? then
      (Failure(Other(CONNECT_FAILED)), [])
    else
      (Success(NewSessionRow(ids.sessionId, d, messageCount, now)),
       [Message(ids.welcomeId, ids.sessionId, d.initialMessages[0].0, d.initialMessages[0].1, now)])
  }

  /** The specification of `createSession`. A class and a subject created
      by find-or-create stay even when the session write then fails on a
      missing folder. */
  function PlanCreate(users: seq<User>, classes: seq<Class>, subjects: seq<Subject>, folders: seq<Folder>,
                      userId: string, folderId: Option<string>, ids: NewIds,
                      isActive: bool, messageCount: int, now: int): Outcome
  {
    match Selection(users, userId)
    case Failure(e) => Outcome(classes, subjects, Failure(e), [])
    case Success(sel) =>
      var rc := ResolveClass(classes, sel.0, ids, isActive, now);
      var rs := ResolveSubject(subjects, sel.1, rc.1.id, ids, isActive, now);
      var w := PlanSession(folders, SessionDataFor(userId, sel.0, sel.1, rc.1, rs.1, folderId, now), ids, messageCount, now);
      Outcome(rc.0, rs.0, w.0, w.1)
  }

  /** Without a selection nothing is written and the validation error is thrown. */
  lemma CreateNeedsSelection(users: seq<User>, classes: seq<Class>, subjects: seq<Subject>, folders: seq<Folder>,
                             u: User, folderId: Option<string>, ids: NewIds,
                             isActive: bool, messageCount: int, now: int)
    requires IdsValid(users, UserId) && u in users
    requires !Truthy(u.selectedClass) || !Truthy(u.selectedSubject)
    ensures PlanCreate(users, classes, subjects, folders, u.id, folderId, ids, isActive, messageCount, now)
         == Outcome(classes, subjects, Failure(App(NO_SELECTION)), [])
  {
    SelectionRequired(users, u);
  }

  /** The class used has the selected name and is the first such class
      afterwards; it is created only when no class has that name. */
  lemma ResolveClassFinds(classes: seq<Class>, className: string, ids: NewIds, isActive: bool, now: int)
    ensures var (cs, c) := ResolveClass(classes, className, ids, isActive, now);
      c in cs && c.name == className && FindFirst(cs, ClassNamed(className)) == Some(c) &&
      (FindFirst(classes, ClassNamed(className)).Some? ==> cs == classes) &&
      (FindFirst(classes, ClassNamed(className)).None? ==>
         cs == classes + [Class(ids.classId, className, None, isActive, now)])
  {
    FindOrCreateFinds(classes, ClassNamed(className), Class(ids.classId, className, None, isActive, now));
  }

  /** The subject used has the selected name under that class; it is
      created only when no such subject exists. */
  lemma ResolveSubjectFinds(subjects: seq<Subject>, subjectName: string, classId: string, ids: NewIds,
                            isActive: bool, now: int)
    ensures var (ss, s) := ResolveSubject(subjects, subjectName, classId, ids, isActive, now);
      s in ss && s.name == subjectName && s.classId == classId &&
      FindFirst(ss, SubjectNamed(subjectName, classId)) == Some(s) &&
      (FindFirst(subjects, SubjectNamed(subjectName, classId)).Some? ==> ss == subjects) &&
      (FindFirst(subjects, SubjectNamed(subjectName, classId)).None? ==>
         ss == subjects + [Subject(ids.subjectId, subjectName, classId, isActive, now)])
  {
    FindOrCreateFinds(subjects, SubjectNamed(subjectName, classId),
                      Subject(ids.subjectId, subjectName, classId, isActive, now));
  }

  /** A created session belongs to the caller, is titled and named after
      the selection, points at a class with the selected name and a subject
      with the selected name under that class, and holds exactly one
      message: the assistant's welcome. */
  lemma CreatedSessionShape(users: seq<User>, classes: seq<Class>, subjects: seq<Subject>, folders: seq<Folder>,
                            userId: string, folderId: Option<string>, ids: NewIds,
                            isActive: bool, messageCount: int, now: int)
    requires Selection(users, userId).Success?
    ensures var (cn, sn) := Selection(users, userId).value;
      var o := PlanCreate(users, classes, subjects, folders, userId, folderId, ids, isActive, messageCount, now);
      o.session.Success? ==>
        var s := o.session.value;
        s.id == ids.sessionId && s.userId == userId && s.title == sn + " - " + cn &&
        s.className == Some(cn) && s.subjectName == Some(sn) && s.lastMessageAt == now &&
        s.messageCount == messageCount &&
        (s.folderId.Some? <==> Truthy(folderId)) &&
        s.classId.Some? && s.subjectId.Some? &&
        (exists c :: c in o.classes && c.id == s.classId.value && c.name == cn) &&
        (exists t :: t in o.subjects && t.id == s.subjectId.value && t.name == sn && t.classId == s.classId.value) &&
        o.welcome == [Message(ids.welcomeId, s.id, AssistantRole, WelcomeText(sn, cn), now)]
  {
    var (cn, sn) := Selection(users, userId).value;
    ResolveClassFinds(classes, cn, ids, isActive, now);
    var rc := ResolveClass(classes, cn, ids, isActive, now);
    ResolveSubjectFinds(subjects, sn, rc.1.id, ids, isActive, now);
  }

  /** The session write fails exactly when a non-empty folder id names no folder. */
  lemma CreateFailsOnlyOnMissingFolder(users: seq<User>, classes: seq<Class>, subjects: seq<Subject>,
                                       folders: seq<Folder>, userId: string, folderId: Option<string>, ids: NewIds,
                                       isActive: bool, messageCount: int, now: int)
    requires Selection(users, userId).Success?
    ensures var o := PlanCreate(users, classes, subjects, folders, userId, folderId, ids, isActive, messageCount, now);
      o.session.Failure? <==> Truthy(folderId) && forall f :: f in folders ==> f.id != folderId.value
  {
  }

  /** A second creation with the same selection finds the class and the
      subject the first one used, so it adds neither. */
  lemma CreateTwiceAddsNoClassOrSubject(users: seq<User>, classes: seq<Class>, subjects: seq<Subject>,
                                        folders: seq<Folder>, userId: string, folderId: Option<string>,
                                        ids: NewIds, ids2: NewIds, isActive: bool, messageCount: int, now: int, later: int)
    ensures var o := PlanCreate(users, classes, subjects, folders, userId, folderId, ids, isActive, messageCount, now);
      var o2 := PlanCreate(users, o.classes, o.subjects, folders, userId, folderId, ids2, isActive, messageCount, later);
      o2.classes == o.classes && o2.subjects == o.subjects
  {
    if Selection(users, userId).Success? {
      var (cn, sn) := Selection(users, userId).value;
      ResolveClassFinds(classes, cn, ids, isActive, now);
      var rc := ResolveClass(classes, cn, ids, isActive, now);
      ResolveSubjectFinds(subjects, sn, rc.1.id, ids, isActive, now);
      var rs := ResolveSubject(subjects, sn, rc.1.id, ids, isActive, now);
      assert ResolveClass(rc.0, cn, ids2, isActive, later) == (rc.0, rc.1);
      assert ResolveSubject(rs.0, sn, rc.1.id, ids2, isActive, later) == (rs.0, rs.1);
    }
  }

  /** `PlanCreate` once the selection is known, step by step. */
  lemma PlanCreateSteps(users: seq<User>, classes: seq<Class>, subjects: seq<Subject>, folders: seq<Folder>,
                        userId: string, folderId: Option<string>, ids: NewIds,
                        isActive: bool, messageCount: int, now: int)
    requires Selection(users, userId).Success?
    ensures var (cn, sn) := Selection(users, userId).value;
      var rc := ResolveClass(classes, cn, ids, isActive, now);
      var rs := ResolveSubject(subjects, sn, rc.1.id, ids, isActive, now);
      var w := PlanSession(folders, SessionDataFor(userId, cn, sn, rc.1, rs.1, folderId, now), ids, messageCount, now);
      PlanCreate(users, classes, subjects, folders, userId, folderId, ids, isActive, messageCount, now)
        == Outcome(rc.0, rs.0, w.0, w.1)
  {
  }

  /** With the user, class and subject stored, the nested write's connects
      resolve exactly when the session write is planned to succeed. */
  lemma ConnectsResolveBySelection(users: seq<User>, classes: seq<Class>, subjects: seq<Subject>,
                                   folders: seq<Folder>, userId: string, cn: string, sn: string,
                                   c: Class, s: Subject, folderId: Option<string>, ids: NewIds,
                                   messageCount: int, now: int)
    requires Selection(users, userId).Success? && c in classes && s in subjects
    ensures var d := SessionDataFor(userId, cn, sn, c, s, folderId, now);
      ConnectsResolve(users, classes, subjects, folders, d) <==> PlanSession(folders, d, ids, messageCount, now).0.Success?
  {
  }

  /** The class step of `createSession`, on the database. */
  method FindOrCreateClass(db: Db, className: string, ids: NewIds, now: int) returns (c: Class)
    requires db.Valid() && Fresh(db.classes, ClassId, ids.classId)
    modifies db`classes
    ensures db.Valid()
    ensures (db.classes, c) == ResolveClass(old(db.classes), className, ids, db.defaultIsActive, now)
    ensures db.users == old(db.users) && db.subjects == old(db.subjects) && db.folders == old(db.folders)
    ensures db.sessions == old(db.sessions) && db.messages == old(db.messages)
  {
    var found := FindFirst(db.classes, ClassNamed(className));
    if found.Some? {
      c := found.value;
    } else {
      c := Class(ids.classId, className, None, db.defaultIsActive, now);
      IdsValidAppend(db.classes, ClassId, c);
      db.classes := db.classes + [c];
    }
  }

  /** The subject step of `createSession`, on the database. */
  method FindOrCreateSubject(db: Db, subjectName: string, classId: string, ids: NewIds, now: int) returns (s: Subject)
    requires db.Valid() && Fresh(db.subjects, SubjectId, ids.subjectId)
    modifies db`subjects
    ensures db.Valid()
    ensures (db.subjects, s) == ResolveSubject(old(db.subjects), subjectName, classId, ids, db.defaultIsActive, now)
    ensures db.users == old(db.users) && db.classes == old(db.classes) && db.folders == old(db.folders)
    ensures db.sessions == old(db.sessions) && db.messages == old(db.messages)
  {
    var found := FindFirst(db.subjects, SubjectNamed(subjectName, classId));
    if found.Some? {
      s := found.value;
    } else {
      s := Subject(ids.subjectId, subjectName, classId, db.defaultIsActive, now);
      IdsValidAppend(db.subjects, SubjectId, s);
      db.subjects := db.subjects + [s];
    }
  }

  /** The nested session write for a stored user, class and subject: it
      fails exactly as planned, on a folder id that names no folder. */
  method WriteSession(db: Db, userId: string, cn: string, sn: string, c: Class, t: Subject,
                      folderId: Option<string>, ids: NewIds, now: int)
    returns (r: Result<Session, Thrown>)
    requires db.Valid() && FindById(db.users, UserId, userId).Some?
    requires FindById(db.classes, ClassId, c.id) == Some(c) && FindById(db.subjects, SubjectId, t.id) == Some(t)
    requires Fresh(db.sessions, SessionId, ids.sessionId) && Fresh(db.messages, MessageId, ids.welcomeId)
    modifies db`sessions, db`messages
    ensures db.Valid()
    ensures var w := PlanSession(db.folders, SessionDataFor(userId, cn, sn, c, t, folderId, now),
                                 ids, db.defaultMessageCount, now);
      r == w.0 && db.sessions == old(db.sessions) + (if r.Success? then [r.value] else []) &&
      db.messages == old(db.messages) + w.1
    ensures db.users == old(db.users) && db.classes == old(db.classes) && db.subjects == old(db.subjects)
  {
    var d := SessionDataFor(userId, cn, sn, c, t, folderId, now);
    var created := ChatRepository.CreateSession(db, d, ids.sessionId, [ids.welcomeId], now);
    if created.Failure? {
      r := Failure(Other(created.error));
      assert db.sessions == old(db.sessions) + [] && db.messages == old(db.messages) + [];
    } else {
      r := Success(created.value);
    }
  }

  /** The class and subject steps of `createSession`: both end up stored
      under their ids. */
  method ResolveSelection(db: Db, cn: string, sn: string, ids: NewIds, now: int) returns (c: Class, s: Subject)
    requires db.Valid() && Fresh(db.classes, ClassId, ids.classId) && Fresh(db.subjects, SubjectId, ids.subjectId)
    modifies db`classes, db`subjects
    ensures db.Valid()
    ensures (db.classes, c) == ResolveClass(old(db.classes), cn, ids, db.defaultIsActive, now)
    ensures (db.subjects, s) == ResolveSubject(old(db.subjects), sn, c.id, ids, db.defaultIsActive, now)
    ensures FindById(db.classes, ClassId, c.id) == Some(c) && FindById(db.subjects, SubjectId, s.id) == Some(s)
    ensures db.users == old(db.users) && db.folders == old(db.folders)
    ensures db.sessions == old(db.sessions) && db.messages == old(db.messages)
  {
    c := FindOrCreateClass(db, cn, ids, now);
    s := FindOrCreateSubject(db, sn, c.id, ids, now);
    ResolveClassFinds(old(db.classes), cn, ids, db.defaultIsActive, now);
    ResolveSubjectFinds(old(db.subjects), sn, c.id, ids, db.defaultIsActive, now);
    FindByIdMember(db.classes, ClassId, c);
    FindByIdMember(db.subjects, SubjectId, s);
  }

  /** `chatService.createSession(userId, { folderId })`. */
  method CreateSession(db: Db, userId: string, folderId: Option<string>, ids: NewIds, now: int)
    returns (r: Result<Session, Thrown>)
    requires db.Valid()
    requires IdsFresh(db.classes, db.subjects, db.sessions, db.messages, ids)
    modifies db`classes, db`subjects, db`sessions, db`messages
    ensures db.Valid()
    ensures var o := PlanCreate(old(db.users), old(db.classes), old(db.subjects), old(db.folders), userId,
                                folderId, ids, db.defaultIsActive, db.defaultMessageCount, now);
      r == o.session && db.classes == o.classes && db.subjects == o.subjects &&
      db.sessions == old(db.sessions) + (if r.Success? then [r.value] else []) &&
      db.messages == old(db.messages) + o.welcome
  {
    var sel := Selection(db.users, userId);
    if sel.Failure? {
      assert db.messages == old(db.messages) + [];
      return Failure(sel.error);
    }
    ghost var o := PlanCreate(db.users, db.classes, db.subjects, db.folders, userId,
                              folderId, ids, db.defaultIsActive, db.defaultMessageCount, now);
    r := CreateForSelection(db, userId, sel.value.0, sel.value.1, folderId, ids, now, o);
  }

  /** `createSession` for a user with a selection: find or create the
      class and the subject, then write the session. */
  method CreateForSelection(db: Db, userId: string, cn: string, sn: string, folderId: Option<string>,
                            ids: NewIds, now: int, ghost o: Outcome)
    returns (r: Result<Session, Thrown>)
    requires db.Valid()
    requires Selection(db.users, userId) == Success((cn, sn))
    requires IdsFresh(db.classes, db.subjects, db.sessions, db.messages, ids)
    requires o == PlanCreate(db.users, db.classes, db.subjects, db.folders, userId,
                             folderId, ids, db.defaultIsActive, db.defaultMessageCount, now)
    modifies db`classes, db`subjects, db`sessions, db`messages
    ensures db.Valid()
    ensures r == o.session && db.classes == o.classes && db.subjects == o.subjects &&
      db.sessions == old(db.sessions) + (if r.Success? then [r.value] else []) &&
      db.messages == old(db.messages) + o.welcome
  {
    PlanCreateSteps(db.users, db.classes, db.subjects, db.folders, userId, folderId, ids,
                    db.defaultIsActive, db.defaultMessageCount, now);
    var c, t := ResolveSelection(db, cn, sn, ids, now);
    r := WriteSession(db, userId, cn, sn, c, t, folderId, ids, now);
  }

  /** The assistant's reply to a message. */
  function EchoReply(content: string): string {
    "Echo: " + content
  }

  /** The ownership check and the write of `sendMessage`, for a known chat id. */
  method Exchange(db: Db, userId: string, chatId: string, content: string,
                  userMsgId: string, aiMsgId: string, now: int)
    returns (r: Result<string, Thrown>)
    requires db.Valid()
    requires Fresh(db.messages, MessageId, userMsgId) && Fresh(db.messages, MessageId, aiMsgId)
    requires userMsgId != aiMsgId
    modifies db`sessions, db`messages
    ensures db.Valid()
    ensures IsOwner(old(db.sessions), chatId, userId) ==>
      r == Success(chatId) &&
      db.messages == old(db.messages) + ExchangeRows(chatId, userMsgId, aiMsgId, content, EchoReply(content), now) &&
      db.sessions == BumpSession(old(db.sessions), chatId, now)
    ensures !IsOwner(old(db.sessions), chatId, userId) ==> r == Failure(App(ACCESS_DENIED)) && unchanged(db)
  {
    if !IsOwner(db.sessions, chatId, userId) {
      return Failure(App(ACCESS_DENIED));
    }
    var reply := EchoReply(content);
    var _ := AddExchange(db, chatId, content, reply, userMsgId, aiMsgId, now);
    r := Success(chatId);
  }

  /** A session that `createSession` creates belongs to the caller and
      comes with exactly one welcome message; a failed one writes none. */
  lemma CreatedSessionOwned(users: seq<User>, classes: seq<Class>, subjects: seq<Subject>, folders: seq<Folder>,
                            userId: string, folderId: Option<string>, ids: NewIds,
                            isActive: bool, messageCount: int, now: int)
    ensures var o := PlanCreate(users, classes, subjects, folders, userId, folderId, ids, isActive, messageCount, now);
      (o.session.Success? ==>
        o.session.value.userId == userId && |o.welcome| == 1 && o.welcome[0].id == ids.welcomeId &&
        o.welcome[0].sessionId == o.session.value.id) &&
      (o.session.Failure? ==> o.welcome == [])
  {
    if Selection(users, userId).Success? {
      CreatedSessionShape(users, classes, subjects, folders, userId, folderId, ids, isActive, messageCount, now);
    }
  }

  /** An id other than the welcome message's is still fresh after it. */
  lemma FreshAfterWelcome(messages: seq<Message>, welcome: seq<Message>, x: string)
    requires Fresh(messages, MessageId, x) && |welcome| == 1 && welcome[0].id != x
    ensures Fresh(messages + welcome, MessageId, x)
  {
  }

  /** The exchange written into a session the caller owns. */
  method ExchangeIntoOwn(db: Db, userId: string, s: Session, content: string,
                         userMsgId: string, aiMsgId: string, now: int)
    returns (r: Result<string, Thrown>)
    requires db.Valid() && s in db.sessions && s.userId == userId
    requires Fresh(db.messages, MessageId, userMsgId) && Fresh(db.messages, MessageId, aiMsgId)
    requires userMsgId != aiMsgId
    modifies db`sessions, db`messages
    ensures db.Valid()
    ensures r == Success(s.id) &&
      db.messages == old(db.messages) + ExchangeRows(s.id, userMsgId, aiMsgId, content, EchoReply(content), now) &&
      db.sessions == BumpSession(old(db.sessions), s.id, now)
    ensures db.classes == old(db.classes) && db.subjects == old(db.subjects)
  {
    assert IsOwner(db.sessions, s.id, userId) by {
      FindByIdMember(db.sessions, SessionId, s);
    }
    r := Exchange(db, userId, s.id, content, userMsgId, aiMsgId, now);
  }

  /** `sendMessage` with chat id "new": create the session, then write
      the exchange into it. */
  method SendToNewSession(db: Db, userId: string, folderId: Option<string>, content: string, ids: NewIds,
                          userMsgId: string, aiMsgId: string, now: int)
    returns (r: Result<string, Thrown>)
    requires db.Valid()
    requires IdsFresh(db.classes, db.subjects, db.sessions, db.messages, ids)
    requires Fresh(db.messages, MessageId, userMsgId) && Fresh(db.messages, MessageId, aiMsgId)
    requires userMsgId != aiMsgId && userMsgId != ids.welcomeId && aiMsgId != ids.welcomeId
    modifies db`classes, db`subjects, db`sessions, db`messages
    ensures db.Valid()
    ensures var o := PlanCreate(old(db.users), old(db.classes), old(db.subjects), old(db.folders), userId,
                                folderId, ids, db.defaultIsActive, db.defaultMessageCount, now);
      db.classes == o.classes && db.subjects == o.subjects &&
      (o.session.Failure? ==>
        r == Failure(o.session.error) && db.sessions == old(db.sessions) && db.messages == old(db.messages))
    ensures var o := PlanCreate(old(db.users), old(db.classes), old(db.subjects), old(db.folders), userId,
                                folderId, ids, db.defaultIsActive, db.defaultMessageCount, now);
      o.session.Success? ==>
        r == Success(o.session.value.id) &&
        db.messages == old(db.messages) + o.welcome +
          ExchangeRows(o.session.value.id, userMsgId, aiMsgId, content, EchoReply(content), now) &&
        db.sessions == BumpSession(old(db.sessions) + [o.session.value], o.session.value.id, now)
  {
    ghost var o := PlanCreate(db.users, db.classes, db.subjects, db.folders, userId,
                              folderId, ids, db.defaultIsActive, db.defaultMessageCount, now);
    var created := CreateOwnSession(db, userId, folderId, ids, userMsgId, aiMsgId, now, o);
    if created.Failure? {
      return Failure(created.error);
    }
    r := ExchangeIntoOwn(db, userId, created.value, content, userMsgId, aiMsgId, now);
  }

  /** The first step of a message to a new chat: create the session, which
      the caller then owns, leaving the message ids fresh. */
  method CreateOwnSession(db: Db, userId: string, folderId: Option<string>, ids: NewIds,
                          userMsgId: string, aiMsgId: string, now: int, ghost o: Outcome)
    returns (r: Result<Session, Thrown>)
    requires db.Valid()
    requires IdsFresh(db.classes, db.subjects, db.sessions, db.messages, ids)
    requires Fresh(db.messages, MessageId, userMsgId) && Fresh(db.messages, MessageId, aiMsgId)
    requires userMsgId != ids.welcomeId && aiMsgId != ids.welcomeId
    requires o == PlanCreate(db.users, db.classes, db.subjects, db.folders, userId,
                             folderId, ids, db.defaultIsActive, db.defaultMessageCount, now)
    modifies db`classes, db`subjects, db`sessions, db`messages
    ensures db.Valid()
    ensures r == o.session && db.classes == o.classes && db.subjects == o.subjects
    ensures r.Failure? ==> db.sessions == old(db.sessions) && db.messages == old(db.messages)
    ensures r.Success? ==>
      db.sessions == old(db.sessions) + [r.value] && db.messages == old(db.messages) + o.welcome &&
      r.value in db.sessions && r.value.userId == userId &&
      Fresh(db.messages, MessageId, userMsgId) && Fresh(db.messages, MessageId, aiMsgId)
  {
    CreatedSessionOwned(db.users, db.classes, db.subjects, db.folders, userId,
                        folderId, ids, db.defaultIsActive, db.defaultMessageCount, now);
    r := CreateSession(db, userId, folderId, ids, now);
    if r.Success? {
      FreshAfterWelcome(old(db.messages), o.welcome, userMsgId);
      FreshAfterWelcome(old(db.messages), o.welcome, aiMsgId);
      assert r.value in db.sessions;
    }
  }

  /** `chatService.sendMessage(userId, input)`: validation, then "new"
      creates a session, then the ownership check, then the exchange. */
  method SendMessage(db: Db, userId: string, input: SendMessageInput, ids: NewIds,
                     userMsgId: string, aiMsgId: string, now: int)
    returns (r: Result<string, Thrown>)
    requires db.Valid()
    requires IdsFresh(db.classes, db.subjects, db.sessions, db.messages, ids)
    requires Fresh(db.messages, MessageId, userMsgId) && Fresh(db.messages, MessageId, aiMsgId)
    requires userMsgId != aiMsgId && userMsgId != ids.welcomeId && aiMsgId != ids.welcomeId
    modifies db`classes, db`subjects, db`sessions, db`messages
    ensures db.Valid()
    ensures !SendMessageSchemaOk(input) ==> r == Failure(App(INVALID_INPUT)) && unchanged(db)
    ensures SendMessageSchemaOk(input) && input.chatId != "new" ==>
      db.classes == old(db.classes) && db.subjects == old(db.subjects) &&
      if IsOwner(old(db.sessions), input.chatId, userId) then
        r == Success(input.chatId) &&
        db.messages == old(db.messages) +
          ExchangeRows(input.chatId, userMsgId, aiMsgId, input.content, EchoReply(input.content), now) &&
        db.sessions == BumpSession(old(db.sessions), input.chatId, now)
      else
        r == Failure(App(ACCESS_DENIED)) && unchanged(db)
    ensures SendMessageSchemaOk(input) && input.chatId == "new" ==>
      var o := PlanCreate(old(db.users), old(db.classes), old(db.subjects), old(db.folders), userId,
                          input.folderId, ids, db.defaultIsActive, db.defaultMessageCount, now);
      db.classes == o.classes && db.subjects == o.subjects &&
      match o.session
      case Failure(e) =>
        r == Failure(e) && db.sessions == old(db.sessions) && db.messages == old(db.messages)
      case Success(s) =>
        r == Success(s.id) &&
        db.messages == old(db.messages) + o.welcome +
          ExchangeRows(s.id, userMsgId, aiMsgId, input.content, EchoReply(input.content), now) &&
        db.sessions == BumpSession(old(db.sessions) + [s], s.id, now)
  {
    if !SendMessageSchemaOk(input) {
      return Failure(App(INVALID_INPUT));
    }

    if input.chatId == "new" {
      r := SendToNewSession(db, userId, input.folderId, input.content, ids, userMsgId, aiMsgId, now);
      return;
    }
    r := Exchange(db, userId, input.chatId, input.content, userMsgId, aiMsgId, now);
  }

  /** `chatService.getSession(userId, sessionId)`: "Not Found" for anyone
      but the owner. */
  function GetSession(sessions: seq<Session>, messages: seq<Message>, userId: string, sessionId: string)
    : (r: Result<Option<SessionWithMessages>, Thrown>)
    ensures r.Failure? <==> !IsOwner(sessions, sessionId, userId)
    ensures r.Failure? ==> r.error == App(SESSION_NOT_FOUND) && r.error.err.statusCode == 404
    ensures r.Success? ==> r.value.Some? && r.value.value.session.id == sessionId
  {
    if !IsOwner(sessions, sessionId, userId) then Failure(App(SESSION_NOT_FOUND))
    else Success(FindSessionById(sessions, messages, sessionId))
  }

  /** With unique ids, what the owner reads back is their own session with
      exactly its messages. */
  lemma GetSessionReturnsOwn(sessions: seq<Session>, messages: seq<Message>, userId: string, sessionId: string)
    requires IdsValid(sessions, SessionId)
    requires IsOwner(sessions, sessionId, userId)
    ensures var r := GetSession(sessions, messages, userId, sessionId);
      r.Success? && r.value.Some? && r.value.value.session.userId == userId &&
      multiset(r.value.value.messages) == multiset(Filter(messages, InSession(sessionId)))
  {
    var s :| s in sessions && s.id == sessionId && s.userId == userId;
    FindByIdMember(sessions, SessionId, s);
  }

  /** `chatService.deleteSession(userId, sessionId)`: returns silently for
      anyone but the owner. */
  method DeleteSession(db: Db, userId: string, sessionId: string)
    requires db.Valid()
    modifies db`sessions
    ensures db.Valid()
    ensures !IsOwner(old(db.sessions), sessionId, userId) ==> unchanged(db)
    ensures IsOwner(old(db.sessions), sessionId, userId) ==> db.sessions == Without(old(db.sessions), sessionId)
  {
    if !IsOwner(db.sessions, sessionId, userId) {
      return;
    }
    var _ := ChatRepository.DeleteSession(db, sessionId);
  }

  /** After the owner's delete nobody owns that id any more, so deleting
      it again changes nothing. */
  lemma DeleteLeavesNoOwner(sessions: seq<Session>, sessionId: string, userId: string, anyone: string)
    ensures !IsOwner(Without(sessions, sessionId), sessionId, anyone)
  {
    WithoutEffect(sessions, sessionId);
  }
}
