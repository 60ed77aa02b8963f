/** The admin chat listing: page and size defaults, the optional date
    bounds, the filtered page of sessions, a total that leaves the search
    out, whether more pages follow, and the class and subject pickers; and
    one session with its first 100 messages. */
module AdminChatService {
  import opened Wrappers
  import opened Seqs
  import opened Sorting
  import opened Schema
  import opened Paging
  import opened AdminChatRepository
  import ChatRepository
  import AdminClassRepository
  import AdminSubjectRepository

  datatype ChatListParams = ChatListParams(classId: Option<string>, subjectId: Option<string>, q: Option<string>,
                                           from: Option<string>, to: Option<string>,
                                           page: Option<nat>, limit: Option<nat>)

  /** The `(id, name)` pair a picker shows. */
  datatype Choice = Choice(id: string, name: string)

  datatype ChatsList = ChatsList(chats: seq<ChatRow>, classes: seq<Choice>, subjects: seq<Choice>,
                                 total: nat, hasMore: bool)

  /** How many classes, and subjects of the selected class, the pickers load. */
  const PICKER_LIMIT: nat := 100

  /** How many messages the session view loads. */
  const DETAIL_LIMIT: nat := 100

  /** A date parameter as an optional bound; an empty one is no bound. */
  function Bound(d: DateParam): Option<int> {
    if d.At? then Some(d.instant) else None
  }

  /** The `where` of the total, built from its own three conditional
      spreads: class, subject and dates, but no search. */
  function TotalWhere(classId: Option<string>, subjectId: Option<string>,
                      from: Option<int>, to: Option<int>): Session -> bool
  {
    (s: Session) =>
      (if Selected(classId) then s.classId == Some(classId.value) else true) &&
      (if Selected(subjectId) then s.subjectId == Some(subjectId.value) else true) &&
      (if from.Some? || to.Some? then InRange(s.lastMessageAt, from, to) else true)
  }

  function ClassChoice(r: AdminClassRepository.ClassRow): Choice { Choice(r.cls.id, r.cls.name) }

  function SubjectChoice(r: AdminSubjectRepository.SubjectRow): Choice { Choice(r.subject.id, r.subject.name) }

  /** The filter the listing is given once the dates are read. */
  function ListFilter(params: ChatListParams, parseDate: string -> Option<int>): ChatFilter {
    ChatFilter(params.classId, params.subjectId, params.q,
               Bound(ReadDate(params.from, parseDate)), Bound(ReadDate(params.to, parseDate)))
  }

  /** `getChatsList(params)`: `None` when a given date cannot be read. */
  function GetChatsList(sessions: seq<Session>, users: seq<User>, classes: seq<Class>, subjects: seq<Subject>,
                        messages: seq<Message>, params: ChatListParams,
                        parseDate: string -> Option<int>): Option<ChatsList>
  {
    var limit := OrDefault(params.limit, DEFAULT_LIMIT);
    var page := OrDefault(params.page, 1);
    var f := ReadDate(params.from, parseDate);
    var t := ReadDate(params.to, parseDate);
    if f.BadDate? || t.BadDate? then None
    else
      var filter := ChatFilter(params.classId, params.subjectId, params.q, Bound(f), Bound(t));
      var chats := FindAll(sessions, users, classes, subjects, messages, filter, limit, None,
                           Some(Offset(page, limit)));
      var total := CountAll(sessions, TotalWhere(params.classId, params.subjectId, Bound(f), Bound(t)));
      Some(ChatsList(chats, ClassChoices(classes, subjects, sessions),
                     SubjectChoices(subjects, classes, params.classId), total, total > Offset(page + 1, limit)))
  }

  /** The class picker: the first 100 classes of the class listing. */
  function ClassChoices(classes: seq<Class>, subjects: seq<Subject>, sessions: seq<Session>): seq<Choice> {
    Map(AdminClassRepository.FindAll(classes, subjects, sessions, PICKER_LIMIT, None), ClassChoice)
  }

  /** The subject picker: the first 100 subjects of the selected class, or
      none when no class is selected. */
  function SubjectChoices(subjects: seq<Subject>, classes: seq<Class>, classId: Option<string>): seq<Choice> {
    if Selected(classId)
    then Map(AdminSubjectRepository.FindAll(subjects, classes, classId, None, PICKER_LIMIT, None), SubjectChoice)
    else []
  }

  /** The total's `where` is the listing's `where` without the search. */
  lemma TotalWhereAgrees(sessions: seq<Session>, users: seq<User>, f: ChatFilter)
    ensures Count(sessions, TotalWhere(f.classId, f.subjectId, f.from, f.to)) ==
            Count(sessions, ChatWhere(users, f.(q := None)))
  {
    FilterExt(sessions, TotalWhere(f.classId, f.subjectId, f.from, f.to), ChatWhere(users, f.(q := None)));
  }

  /** The list fails exactly when a given date cannot be read. Otherwise
      the page holds at most `limit` sessions (20 when none or zero is
      asked for) from offset (page - 1) * limit of the filtered sessions,
      latest activity first; the total applies every filter but the
      search; and `hasMore` holds exactly when the total exceeds
      page * limit. */
  lemma ChatsListPage(sessions: seq<Session>, users: seq<User>, classes: seq<Class>, subjects: seq<Subject>,
                      messages: seq<Message>, params: ChatListParams, parseDate: string -> Option<int>)
    ensures GetChatsList(sessions, users, classes, subjects, messages, params, parseDate).None? <==>
            (Truthy(params.from) && parseDate(params.from.value).None?) ||
            (Truthy(params.to) && parseDate(params.to.value).None?)
    ensures GetChatsList(sessions, users, classes, subjects, messages, params, parseDate).Some? ==>
      var r := GetChatsList(sessions, users, classes, subjects, messages, params, parseDate).value;
      var filter := ListFilter(params, parseDate);
      var limit := if params.limit.Some? && params.limit.value > 0 then params.limit.value else 20;
      var page := if params.page.Some? && params.page.value > 0 then params.page.value else 1;
      var skip := Offset(page, limit);
      Map(r.chats, Listed) == Take(Drop(Ordered(sessions, ChatWhere(users, filter), ChatRepository.SessionKey, true),
                                        skip), limit) &&
      r.total == Count(sessions, ChatWhere(users, filter.(q := None))) &&
      (r.hasMore <==> r.total > skip + limit)
  {
    if GetChatsList(sessions, users, classes, subjects, messages, params, parseDate).Some? {
      var filter := ListFilter(params, parseDate);
      var limit := OrDefault(params.limit, DEFAULT_LIMIT);
      var page := OrDefault(params.page, 1);
      FindAllOffset(sessions, users, classes, subjects, messages, filter, limit, Offset(page, limit));
      TotalWhereAgrees(sessions, users, filter);
      OffsetNext(page, limit);
    }
  }

  /** The total counts at least the sessions the search keeps, exactly
      them without a search; so a non-empty next page always shows as
      `hasMore`, and without a search `hasMore` means exactly that. */
  lemma ChatsListTotal(sessions: seq<Session>, users: seq<User>, f: ChatFilter, skip: nat, limit: nat)
    requires limit > 0
    ensures var total := Count(sessions, ChatWhere(users, f.(q := None)));
      var o := Ordered(sessions, ChatWhere(users, f), ChatRepository.SessionKey, true);
      |o| <= total &&
      (!Truthy(f.q) ==> |o| == total) &&
      (Take(Drop(o, skip + limit), limit) != [] ==> total > skip + limit) &&
      (!Truthy(f.q) ==> (Take(Drop(o, skip + limit), limit) != [] <==> total > skip + limit))
  {
    FilterImplies(sessions, ChatWhere(users, f), ChatWhere(users, f.(q := None)));
    if !Truthy(f.q) {
      FilterExt(sessions, ChatWhere(users, f), ChatWhere(users, f.(q := None)));
    }
    NextPageEmpty(Ordered(sessions, ChatWhere(users, f), ChatRepository.SessionKey, true), skip, limit);
  }

  /** `c` shows a stored class. */
  predicate ShowsClass(c: Choice, classes: seq<Class>) {
    exists k :: k in classes && c == Choice(k.id, k.name)
  }

  /** `c` shows a stored subject of class `classId`. */
  predicate ShowsSubjectOf(c: Choice, subjects: seq<Subject>, classId: string) {
    exists s :: s in subjects && s.classId == classId && c == Choice(s.id, s.name)
  }

  /** The class picker holds at most 100 stored classes. */
  lemma ClassChoicesSpec(classes: seq<Class>, subjects: seq<Subject>, sessions: seq<Session>)
    ensures var r := ClassChoices(classes, subjects, sessions);
      |r| <= PICKER_LIMIT && forall i :: 0 <= i < |r| ==> ShowsClass(r[i], classes)
  {
    var r := ClassChoices(classes, subjects, sessions);
    var rows := AdminClassRepository.FindAll(classes, subjects, sessions, PICKER_LIMIT, None);
    AdminClassRepository.FindAllShape(classes, subjects, sessions, PICKER_LIMIT, None);
    forall i | 0 <= i < |r|
      ensures ShowsClass(r[i], classes)
    {
      var c := rows[i].cls;
      assert c in classes && r[i] == Choice(c.id, c.name);
    }
  }

  /** Subjects are loaded only for a selected class, at most 100, all of
      that class. */
  lemma SubjectChoicesSpec(subjects: seq<Subject>, classes: seq<Class>, classId: Option<string>)
    ensures var r := SubjectChoices(subjects, classes, classId);
      (!Selected(classId) ==> r == []) &&
      |r| <= PICKER_LIMIT &&
      forall i :: 0 <= i < |r| ==> ShowsSubjectOf(r[i], subjects, classId.value)
  {
    var r := SubjectChoices(subjects, classes, classId);
    if Selected(classId) {
      var rows := AdminSubjectRepository.FindAll(subjects, classes, classId, None, PICKER_LIMIT, None);
      AdminSubjectRepository.FindAllShape(subjects, classes, classId, None, PICKER_LIMIT, None);
      forall i | 0 <= i < |r|
        ensures ShowsSubjectOf(r[i], subjects, classId.value)
      {
        var s := rows[i].subject;
        assert s in subjects && s.classId == classId.value && r[i] == Choice(s.id, s.name);
      }
    }
  }

  /** The pickers of a listing are those two lists: they depend on the
      selected class only, not on the subject, search, dates or page. */
  lemma ChatsListPickers(sessions: seq<Session>, users: seq<User>, classes: seq<Class>, subjects: seq<Subject>,
                         messages: seq<Message>, params: ChatListParams, parseDate: string -> Option<int>)
    requires GetChatsList(sessions, users, classes, subjects, messages, params, parseDate).Some?
    ensures var r := GetChatsList(sessions, users, classes, subjects, messages, params, parseDate).value;
      r.classes == ClassChoices(classes, subjects, sessions) &&
      r.subjects == SubjectChoices(subjects, classes, params.classId)
  {
  }

  /** A session with its relations and its first messages. */
  datatype SessionDetails = SessionDetails(chat: ChatDetail, messages: seq<Message>)

  /** `getSessionDetails(sessionId)`: `None` (null) for an unknown session. */
  function GetSessionDetails(sessions: seq<Session>, users: seq<User>, classes: seq<Class>, subjects: seq<Subject>,
                             messages: seq<Message>, sessionId: string): Option<SessionDetails>
  {
    match FindChat(sessions, users, classes, subjects, sessionId)
    case None => None
    case Some(d) => Some(SessionDetails(d, FindMessages(messages, sessionId, Some(DETAIL_LIMIT), None)))
  }

  /** Unknown exactly when no session has the id; otherwise that session
      with at most 100 of its own messages, oldest first, and all of them
      when it has no more than 100. */
  lemma SessionDetailsSpec(sessions: seq<Session>, users: seq<User>, classes: seq<Class>, subjects: seq<Subject>,
                           messages: seq<Message>, sessionId: string)
    ensures var r := GetSessionDetails(sessions, users, classes, subjects, messages, sessionId);
      (r.None? <==> forall s :: s in sessions ==> s.id != sessionId) &&
      (r.Some? ==>
        r.value.chat.session in sessions && r.value.chat.session.id == sessionId &&
        |r.value.messages| <= 100 &&
        (forall m :: m in r.value.messages ==> m in messages && m.sessionId == sessionId) &&
        (forall i, j :: 0 <= i < j < |r.value.messages| ==>
          r.value.messages[i].createdAt <= r.value.messages[j].createdAt) &&
        (Count(messages, ChatRepository.InSession(sessionId)) <= 100 ==>
          multiset(r.value.messages) == multiset(Filter(messages, ChatRepository.InSession(sessionId)))))
  {
    FindMessagesShape(messages, sessionId, Some(DETAIL_LIMIT), None);
    if Count(messages, ChatRepository.InSession(sessionId)) <= 100 {
      FindMessagesAll(messages, sessionId, Some(DETAIL_LIMIT));
    }
  }
}
