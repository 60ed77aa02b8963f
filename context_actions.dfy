/** The context form actions: `saveContext` stores the class and subject
    a user picked and redirects to a new chat, `resetContext` clears them.
    The signed-in email is an input; the redirect is a returned value. */
module ContextActions {
  import opened Wrappers
  import opened Seqs
  import opened Schema
  import opened Errors
  import opened ChatService
  import opened AuthService

  /** The three form fields as `formData.get` returns them (absent or text). */
  datatype ContextForm = ContextForm(className: Option<string>, subjectName: Option<string>, folderId: Option<string>)

  /** `contextSchema`'s output. */
  datatype ContextInput = ContextInput(className: string, subjectName: string, folderId: Option<string>)

  datatype ContextState = ContextState(success: bool, message: Option<string>)

  /** An action either returns a state to the form or redirects. */
  datatype SaveResult = State(state: ContextState) | Redirect(url: string)

  const NOT_AUTHENTICATED := ContextState(false, Some("Not authenticated"))
  const INVALID_SELECTION := ContextState(false, Some("Invalid class or subject"))
  const SAVE_FAILED := ContextState(false, Some("Failed to save selection"))

  /** `contextSchema.safeParse` of the raw data, where `folderId` has
      already gone through `|| undefined`. */
  function ParseContext(f: ContextForm): (r: Option<ContextInput>)
    ensures r.Some? <==> f.className.Some? && f.className.value != "" && f.subjectName.Some? && f.subjectName.value != ""
    ensures r.Some? ==> r.value.className == f.className.value && r.value.subjectName == f.subjectName.value
    ensures r.Some? ==> r.value.folderId == NonEmpty(f.folderId)
  {
    if f.className.None? || |f.className.value| < 1 then None
    else if f.subjectName.None? || |f.subjectName.value| < 1 then None
    else Some(ContextInput(f.className.value, f.subjectName.value, NonEmpty(f.folderId)))
  }

  /** "/chat/new?" followed by the query string, which names the folder
      only when one was given. */
  function RedirectTarget(folderId: Option<string>): (url: string)
    ensures Truthy(folderId) ==> url == "/chat/new?folderId=" + folderId.value
    ensures !Truthy(folderId) ==> url == "/chat/new?"
  {
    "/chat/new?" + (if Truthy(folderId) then "folderId=" + folderId.value else "")
  }

  /** `user.update({ where: { email }, data: { selectedClass, selectedSubject } })`. */
  function SetSelection(users: seq<User>, email: string, className: Option<string>, subjectName: Option<string>)
    : seq<User>
  {
    match UserByEmail(users, email)
    case None => users
    case Some(u) =>
      UpdateById(users, UserId, u.id, (x: User) => x.(selectedClass := className, selectedSubject := subjectName))
  }

  /** Storing a selection changes only the selections of the user with
      that email. */
  lemma SetSelectionEffect(users: seq<User>, email: string, className: Option<string>, subjectName: Option<string>)
    requires IdsValid(users, UserId)
    ensures var r := SetSelection(users, email, className, subjectName);
      IdsValid(r, UserId) && |r| == |users| &&
      forall i :: 0 <= i < |users| ==>
        if Some(users[i]) == UserByEmail(users, email)
        then r[i] == users[i].(selectedClass := className, selectedSubject := subjectName)
        else r[i] == users[i]
  {
    match UserByEmail(users, email)
    case None =>
    case Some(u) =>
      IdsValidUpdate(users, UserId, u.id, (x: User) => x.(selectedClass := className, selectedSubject := subjectName));
      forall i | 0 <= i < |users|
        ensures users[i].id == u.id <==> users[i] == u
      {
        var k :| 0 <= k < |users| && users[k] == u;
        assert users[i].id == u.id ==> i == k;
      }
  }

  /** `saveContext(prevState, formData)`. */
  method SaveContext(db: Db, sessionEmail: Option<string>, form: ContextForm) returns (r: SaveResult)
    requires db.Valid()
    modifies db`users
    ensures db.Valid()
    ensures !Truthy(sessionEmail) ==> r == State(NOT_AUTHENTICATED) && unchanged(db)
    ensures Truthy(sessionEmail) && ParseContext(form).None? ==> r == State(INVALID_SELECTION) && unchanged(db)
    ensures Truthy(sessionEmail) && ParseContext(form).Some? ==>
      var input := ParseContext(form).value;
      if UserByEmail(old(db.users), sessionEmail.value).None? then
        r == State(SAVE_FAILED) && unchanged(db)
      else
        r == Redirect(RedirectTarget(input.folderId)) &&
        db.users == SetSelection(old(db.users), sessionEmail.value, Some(input.className), Some(input.subjectName))
  {
    if !Truthy(sessionEmail) {
      return State(NOT_AUTHENTICATED);
    }
    var validated := ParseContext(form);
    if validated.None? {
      return State(INVALID_SELECTION);
    }
    var input := validated.value;
    if UserByEmail(db.users, sessionEmail.value).None? {
      // the update of a missing record throws and is caught
      return State(SAVE_FAILED);
    }
    SetSelectionEffect(db.users, sessionEmail.value, Some(input.className), Some(input.subjectName));
    db.users := SetSelection(db.users, sessionEmail.value, Some(input.className), Some(input.subjectName));
    r := Redirect(RedirectTarget(input.folderId));
  }

  /** `resetContext(formData)`: a failed update is swallowed. */
  method ResetContext(db: Db, sessionEmail: Option<string>)
    requires db.Valid()
    modifies db`users
    ensures db.Valid()
    ensures !Truthy(sessionEmail) ==> unchanged(db)
    ensures Truthy(sessionEmail) ==> db.users == SetSelection(old(db.users), sessionEmail.value, None, None)
  {
    if !Truthy(sessionEmail) {
      return;
    }
    SetSelectionEffect(db.users, sessionEmail.value, None, None);
    db.users := SetSelection(db.users, sessionEmail.value, None, None);
  }

  /** After a user saves a selection, the next session they create is for
      exactly that class and subject. */
  lemma SaveThenCreateUsesSelection(users: seq<User>, u: User, className: string, subjectName: string)
    requires IdsValid(users, UserId)
    requires UserByEmail(users, u.email) == Some(u)
    requires className != "" && subjectName != ""
    ensures Selection(SetSelection(users, u.email, Some(className), Some(subjectName)), u.id)
         == Success((className, subjectName))
  {
    var r := SetSelection(users, u.email, Some(className), Some(subjectName));
    SetSelectionEffect(users, u.email, Some(className), Some(subjectName));
    var k :| 0 <= k < |users| && users[k] == u;
    SelectionRequired(r, r[k]);
  }

  /** After a reset, creating a session fails with the validation error
      and writes nothing. */
  lemma ResetThenCreateFails(users: seq<User>, classes: seq<Class>, subjects: seq<Subject>, folders: seq<Folder>,
                             u: User, folderId: Option<string>, ids: NewIds,
                             isActive: bool, messageCount: int, now: int)
    requires IdsValid(users, UserId)
    requires UserByEmail(users, u.email) == Some(u)
    ensures var r := SetSelection(users, u.email, None, None);
      PlanCreate(r, classes, subjects, folders, u.id, folderId, ids, isActive, messageCount, now)
        == Outcome(classes, subjects, Failure(App(NO_SELECTION)), [])
  {
    var r := SetSelection(users, u.email, None, None);
    SetSelectionEffect(users, u.email, None, None);
    var k :| 0 <= k < |users| && users[k] == u;
    CreateNeedsSelection(r, classes, subjects, folders, r[k], folderId, ids, isActive, messageCount, now);
  }
}
