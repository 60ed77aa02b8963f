/** The server actions behind the admin subject form. Creating needs a
    name and a class; updating checks only the name and the active flag,
    so the class field of the form is ignored and a subject never changes
    class. The fresh id and the current time of a created row are inputs. */
module SubjectActions {
  import opened Wrappers
  import opened Schema
  import opened AuthValidators
  import opened Forms
  import AdminSubjectRepository

  /** The subject form's fields as `formData.get` returns them. */
  datatype SubjectForm = SubjectForm(name: Option<string>, classId: Option<string>, isActive: Option<string>)

  /** The object the create action builds from the form. */
  datatype SubjectRaw = SubjectRaw(name: Raw, classId: Raw, isActive: bool)

  /** The object the update action hands to its own schema. */
  datatype UpdateRaw = UpdateRaw(name: Raw, isActive: bool)

  const NAME_REQUIRED := "Name is required"
  const CLASS_REQUIRED := "Class is required"
  const UPDATE_FAILED := "Failed to update subject"
  const DELETE_FAILED := "Failed to delete subject"

  function ReadForm(f: SubjectForm): SubjectRaw {
    SubjectRaw(FromForm(f.name), FromForm(f.classId), Checked(f.isActive))
  }

  /** `updateData`: the name and the flag, without the class. */
  function ReadUpdate(f: SubjectForm): UpdateRaw {
    UpdateRaw(FromForm(f.name), Checked(f.isActive))
  }

  /** The issues of `subjectSchema`: a name and a class id, each a string
      of at least one character. */
  function SubjectIssues(r: SubjectRaw): seq<Issue> {
    Prefix("name", StringIssues(r.name, false, Some(NAME_REQUIRED))) +
    Prefix("classId", StringIssues(r.classId, false, Some(CLASS_REQUIRED)))
  }

  /** The issues of the update schema: an optional name of at least one
      character, with the default message. */
  function UpdateIssues(r: UpdateRaw): seq<Issue> {
    Prefix("name", StringIssues(r.name, true, Some(TOO_SHORT)))
  }

  /** A create form passes exactly when both the name and the class are
      non-empty, and each missing or empty one is reported on its field
      with its own message, the name first. */
  lemma SubjectFormAccepted(f: SubjectForm)
    ensures var issues := SubjectIssues(ReadForm(f));
      (issues == [] <==> f.name.Some? && f.name.value != "" && f.classId.Some? && f.classId.value != "") &&
      (f.name == Some("") ==> issues[0] == Issue("name", NAME_REQUIRED)) &&
      (f.name.Some? && f.name.value != "" && f.classId == Some("") ==>
        issues == [Issue("classId", CLASS_REQUIRED)])
  {
    var r := ReadForm(f);
    assert SubjectIssues(r) == Prefix("name", StringIssues(r.name, false, Some(NAME_REQUIRED))) +
                               Prefix("classId", StringIssues(r.classId, false, Some(CLASS_REQUIRED)));
  }

  /** An update form passes exactly when it has a non-empty name; an empty
      one gets the default message, not the create form's. */
  lemma UpdateFormAccepted(f: SubjectForm)
    ensures var issues := UpdateIssues(ReadUpdate(f));
      (issues == [] <==> f.name.Some? && f.name.value != "") &&
      (f.name == Some("") ==> issues == [Issue("name", TOO_SHORT)]) &&
      (f.name.None? ==> issues == [Issue("name", EXPECTED_STRING)])
  {
    var ni := StringIssues(ReadUpdate(f).name, true, Some(TOO_SHORT));
    assert UpdateIssues(ReadUpdate(f)) == Prefix("name", ni);
  }

  /** The update is blind to the form's class field: it neither checks it
      nor passes it on. */
  lemma UpdateIgnoresClass(f: SubjectForm, classId: Option<string>)
    ensures ReadUpdate(f.(classId := classId)) == ReadUpdate(f)
    ensures UpdateIssues(ReadUpdate(f.(classId := classId))) == UpdateIssues(ReadUpdate(f))
  {
  }

  /** A form without a class is refused on create but passes on update. */
  lemma UpdateLooserThanCreate(name: string, isActive: Option<string>)
    requires name != ""
    ensures SubjectIssues(ReadForm(SubjectForm(Some(name), None, isActive))) == [Issue("classId", EXPECTED_STRING)]
    ensures UpdateIssues(ReadUpdate(SubjectForm(Some(name), None, isActive))) == []
  {
    SubjectFormAccepted(SubjectForm(Some(name), None, isActive));
    assert Prefix("classId", [EXPECTED_STRING]) == [Issue("classId", EXPECTED_STRING)];
  }

  function NewSubjectOf(r: SubjectRaw): AdminSubjectRepository.NewSubject
    requires r.name.Str? && r.classId.Str?
  {
    AdminSubjectRepository.NewSubject(r.name.s, r.classId.s, Some(r.isActive))
  }

  function PatchOf(r: UpdateRaw): AdminSubjectRepository.SubjectPatch {
    AdminSubjectRepository.SubjectPatch(Present(r.name), Some(r.isActive))
  }

  /** An accepted update sets the name and the flag (an unchecked box
      deactivates) and keeps the class, id and creation time. */
  lemma UpdateOverwrites(f: SubjectForm, s: Subject)
    requires UpdateIssues(ReadUpdate(f)) == []
    ensures AdminSubjectRepository.Patch(PatchOf(ReadUpdate(f)))(s) ==
            s.(name := f.name.value, isActive := Checked(f.isActive))
  {
    UpdateFormAccepted(f);
  }

  /** `createSubjectAction(formData)`: the class id is stored as given. */
  method CreateSubjectAction(db: Db, f: SubjectForm, id: string, now: int) returns (r: ActionResult)
    requires db.Valid() && Fresh(db.subjects, SubjectId, id)
    modifies db`subjects
    ensures db.Valid()
    ensures SubjectIssues(ReadForm(f)) != [] ==> r == FieldErrors(SubjectIssues(ReadForm(f))) && unchanged(db)
    ensures SubjectIssues(ReadForm(f)) == [] ==>
      r == Done &&
      db.subjects == old(db.subjects) + [Subject(id, f.name.value, f.classId.value, Checked(f.isActive), now)]
  {
    var raw := ReadForm(f);
    var issues := SubjectIssues(raw);
    if issues != [] {
      return FieldErrors(issues);
    }
    SubjectFormAccepted(f);
    var _ := AdminSubjectRepository.Create(db, NewSubjectOf(raw), id, now);
    r := Done;
  }

  /** `updateSubjectAction(id, formData)`: a rejected form or a missing
      subject writes nothing; no subject's class changes. */
  method UpdateSubjectAction(db: Db, id: string, f: SubjectForm) returns (r: ActionResult)
    requires db.Valid()
    modifies db`subjects
    ensures db.Valid()
    ensures UpdateIssues(ReadUpdate(f)) != [] ==> r == FieldErrors(UpdateIssues(ReadUpdate(f))) && unchanged(db)
    ensures UpdateIssues(ReadUpdate(f)) == [] && FindById(old(db.subjects), SubjectId, id).None? ==>
      r == Failed(UPDATE_FAILED) && unchanged(db)
    ensures UpdateIssues(ReadUpdate(f)) == [] && FindById(old(db.subjects), SubjectId, id).Some? ==>
      r == Done &&
      db.subjects == UpdateById(old(db.subjects), SubjectId, id, AdminSubjectRepository.Patch(PatchOf(ReadUpdate(f))))
    ensures |db.subjects| == |old(db.subjects)| &&
      forall i :: 0 <= i < |db.subjects| ==> db.subjects[i].classId == old(db.subjects[i].classId)
  {
    var raw := ReadUpdate(f);
    var issues := UpdateIssues(raw);
    if issues != [] {
      return FieldErrors(issues);
    }
    var u := AdminSubjectRepository.Update(db, id, PatchOf(raw));
    if u.Failure? {
      return Failed(UPDATE_FAILED);
    }
    r := Done;
  }

  /** `deleteSubjectAction(id)`: a missing subject fails. */
  method DeleteSubjectAction(db: Db, id: string) returns (r: ActionResult)
    requires db.Valid()
    modifies db`subjects
    ensures db.Valid()
    ensures FindById(old(db.subjects), SubjectId, id).None? ==> r == Failed(DELETE_FAILED) && unchanged(db)
    ensures FindById(old(db.subjects), SubjectId, id).Some? ==>
      r == Done && db.subjects == RemoveById(old(db.subjects), SubjectId, id)
  {
    var d := AdminSubjectRepository.Delete(db, id);
    if d.Failure? {
      return Failed(DELETE_FAILED);
    }
    r := Done;
  }
}
