/** The server actions behind the admin class form: validate the submitted
    fields, then create, update or delete through the class repository,
    answering with success, the field errors, or a fixed failure message.
    The fresh id and the current time of a created row are inputs. */
module ClassActions {
  import opened Wrappers
  import opened Schema
  import opened AuthValidators
  import opened Forms
  import AdminClassRepository

  /** The class form's fields as `formData.get` returns them. */
  datatype ClassForm = ClassForm(name: Option<string>, grade: Option<string>, isActive: Option<string>)

  /** The object the actions build from the form. */
  datatype ClassRaw = ClassRaw(name: Raw, grade: Raw, isActive: bool)

  const NAME_REQUIRED := "Name is required"
  const UPDATE_FAILED := "Failed to update class"
  const DELETE_FAILED := "Failed to delete class"

  function ReadForm(f: ClassForm): ClassRaw {
    ClassRaw(FromForm(f.name), FromForm(f.grade), Checked(f.isActive))
  }

  /** The issues of `classSchema`, or of `classSchema.partial()` when
      `partial`: a name string of at least one character and an optional
      grade string; `isActive` is always a boolean here. */
  function ClassIssues(r: ClassRaw, partial: bool): seq<Issue> {
    Prefix("name", StringIssues(r.name, partial, Some(NAME_REQUIRED))) +
    Prefix("grade", StringIssues(r.grade, true, None))
  }

  /** A form passes `classSchema` exactly when it has a non-empty name and
      a grade field (possibly empty); the name's issue comes first, and a
      missing grade field fails on `grade` as a `null`. */
  lemma ClassFormAccepted(f: ClassForm)
    ensures var issues := ClassIssues(ReadForm(f), false);
      (issues == [] <==> f.name.Some? && f.name.value != "" && f.grade.Some?) &&
      (f.name == Some("") ==> issues[0] == Issue("name", NAME_REQUIRED)) &&
      (f.name.None? ==> issues[0] == Issue("name", EXPECTED_STRING)) &&
      (f.name.Some? && f.name.value != "" && f.grade.None? ==> issues == [Issue("grade", EXPECTED_STRING)])
  {
    var r := ReadForm(f);
    var ni := StringIssues(r.name, false, Some(NAME_REQUIRED));
    var gi := StringIssues(r.grade, true, None);
    assert ClassIssues(r, false) == Prefix("name", ni) + Prefix("grade", gi);
  }

  /** `partial()` only admits a left-out key, and a form never leaves one
      out, so an update form is checked exactly like a create form. */
  lemma UpdateValidatesAsCreate(f: ClassForm)
    ensures ClassIssues(ReadForm(f), true) == ClassIssues(ReadForm(f), false)
  {
    assert StringIssues(FromForm(f.name), true, Some(NAME_REQUIRED)) ==
           StringIssues(FromForm(f.name), false, Some(NAME_REQUIRED));
  }

  /** On an object with the keys left out, `partial()` passes where the
      full schema fails. */
  lemma PartialAdmitsMissingKeys(isActive: bool)
    ensures ClassIssues(ClassRaw(Undefined, Undefined, isActive), true) == []
    ensures ClassIssues(ClassRaw(Undefined, Undefined, isActive), false) == [Issue("name", REQUIRED)]
  {
    assert Prefix("name", [REQUIRED]) == [Issue("name", REQUIRED)];
  }

  /** The data handed to `createClass` by a form that passed. */
  function NewClassOf(r: ClassRaw): AdminClassRepository.NewClass
    requires r.name.Str?
  {
    AdminClassRepository.NewClass(r.name.s, Present(r.grade), Some(r.isActive))
  }

  /** The data handed to `updateClass`: every key the parsed object has. */
  function PatchOf(r: ClassRaw): AdminClassRepository.ClassPatch {
    AdminClassRepository.ClassPatch(Present(r.name), Present(r.grade), Some(r.isActive))
  }

  /** An accepted update form sets all three fields, so an unchecked box
      deactivates the class; id and creation time stay. */
  lemma UpdateOverwrites(f: ClassForm, c: Class)
    requires ClassIssues(ReadForm(f), true) == []
    ensures AdminClassRepository.Patch(PatchOf(ReadForm(f)))(c) ==
            c.(name := f.name.value, grade := f.grade, isActive := Checked(f.isActive))
  {
    UpdateValidatesAsCreate(f);
    ClassFormAccepted(f);
  }

  /** `createClassAction(formData)` */
  method CreateClassAction(db: Db, f: ClassForm, id: string, now: int) returns (r: ActionResult)
    requires db.Valid() && Fresh(db.classes, ClassId, id)
    modifies db`classes
    ensures db.Valid()
    ensures ClassIssues(ReadForm(f), false) != [] ==>
      r == FieldErrors(ClassIssues(ReadForm(f), false)) && unchanged(db)
    ensures ClassIssues(ReadForm(f), false) == [] ==>
      r == Done &&
      db.classes == old(db.classes) + [Class(id, f.name.value, f.grade, Checked(f.isActive), now)]
  {
    var raw := ReadForm(f);
    var issues := ClassIssues(raw, false);
    if issues != [] {
      return FieldErrors(issues);
    }
    ClassFormAccepted(f);
    var _ := AdminClassRepository.Create(db, NewClassOf(raw), id, now);
    r := Done;
  }

  /** `updateClassAction(id, formData)`: a rejected form or a missing class
      writes nothing. */
  method UpdateClassAction(db: Db, id: string, f: ClassForm) returns (r: ActionResult)
    requires db.Valid()
    modifies db`classes
    ensures db.Valid()
    ensures ClassIssues(ReadForm(f), true) != [] ==>
      r == FieldErrors(ClassIssues(ReadForm(f), true)) && unchanged(db)
    ensures ClassIssues(ReadForm(f), true) == [] && FindById(old(db.classes), ClassId, id).None? ==>
      r == Failed(UPDATE_FAILED) && unchanged(db)
    ensures ClassIssues(ReadForm(f), true) == [] && FindById(old(db.classes), ClassId, id).Some? ==>
      r == Done &&
      db.classes == UpdateById(old(db.classes), ClassId, id, AdminClassRepository.Patch(PatchOf(ReadForm(f))))
  {
    var raw := ReadForm(f);
    var issues := ClassIssues(raw, true);
    if issues != [] {
      return FieldErrors(issues);
    }
    var u := AdminClassRepository.Update(db, id, PatchOf(raw));
    if u.Failure? {
      return Failed(UPDATE_FAILED);
    }
    r := Done;
  }

  /** `deleteClassAction(id)`: a hard delete; a missing class fails. */
  method DeleteClassAction(db: Db, id: string) returns (r: ActionResult)
    requires db.Valid()
    modifies db`classes
    ensures db.Valid()
    ensures FindById(old(db.classes), ClassId, id).None? ==> r == Failed(DELETE_FAILED) && unchanged(db)
    ensures FindById(old(db.classes), ClassId, id).Some? ==>
      r == Done && db.classes == RemoveById(old(db.classes), ClassId, id)
    ensures db.subjects == old(db.subjects) && db.sessions == old(db.sessions)
  {
    var d := AdminClassRepository.Delete(db, id);
    if d.Failure? {
      return Failed(DELETE_FAILED);
    }
    r := Done;
  }
}
