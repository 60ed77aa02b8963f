/** Submitted form values as the admin actions see them, the string rule
    their schemas apply to each, and the shape of an action's answer. */
module Forms {
  import opened Wrappers
  import opened AuthValidators

  /** A value in the object handed to a schema: a key left out, a `null`,
      or a string. `formData.get` yields `null` for a missing field and
      never leaves the key out. */
  datatype Raw = Undefined | Null | Str(s: string)

  function FromForm(v: Option<string>): (r: Raw)
    ensures !r.Undefined?
  {
    if v.Some? then Str(v.value) else Null
  }

  /** The parsed value of an optional key: present only for a string. */
  function Present(v: Raw): Option<string> {
    if v.Str? then Some(v.s) else None
  }

  /** A checkbox is on exactly when its value is "on". */
  predicate Checked(v: Option<string>) {
    v == Some("on")
  }

  const REQUIRED := "Required"
  const EXPECTED_STRING := "Expected string, received null"
  /** The message of `min(1)` when the schema gives none. */
  const TOO_SHORT := "String must contain at least 1 character(s)"

  /** The messages of `z.string()`, made `.optional()` when `optional`,
      followed by `.min(1, message)` when `minMessage` is given: a missing
      key fails unless optional, `null` always fails, and a string fails
      only the length check. */
  function StringIssues(v: Raw, optional: bool, minMessage: Option<string>): (r: seq<string>)
    ensures |r| <= 1
    ensures r == [] <==> (v.Undefined? && optional) || (v.Str? && (minMessage.None? || v.s != ""))
  {
    if v.Undefined? then (if optional then [] else [REQUIRED])
    else if v.Null? then [EXPECTED_STRING]
    else if minMessage.Some? && |v.s| < 1 then [minMessage.value]
    else []
  }

  /** What an admin action returns: `{ success: true }`, the field errors
      of a rejected form, or a fixed failure message. */
  datatype ActionResult = Done | FieldErrors(issues: seq<Issue>) | Failed(message: string)
}
