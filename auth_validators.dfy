/** Sign-in and registration schemas. Each check of a string schema runs
    in order and every failing check adds an issue; the trim and
    lower-case steps rewrite the value seen by the checks after them. The
    library's email-format predicate is a parameter. */
module AuthValidators {
  import opened Wrappers
  import opened Text

  datatype Issue = Issue(path: string, message: string)

  /** `emailSchema`: the format check sees the raw input; the value is then
      trimmed and lower-cased, and the length bound applies to the result. */
  function ParseEmail(raw: string, isEmail: string -> bool): (r: Result<string, seq<string>>)
    ensures r.Success? <==> isEmail(raw) && |ToLower(Trim(raw))| <= 255
    ensures r.Success? ==> r.value == ToLower(Trim(raw)) && |r.value| <= 255
    ensures r.Failure? ==> r.error != []
  {
    var normalized := ToLower(Trim(raw));
    var issues := (if isEmail(raw) then [] else ["Invalid email address"]) +
                  (if |normalized| > 255 then ["Email is too long"] else []);
    if issues == [] then Success(normalized) else Failure(issues)
  }

  predicate IsLineTerminator(c: char) {
    c == '\n' || c == '\r' || c == '\U{2028}' || c == '\U{2029}'
  }

  /** The text a `.*` at the start of the pattern can cross: up to the first
      line terminator. */
  function FirstLine(s: string): (r: string)
    ensures r <= s
    ensures forall i :: 0 <= i < |r| ==> !IsLineTerminator(r[i])
    ensures |r| < |s| ==> IsLineTerminator(s[|r|])
  {
    if s == [] || IsLineTerminator(s[0]) then [] else [s[0]] + FirstLine(s[1..])
  }

  predicate HasLower(s: string) { exists i :: 0 <= i < |s| && 'a' <= s[i] <= 'z' }
  predicate HasUpper(s: string) { exists i :: 0 <= i < |s| && 'A' <= s[i] <= 'Z' }
  predicate HasDigit(s: string) { exists i :: 0 <= i < |s| && '0' <= s[i] <= '9' }

  /** `/^(?=.*[a-z])(?=.*[A-Z])(?=.*\d)/`. */
  predicate StrengthPattern(p: string) {
    var line := FirstLine(p);
    HasLower(line) && HasUpper(line) && HasDigit(line)
  }

  const WEAK_PASSWORD := "Password must contain at least one uppercase letter, one lowercase letter, and one number"

  /** `passwordSchema`: the issues of each failing check, in check order. */
  function PasswordIssues(p: string): (r: seq<string>)
    ensures r == [] <==> 8 <= |p| <= 128 && StrengthPattern(p)
  {
    (if |p| < 8 then ["Password must be at least 8 characters"] else []) +
    (if |p| > 128 then ["Password is too long"] else []) +
    (if StrengthPattern(p) then [] else [WEAK_PASSWORD])
  }

  datatype LoginInput = LoginInput(email: string, password: string)

  function Prefix(path: string, messages: seq<string>): (r: seq<Issue>)
    ensures |r| == |messages|
    ensures forall i :: 0 <= i < |r| ==> r[i] == Issue(path, messages[i])
  {
    seq(|messages|, i requires 0 <= i < |messages| => Issue(path, messages[i]))
  }

  /** `loginSchema.safeParse`: the email is normalised; any non-empty
      password is accepted. */
  function ParseLogin(i: LoginInput, isEmail: string -> bool): (r: Result<LoginInput, seq<Issue>>)
    ensures r.Success? <==> ParseEmail(i.email, isEmail).Success? && |i.password| >= 1
    ensures r.Success? ==> r.value == LoginInput(ParseEmail(i.email, isEmail).value, i.password)
  {
    var email := ParseEmail(i.email, isEmail);
    var issues := (if email.Failure? then Prefix("email", email.error) else []) +
                  (if |i.password| < 1 then [Issue("password", "Password is required")] else []);
    if issues == [] then Success(LoginInput(email.value, i.password)) else Failure(issues)
  }

  datatype RegisterInput = RegisterInput(name: Option<string>, email: string, password: string, confirmPassword: string)

  /** The name checks: trimmed first, then 2 to 100 characters. */
  function NameIssues(name: Option<string>): (r: seq<string>)
    ensures r == [] <==> name.None? || 2 <= |Trim(name.value)| <= 100
  {
    match name
    case None => []
    case Some(n) =>
      var t := Trim(n);
      (if |t| < 2 then ["Name must be at least 2 characters"] else []) +
      (if |t| > 100 then ["Name is too long"] else [])
  }

  const MISMATCH := Issue("confirmPassword", "Passwords do not match")

  /** `registerSchema.safeParse`. The equality refinement still runs when
      only string checks failed, so a mismatch is always reported, on the
      path `confirmPassword`, after the field issues. */
  function ParseRegister(i: RegisterInput, isEmail: string -> bool): (r: Result<RegisterInput, seq<Issue>>)
    ensures r.Failure? ==> r.error != []
  {
    var email := ParseEmail(i.email, isEmail);
    var fieldIssues := Prefix("name", NameIssues(i.name)) +
                       (if email.Failure? then Prefix("email", email.error) else []) +
                       Prefix("password", PasswordIssues(i.password));
    var issues := fieldIssues + (if i.password != i.confirmPassword then [MISMATCH] else []);
    if issues == [] then
      Success(RegisterInput(if i.name.Some? then Some(Trim(i.name.value)) else None,
                            email.value, i.password, i.confirmPassword))
    else Failure(issues)
  }

  /** Registration succeeds exactly when every rule holds. */
  lemma RegisterAcceptsExactly(i: RegisterInput, isEmail: string -> bool)
    ensures ParseRegister(i, isEmail).Success? <==>
      (i.name.None? || 2 <= |Trim(i.name.value)| <= 100) &&
      isEmail(i.email) && |ToLower(Trim(i.email))| <= 255 &&
      8 <= |i.password| <= 128 && StrengthPattern(i.password) &&
      i.password == i.confirmPassword
  {
    var email := ParseEmail(i.email, isEmail);
    var fieldIssues := Prefix("name", NameIssues(i.name)) +
                       (if email.Failure? then Prefix("email", email.error) else []) +
                       Prefix("password", PasswordIssues(i.password));
    assert fieldIssues == [] <==>
      NameIssues(i.name) == [] && email.Success? && PasswordIssues(i.password) == [];
  }

  /** A mismatch always fails, and the last issue is reported on `confirmPassword`. */
  lemma MismatchReportedOnConfirm(i: RegisterInput, isEmail: string -> bool)
    requires i.password != i.confirmPassword
    ensures ParseRegister(i, isEmail).Failure?
    ensures var e := ParseRegister(i, isEmail).error; e[|e| - 1] == MISMATCH
  {
  }

  /** An accepted registration carries the normalised email and trimmed name. */
  lemma RegisterNormalises(i: RegisterInput, isEmail: string -> bool)
    requires ParseRegister(i, isEmail).Success?
    ensures var d := ParseRegister(i, isEmail).value;
            d.email == ToLower(Trim(i.email)) && |d.email| <= 255 &&
            (d.name.Some? ==> 2 <= |d.name.value| <= 100) &&
            d.password == i.password
  {
    RegisterAcceptsExactly(i, isEmail);
  }

  /** Sign-in and registration normalise the same email identically. */
  lemma SameEmailNormalisation(l: LoginInput, r: RegisterInput, isEmail: string -> bool)
    requires l.email == r.email
    requires ParseLogin(l, isEmail).Success? && ParseRegister(r, isEmail).Success?
    ensures ParseLogin(l, isEmail).value.email == ParseRegister(r, isEmail).value.email
  {
    RegisterAcceptsExactly(r, isEmail);
  }

  /** Without a line terminator the whole password is searched. */
  lemma {:induction false} FirstLineWhole(s: string)
    requires forall i :: 0 <= i < |s| ==> !IsLineTerminator(s[i])
    ensures FirstLine(s) == s
  {
    if s != [] {
      FirstLineWhole(s[1..]);
      assert s == [s[0]] + s[1..];
    }
  }

  /** The strength rule needs its letters and digit before the first line
      break: the same characters after a newline do not count. */
  lemma StrengthStopsAtLineBreak()
    ensures !StrengthPattern("\nAbcdefg1")
    ensures StrengthPattern("Abcdefg1")
  {
    assert FirstLine("\nAbcdefg1") == [];
    var s := "Abcdefg1";
    FirstLineWhole(s);
    assert 'a' <= s[1] <= 'z' && 'A' <= s[0] <= 'Z' && '0' <= s[7] <= '9';
  }
}
