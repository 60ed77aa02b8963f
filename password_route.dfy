/** The password-change route `PUT /api/user/password`: the caller must be
    signed in, the body must pass `changePasswordSchema`, the user must
    exist and have a password, and the current password must match; then
    only the stored hash is replaced. The session email, the body, bcrypt
    and a failing write are inputs. */
module PasswordRoute {
  import opened Wrappers
  import opened Schema
  import opened AuthValidators
  import opened AuthService

  /** `{ currentPassword, newPassword }` once the body is read. */
  datatype ChangePassword = ChangePassword(currentPassword: string, newPassword: string)

  const MIN_NEW_PASSWORD := 8

  /** `changePasswordSchema.parse(body)` succeeds. */
  predicate SchemaAccepts(b: ChangePassword) {
    |b.currentPassword| >= 1 && |b.newPassword| >= MIN_NEW_PASSWORD
  }

  /** The plain-text reply and its status. */
  datatype Reply = Reply(status: int, text: string)

  const UNAUTHORIZED := Reply(401, "Unauthorized")
  const INVALID := Reply(422, "Invalid request data")
  const NOT_FOUND := Reply(404, "User not found")
  const NO_PASSWORD := Reply(400, "User has no password set (OAuth?)")
  const WRONG_PASSWORD := Reply(400, "Incorrect current password")
  const UPDATED := Reply(200, "Password updated successfully")
  const INTERNAL_ERROR := Reply(500, "Internal Error")

  function UserEmail(u: User): string { u.email }

  /** `user.update({ where: { email }, data: { passwordHash } })`. */
  function SetHash(users: seq<User>, email: string, passwordHash: string): seq<User> {
    UpdateById(users, UserEmail, email, (u: User) => u.(passwordHash := Some(passwordHash)))
  }

  /** The reply and whether the hash is replaced. `body` is `None` when the
      request is not JSON: that error is not a schema error and ends in 500. */
  function PlanChange(users: seq<User>, sessionEmail: Option<string>, body: Option<ChangePassword>,
                      compare: (string, string) -> bool, hash: string -> string, updateFails: bool): (Reply, bool)
  {
    if !Truthy(sessionEmail) then (UNAUTHORIZED, false)
    else if body.None? then (INTERNAL_ERROR, false)
    else if !SchemaAccepts(body.value) then (INVALID, false)
    else match UserByEmail(users, sessionEmail.value)
      case None => (NOT_FOUND, false)
      case Some(u) =>
        if !Truthy(u.passwordHash) then (NO_PASSWORD, false)
        else if !compare(body.value.currentPassword, u.passwordHash.value) then (WRONG_PASSWORD, false)
        else if updateFails then (INTERNAL_ERROR, false)
        else (UPDATED, true)
  }

  /** `PUT(req)`. */
  method Put(db: Db, sessionEmail: Option<string>, body: Option<ChangePassword>,
             compare: (string, string) -> bool, hash: string -> string, updateFails: bool)
    returns (r: Reply)
    requires db.Valid()
    modifies db`users
    ensures db.Valid()
    ensures var (reply, updated) := PlanChange(old(db.users), sessionEmail, body, compare, hash, updateFails);
      r == reply &&
      db.users == if updated then SetHash(old(db.users), sessionEmail.value, hash(body.value.newPassword)) else old(db.users)
  {
    if !Truthy(sessionEmail) {
      return UNAUTHORIZED;
    }
    if body.None? {
      return INTERNAL_ERROR;
    }
    if !SchemaAccepts(body.value) {
      return INVALID;
    }
    var user := UserByEmail(db.users, sessionEmail.value);
    if user.None? {
      return NOT_FOUND;
    }
    if !Truthy(user.value.passwordHash) {
      return NO_PASSWORD;
    }
    var isValid := compare(body.value.currentPassword, user.value.passwordHash.value);
    if !isValid {
      return WRONG_PASSWORD;
    }
    if updateFails {
      return INTERNAL_ERROR;
    }
    var hashedPassword := hash(body.value.newPassword);
    db.users := SetHash(db.users, sessionEmail.value, hashedPassword);
    r := UPDATED;
  }

  /** The guards in order: no session email gives 401 whatever the body;
      a body failing the schema gives 422; an unknown user 404; a user with
      no hash, or a wrong current password, 400. Only a 200 writes. */
  lemma PasswordGuards(users: seq<User>, sessionEmail: Option<string>, body: Option<ChangePassword>,
                       compare: (string, string) -> bool, hash: string -> string, updateFails: bool)
    ensures var (reply, updated) := PlanChange(users, sessionEmail, body, compare, hash, updateFails);
      (updated <==> reply == UPDATED) &&
      (!Truthy(sessionEmail) ==> reply == UNAUTHORIZED) &&
      (Truthy(sessionEmail) && body.Some? && !SchemaAccepts(body.value) ==> reply == INVALID) &&
      (Truthy(sessionEmail) && body.Some? && SchemaAccepts(body.value) ==>
        ((forall u :: u in users ==> u.email != sessionEmail.value) ==> reply == NOT_FOUND) &&
        (forall u :: UserByEmail(users, sessionEmail.value) == Some(u) ==>
          (!Truthy(u.passwordHash) ==> reply == NO_PASSWORD) &&
          (Truthy(u.passwordHash) && !compare(body.value.currentPassword, u.passwordHash.value) ==>
             reply == WRONG_PASSWORD)))
  {
  }

  /** A successful change needs the caller's user, with a hash that the
      current password matches, and a new password of at least eight
      characters; strength rules do not apply. */
  lemma PasswordChangeNeeds(users: seq<User>, sessionEmail: Option<string>, body: Option<ChangePassword>,
                            compare: (string, string) -> bool, hash: string -> string, updateFails: bool)
    requires PlanChange(users, sessionEmail, body, compare, hash, updateFails).1
    ensures Truthy(sessionEmail) && body.Some? && |body.value.newPassword| >= MIN_NEW_PASSWORD && !updateFails
    ensures exists u ::
      UserByEmail(users, sessionEmail.value) == Some(u) && Truthy(u.passwordHash) &&
      compare(body.value.currentPassword, u.passwordHash.value)
  {
    var u := UserByEmail(users, sessionEmail.value).value;
    assert UserByEmail(users, sessionEmail.value) == Some(u);
  }

  /** The update replaces only the hash, and only of the caller's user:
      every other field and every other user stay as they were, and the
      lookup by email then finds the user with the new hash. */
  lemma SetHashEffect(users: seq<User>, email: string, passwordHash: string)
    ensures var r := SetHash(users, email, passwordHash);
      |r| == |users| &&
      forall i :: 0 <= i < |users| ==>
        if users[i].email == email then r[i] == users[i].(passwordHash := Some(passwordHash)) else r[i] == users[i]
    ensures match UserByEmail(users, email)
      case None => UserByEmail(SetHash(users, email, passwordHash), email).None?
      case Some(u) => UserByEmail(SetHash(users, email, passwordHash), email) == Some(u.(passwordHash := Some(passwordHash)))
  {
    var f := (u: User) => u.(passwordHash := Some(passwordHash));
    FindFirstUpdate(users, UserEmail, email, f, HasEmail(email));
  }

  /** Under the unique index on `email` the update changes at most one
      row, as `update` on a unique field does. */
  lemma SetHashChangesOneRow(users: seq<User>, email: string, passwordHash: string)
    requires EmailsUnique(users)
    ensures var r := SetHash(users, email, passwordHash);
      forall i, j :: 0 <= i < |users| && 0 <= j < |users| && r[i] != users[i] && r[j] != users[j] ==> i == j
  {
    var r := SetHash(users, email, passwordHash);
    forall i, j | 0 <= i < |users| && 0 <= j < |users| && r[i] != users[i] && r[j] != users[j]
      ensures i == j
    {
      assert users[i].email == email && users[j].email == email;
    }
  }

  /** The new password needs only eight characters, not the registration
      strength rules: "abcdefgh" is accepted here but refused at sign-up. */
  lemma NoStrengthRule(current: string, email: string, isEmail: string -> bool)
    requires current != ""
    ensures SchemaAccepts(ChangePassword(current, "abcdefgh"))
    ensures ParseRegister(RegisterInput(None, email, "abcdefgh", "abcdefgh"), isEmail).Failure?
  {
    LowerCaseOnlyIsWeak();
    RegisterAcceptsExactly(RegisterInput(None, email, "abcdefgh", "abcdefgh"), isEmail);
  }

  lemma LowerCaseOnlyIsWeak()
    ensures !StrengthPattern("abcdefgh")
  {
    var p := "abcdefgh";
    assert p[0] == 'a' && p[1] == 'b' && p[2] == 'c' && p[3] == 'd';
    assert p[4] == 'e' && p[5] == 'f' && p[6] == 'g' && p[7] == 'h';
    NoUpperInLowerCase(p);
  }

  /** A password of lower-case letters only has no upper-case letter on its
      first line. */
  lemma NoUpperInLowerCase(p: string)
    requires forall i :: 0 <= i < |p| ==> 'a' <= p[i] <= 'z'
    ensures !HasUpper(FirstLine(p))
  {
    var line := FirstLine(p);
    forall i | 0 <= i < |line|
      ensures !('A' <= line[i] <= 'Z')
    {
      assert line[i] == p[i];
    }
  }
}
