/** `AuthService.validateCredentials`: look the user up by email, compare
    the password against the stored hash, stamp the login time and return
    only the public fields. The bcrypt comparison is a parameter. */
module AuthService {
  import opened Wrappers
  import opened Schema
  import opened AuthValidators

  /** What a successful login returns: never the hash. */
  datatype PublicUser = PublicUser(id: string, email: string, name: Option<string>, role: string)

  function HasEmail(email: string): User -> bool {
    (u: User) => u.email == email
  }

  /** `findUnique({ where: { email } })`. */
  function UserByEmail(users: seq<User>, email: string): Option<User> {
    FindFirst(users, HasEmail(email))
  }

  /** `user.create({ data: { email, name, passwordHash } })`, with the
      schema's defaults for the other fields. */
  function NewUser(id: string, email: string, name: Option<string>, passwordHash: string, role: string, now: int): User {
    User(id, email, name, Some(passwordHash), role, None, None, now, None)
  }

  /** Inserting a user only after the email lookup came back empty keeps
      emails unique, and the new user is then the one the lookup finds. */
  lemma InsertAfterLookup(users: seq<User>, u: User)
    requires UserByEmail(users, u.email).None?
    ensures EmailsUnique(users) ==> EmailsUnique(users + [u])
    ensures UserByEmail(users + [u], u.email) == Some(u)
  {
    FindFirstAppend(users, HasEmail(u.email), u);
    if EmailsUnique(users) {
      var r := users + [u];
      forall i, j | 0 <= i < j < |r|
        ensures r[i].email != r[j].email
      {
        assert r[i] == users[i];
        if j == |users| {
          assert HasEmail(u.email)(users[i]) == false;
        }
      }
    }
  }

  /** The decision `validateCredentials` takes; `compare(password, hash)`
      stands for bcrypt. */
  function Authenticate(users: seq<User>, credentials: LoginInput, compare: (string, string) -> bool)
    : (r: Option<PublicUser>)
    ensures r.Some? <==>
      exists u :: u in users && u.email == credentials.email && Truthy(u.passwordHash) &&
        compare(credentials.password, u.passwordHash.value) && UserByEmail(users, credentials.email) == Some(u)
    ensures r.Some? ==> r.value.email == credentials.email && exists u :: u in users && u.id == r.value.id
  {
    match UserByEmail(users, credentials.email)
    case None => None
    case Some(u) =>
      if !Truthy(u.passwordHash) then None
      else if !compare(credentials.password, u.passwordHash.value) then None
      else Some(PublicUser(u.id, u.email, u.name, u.role))
  }

  /** `updateLastLogin(userId)`. */
  function TouchLogin(users: seq<User>, userId: string, now: int): seq<User> {
    UpdateById(users, UserId, userId, (u: User) => u.(lastLoginAt := Some(now)))
  }

  /** `authService.validateCredentials(credentials)`. */
  method ValidateCredentials(db: Db, credentials: LoginInput, compare: (string, string) -> bool, now: int)
    returns (r: Option<PublicUser>)
    requires db.Valid()
    modifies db`users
    ensures db.Valid()
    ensures r == Authenticate(old(db.users), credentials, compare)
    ensures r.None? ==> unchanged(db)
    ensures r.Some? ==> db.users == TouchLogin(old(db.users), r.value.id, now)
  {
    var user := UserByEmail(db.users, credentials.email);
    if user.None? || !Truthy(user.value.passwordHash) {
      return None;
    }
    var isValid := compare(credentials.password, user.value.passwordHash.value);
    if !isValid {
      return None;
    }
    IdsValidUpdate(db.users, UserId, user.value.id, (u: User) => u.(lastLoginAt := Some(now)));
    db.users := TouchLogin(db.users, user.value.id, now);
    r := Some(PublicUser(user.value.id, user.value.email, user.value.name, user.value.role));
  }

  /** An unknown email and a wrong password are indistinguishable: both
      give the same null result. */
  lemma FailuresLookAlike(users: seq<User>, unknown: LoginInput, wrong: LoginInput, compare: (string, string) -> bool)
    requires forall u :: u in users ==> u.email != unknown.email
    requires UserByEmail(users, wrong.email).Some?
    requires var u := UserByEmail(users, wrong.email).value;
      u.passwordHash.Some? && !compare(wrong.password, u.passwordHash.value)
    ensures Authenticate(users, unknown, compare) == Authenticate(users, wrong, compare) == None
  {
  }

  /** A successful login stamps exactly that user's `lastLoginAt` and
      leaves every other field and every other user as it was. */
  lemma TouchLoginEffect(users: seq<User>, userId: string, now: int)
    requires IdsValid(users, UserId)
    ensures var r := TouchLogin(users, userId, now);
      IdsValid(r, UserId) && |r| == |users| &&
      forall i :: 0 <= i < |users| ==>
        if users[i].id == userId then r[i] == users[i].(lastLoginAt := Some(now)) else r[i] == users[i]
  {
    IdsValidUpdate(users, UserId, userId, (u: User) => u.(lastLoginAt := Some(now)));
  }

  /** Logging in does not change what the next login with the same
      credentials decides: the login stamp plays no part in authentication. */
  lemma LoginIsRepeatable(users: seq<User>, credentials: LoginInput, compare: (string, string) -> bool, now: int)
    requires Authenticate(users, credentials, compare).Some?
    ensures var r := Authenticate(users, credentials, compare);
      Authenticate(TouchLogin(users, r.value.id, now), credentials, compare) == r
  {
    var r := Authenticate(users, credentials, compare);
    FindFirstUpdate(users, UserId, r.value.id, (u: User) => u.(lastLoginAt := Some(now)), HasEmail(credentials.email));
  }
}
