/** The older sign-up route `POST /api/register`: a local schema with only
    a six-character password minimum and no email normalisation, a
    duplicate check on the exact email string, the insert, and a reply
    holding every column of the new user except `passwordHash`. */
module LegacyRegisterRoute {
  import opened Wrappers
  import opened Schema
  import opened Records
  import opened Security
  import opened AuthValidators
  import opened AuthService

  /** The request body as the local schema sees it. */
  datatype LegacyBody = LegacyBody(email: string, password: string, name: Option<string>)

  const MIN_PASSWORD := 6

  /** `userAuthSchema.parse(json)`: the issues of the failing checks. */
  function ParseLegacy(b: LegacyBody, isEmail: string -> bool): (r: Result<LegacyBody, seq<Issue>>)
    ensures r.Success? <==> isEmail(b.email) && |b.password| >= MIN_PASSWORD
    ensures r.Success? ==> r.value == b
    ensures r.Failure? ==> r.error != []
  {
    var issues := (if isEmail(b.email) then [] else [Issue("email", "Invalid email")]) +
                  (if |b.password| < MIN_PASSWORD then [Issue("password", "String must contain at least 6 character(s)")] else []);
    if issues == [] then Success(b) else Failure(issues)
  }

  datatype Reply =
    | Conflict            // 409 "User already exists"
    | Unprocessable(issues: seq<Issue>)   // 422, the issues as JSON
    | Ok(user: Entries)   // 200, the created user as JSON
    | ServerError         // 500, empty body

  function Status(r: Reply): int {
    match r
    case Conflict => 409
    case Unprocessable(_) => 422
    case Ok(_) => 200
    case ServerError => 500
  }

  function OptStr(v: Option<string>): Value {
    if v.Some? then Str(v.value) else Null
  }

  /** A user row as the JSON object Prisma returns. */
  function UserEntries(u: User): Entries {
    [("id", Str(u.id)), ("email", Str(u.email)), ("name", OptStr(u.name)),
     ("passwordHash", OptStr(u.passwordHash)), ("role", Str(u.role)),
     ("selectedClass", OptStr(u.selectedClass)), ("selectedSubject", OptStr(u.selectedSubject)),
     ("createdAt", Num(u.createdAt)), ("lastLoginAt", if u.lastLoginAt.Some? then Num(u.lastLoginAt.value) else Null)]
  }

  /** `const { passwordHash: _, ...result } = user`. */
  function WithoutHash(u: User): Entries {
    Omit(UserEntries(u), {"passwordHash"})
  }

  /** What the route answers and which user it inserts. */
  datatype Plan = Plan(reply: Reply, inserted: Option<User>)

  function Inserted(p: Plan): seq<User> {
    if p.inserted.Some? then [p.inserted.value] else []
  }

  /** `body` is `None` when the request is not JSON; that error is not a
      validation error and ends in 500. */
  function PlanLegacy(users: seq<User>, body: Option<LegacyBody>, isEmail: string -> bool, hash: string -> string,
                      id: string, role: string, now: int, insertFails: bool): Plan
  {
    if body.None? then Plan(ServerError, None)
    else match ParseLegacy(body.value, isEmail)
      case Failure(issues) => Plan(Unprocessable(issues), None)
      case Success(b) => PlanInsert(users, b, hash, id, role, now, insertFails)
  }

  function PlanInsert(users: seq<User>, b: LegacyBody, hash: string -> string, id: string, role: string,
                      now: int, insertFails: bool): Plan
  {
    if UserByEmail(users, b.email).Some? then Plan(Conflict, None)
    else if insertFails then Plan(ServerError, None)
    else
      var u := NewUser(id, b.email, b.name, hash(b.password), role, now);
      Plan(Ok(WithoutHash(u)), Some(u))
  }

  /** `POST(req)`. */
  method Post(db: Db, body: Option<LegacyBody>, isEmail: string -> bool, hash: string -> string,
              id: string, now: int, insertFails: bool)
    returns (r: Reply)
    requires db.Valid() && Fresh(db.users, UserId, id)
    modifies db`users
    ensures db.Valid()
    ensures var plan := PlanLegacy(old(db.users), body, isEmail, hash, id, db.defaultRole, now, insertFails);
      r == plan.reply && db.users == old(db.users) + Inserted(plan)
  {
    if body.None? {
      return ServerError;
    }
    var parsed := ParseLegacy(body.value, isEmail);
    if parsed.Failure? {
      return Unprocessable(parsed.error);
    }
    r := CreateUser(db, parsed.value, hash, id, now, insertFails);
  }

  method CreateUser(db: Db, b: LegacyBody, hash: string -> string, id: string, now: int, insertFails: bool)
    returns (r: Reply)
    requires db.Valid() && Fresh(db.users, UserId, id)
    modifies db`users
    ensures db.Valid()
    ensures var plan := PlanInsert(old(db.users), b, hash, id, db.defaultRole, now, insertFails);
      r == plan.reply && db.users == old(db.users) + Inserted(plan)
  {
    if UserByEmail(db.users, b.email).Some? {
      return Conflict;
    }
    if insertFails {
      return ServerError;
    }
    var user := NewUser(id, b.email, b.name, hash(b.password), db.defaultRole, now);
    IdsValidAppend(db.users, UserId, user);
    InsertAfterLookup(db.users, user);
    db.users := db.users + [user];
    r := Ok(WithoutHash(user));
  }

  /** A user is inserted exactly when the route answers 200; the stored
      email is the submitted string itself, not normalised, and no earlier
      user had exactly that string; emails stay unique. */
  lemma LegacyInsertsOnSuccess(users: seq<User>, body: Option<LegacyBody>, isEmail: string -> bool,
                               hash: string -> string, id: string, role: string, now: int, insertFails: bool)
    ensures var p := PlanLegacy(users, body, isEmail, hash, id, role, now, insertFails);
      (p.inserted.Some? <==> p.reply.Ok?) &&
      (p.inserted.Some? ==>
        p.inserted.value.email == body.value.email && UserByEmail(users, body.value.email).None? &&
        p.inserted.value.passwordHash == Some(hash(body.value.password)) &&
        |body.value.password| >= MIN_PASSWORD && isEmail(body.value.email) &&
        (EmailsUnique(users) ==> EmailsUnique(users + [p.inserted.value])))
  {
    var p := PlanLegacy(users, body, isEmail, hash, id, role, now, insertFails);
    if p.inserted.Some? {
      InsertAfterLookup(users, p.inserted.value);
    }
  }

  /** The reply never carries the hash, and carries every other column
      unchanged. */
  lemma ReplyHidesHash(u: User, k: string)
    ensures Lookup(WithoutHash(u), k) == if k == "passwordHash" then None else Lookup(UserEntries(u), k)
  {
    LookupOmit(UserEntries(u), {"passwordHash"}, k);
  }

  /** The reply is what `sanitizeUserData` makes of the row, since a user
      row has no `password` column. */
  lemma ReplyIsSanitized(u: User)
    ensures WithoutHash(u) == SanitizeUserData(UserEntries(u))
  {
    var e := UserEntries(u);
    assert forall i :: 0 <= i < |e| ==> e[i].0 != "password";
    OmitAgree(e, {"passwordHash"}, SECRET_FIELDS);
  }

  /** The local schema is weaker than the registration schema: a
      six-letter lower-case password passes here but not there. */
  lemma WeakerThanRegisterSchema(email: string, isEmail: string -> bool)
    requires isEmail(email)
    ensures ParseLegacy(LegacyBody(email, "abcdef", None), isEmail).Success?
    ensures ParseRegister(RegisterInput(None, email, "abcdef", "abcdef"), isEmail).Failure?
  {
    RegisterAcceptsExactly(RegisterInput(None, email, "abcdef", "abcdef"), isEmail);
  }
}
