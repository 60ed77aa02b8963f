/** The sign-up route `POST /api/auth/register`: rate limit by client
    address, validate against `registerSchema`, refuse a taken email, then
    insert the user. Every request passes the limiter first, so every
    request consumes quota. Password hashing is a parameter; an unreadable
    body and a failing insert are inputs standing for the errors the
    route catches. */
module RegisterRoute {
  import opened Wrappers
  import opened Schema
  import opened AuthValidators
  import opened AuthService
  import opened Limiter

  /** The JSON body and status of a reply. */
  datatype Reply = Reply(status: int, ok: bool, code: string, message: string, issues: seq<Issue>)

  const TOO_MANY_REQUESTS := Reply(429, false, "TOO_MANY_REQUESTS", "Too many requests. Please try again later.", [])
  const EMAIL_EXISTS := Reply(409, false, "EMAIL_EXISTS", "Email is already registered", [])
  const CREATED := Reply(201, true, "", "Account created successfully", [])
  const INTERNAL_ERROR := Reply(500, false, "INTERNAL_ERROR", "Something went wrong", [])

  function InvalidInput(issues: seq<Issue>): Reply {
    Reply(400, false, "VALIDATION_ERROR", "Invalid input data", issues)
  }

  /** `x-forwarded-for`, or "unknown" when it is missing or empty. */
  function ClientIp(forwardedFor: Option<string>): string {
    if Truthy(forwardedFor) then forwardedFor.value else "unknown"
  }

  /** What the route answers and which user, if any, it inserts. */
  datatype Plan = Plan(reply: Reply, inserted: Option<User>)

  function Inserted(p: Plan): seq<User> {
    if p.inserted.Some? then [p.inserted.value] else []
  }

  /** The route after the limiter has decided: `allowed` is its verdict. */
  function PlanRegister(users: seq<User>, allowed: bool, body: Option<RegisterInput>, isEmail: string -> bool,
                        hash: string -> string, id: string, role: string, now: int, insertFails: bool): Plan
  {
    if !allowed then Plan(TOO_MANY_REQUESTS, None)
    else if body.None? then Plan(INTERNAL_ERROR, None)
    else match ParseRegister(body.value, isEmail)
      case Failure(issues) => Plan(InvalidInput(issues), None)
      case Success(d) => PlanInsert(users, d, hash, id, role, now, insertFails)
  }

  /** The route once the input is valid: the duplicate check, then the insert. */
  function PlanInsert(users: seq<User>, d: RegisterInput, hash: string -> string, id: string, role: string,
                      now: int, insertFails: bool): Plan
  {
    if UserByEmail(users, d.email).Some? then Plan(EMAIL_EXISTS, None)
    else if insertFails then Plan(INTERNAL_ERROR, None)
    else Plan(CREATED, Some(NewUser(id, d.email, d.name, hash(d.password), role, now)))
  }

  /** `POST(req)`. */
  method Post(db: Db, limiter: RateLimiter, forwardedFor: Option<string>, body: Option<RegisterInput>,
              isEmail: string -> bool, hash: string -> string, id: string, now: int, insertFails: bool)
    returns (r: Reply)
    requires db.Valid() && Fresh(db.users, UserId, id)
    modifies db`users, limiter
    ensures db.Valid()
    ensures var (verdict, trackers) := Check(old(limiter.trackers), ClientIp(forwardedFor), DEFAULT_LIMIT, DEFAULT_WINDOW_MS, now);
      limiter.trackers == trackers &&
      var plan := PlanRegister(old(db.users), verdict.success, body, isEmail, hash, id, db.defaultRole, now, insertFails);
      r == plan.reply && db.users == old(db.users) + Inserted(plan)
  {
    var verdict := limiter.RateLimit(ClientIp(forwardedFor), now);
    r := AfterLimit(db, verdict.success, body, isEmail, hash, id, now, insertFails);
  }

  /** The route once the limiter has answered. */
  method AfterLimit(db: Db, allowed: bool, body: Option<RegisterInput>,
                    isEmail: string -> bool, hash: string -> string, id: string, now: int, insertFails: bool)
    returns (r: Reply)
    requires db.Valid() && Fresh(db.users, UserId, id)
    modifies db`users
    ensures db.Valid()
    ensures var plan := PlanRegister(old(db.users), allowed, body, isEmail, hash, id, db.defaultRole, now, insertFails);
      r == plan.reply && db.users == old(db.users) + Inserted(plan)
  {
    if !allowed {
      return TOO_MANY_REQUESTS;
    }
    if body.None? {
      return INTERNAL_ERROR;
    }
    var result := ParseRegister(body.value, isEmail);
    if result.Failure? {
      return InvalidInput(result.error);
    }
    r := CreateUser(db, result.value, hash, id, now, insertFails);
  }

  /** The duplicate check and the insert. */
  method CreateUser(db: Db, d: RegisterInput, hash: string -> string, id: string, now: int, insertFails: bool)
    returns (r: Reply)
    requires db.Valid() && Fresh(db.users, UserId, id)
    modifies db`users
    ensures db.Valid()
    ensures var plan := PlanInsert(old(db.users), d, hash, id, db.defaultRole, now, insertFails);
      r == plan.reply && db.users == old(db.users) + Inserted(plan)
  {
    if UserByEmail(db.users, d.email).Some? {
      return EMAIL_EXISTS;
    }
    if insertFails {
      return INTERNAL_ERROR;
    }
    var user := NewUser(id, d.email, d.name, hash(d.password), db.defaultRole, now);
    IdsValidAppend(db.users, UserId, user);
    InsertAfterLookup(db.users, user);
    db.users := db.users + [user];
    r := CREATED;
  }

  /** The checks run in a fixed order and the route inserts a user exactly
      when it answers 201: a refused rate limit comes first, then the
      schema, then the email lookup. */
  lemma RegisterOutcomes(users: seq<User>, allowed: bool, body: Option<RegisterInput>, isEmail: string -> bool,
                         hash: string -> string, id: string, role: string, now: int, insertFails: bool)
    ensures var p := PlanRegister(users, allowed, body, isEmail, hash, id, role, now, insertFails);
      (p.inserted.Some? <==> p.reply == CREATED) &&
      (!allowed ==> p == Plan(TOO_MANY_REQUESTS, None)) &&
      (allowed && body.Some? && ParseRegister(body.value, isEmail).Failure? ==>
        p.reply.status == 400 && p.reply.issues == ParseRegister(body.value, isEmail).error && p.reply.issues != []) &&
      (allowed && body.Some? && ParseRegister(body.value, isEmail).Success? &&
       UserByEmail(users, ParseRegister(body.value, isEmail).value.email).Some? ==>
         p == Plan(EMAIL_EXISTS, None))
  {
  }

  /** A user is inserted only for input that meets every registration
      rule, under the normalised email no user had before, with the hash
      of the submitted password; emails stay unique. */
  lemma RegisterInsertsOnlyValid(users: seq<User>, allowed: bool, body: Option<RegisterInput>, isEmail: string -> bool,
                                 hash: string -> string, id: string, role: string, now: int, insertFails: bool)
    requires PlanRegister(users, allowed, body, isEmail, hash, id, role, now, insertFails).inserted.Some?
    ensures var u := PlanRegister(users, allowed, body, isEmail, hash, id, role, now, insertFails).inserted.value;
      var b := body.value;
      allowed && !insertFails &&
      8 <= |b.password| <= 128 && StrengthPattern(b.password) && b.password == b.confirmPassword &&
      u.email == ParseEmail(b.email, isEmail).value && UserByEmail(users, u.email).None? &&
      u.passwordHash == Some(hash(b.password)) && u.id == id && u.role == role
    ensures var u := PlanRegister(users, allowed, body, isEmail, hash, id, role, now, insertFails).inserted.value;
      EmailsUnique(users) ==> EmailsUnique(users + [u])
  {
    var b := body.value;
    var parsed := ParseRegister(b, isEmail);
    assert parsed.Success?;
    var d := parsed.value;
    assert PlanRegister(users, allowed, body, isEmail, hash, id, role, now, insertFails)
        == PlanInsert(users, d, hash, id, role, now, insertFails);
    RegisterAcceptsExactly(b, isEmail);
    RegisterNormalises(b, isEmail);
    var u := NewUser(id, d.email, d.name, hash(d.password), role, now);
    InsertAfterLookup(users, u);
  }
}
