/** The NextAuth configuration: the start-up check of required environment
    variables, the credentials `authorize` step, and the `jwt` and
    `session` callbacks that carry the user's id and role into the token
    and the session. The environment is a map from variable names to
    values. */
module AuthConfig {
  import opened Wrappers
  import opened Seqs
  import opened Schema
  import opened Records
  import opened Security
  import opened AuthValidators
  import opened AuthService

  /** `process.env`: an unset variable is absent from the map. */
  type Env = map<string, string>

  /** A variable that is set to a non-empty value (JavaScript truthiness). */
  predicate Set(env: Env, name: string) {
    name in env && env[name] != ""
  }

  const AUTH_SECRET := "AUTH_SECRET"
  const NEXTAUTH_SECRET := "NEXTAUTH_SECRET"
  const DATABASE_URL := "DATABASE_URL"
  const MONGODB_URI := "MONGODB_URI"

  const REQUIRED_ENV_VARS := [AUTH_SECRET, NEXTAUTH_SECRET, DATABASE_URL, MONGODB_URI]

  /** The filter predicate of `missingVars`: unset, and its partner unset too. */
  predicate MissingVar(env: Env, name: string) {
    !Set(env, name) &&
    !(name == AUTH_SECRET && Set(env, NEXTAUTH_SECRET)) &&
    !(name == NEXTAUTH_SECRET && Set(env, AUTH_SECRET)) &&
    !(name == DATABASE_URL && Set(env, MONGODB_URI)) &&
    !(name == MONGODB_URI && Set(env, DATABASE_URL))
  }

  function MissingVars(env: Env): seq<string> {
    Filter(REQUIRED_ENV_VARS, (name: string) => MissingVar(env, name))
  }

  /** A variable is reported exactly when neither it nor its partner is
      set, so the two names of a pair are reported together or not at all. */
  lemma MissingVarsPairs(env: Env)
    ensures AUTH_SECRET in MissingVars(env) <==> !Set(env, AUTH_SECRET) && !Set(env, NEXTAUTH_SECRET)
    ensures NEXTAUTH_SECRET in MissingVars(env) <==> AUTH_SECRET in MissingVars(env)
    ensures DATABASE_URL in MissingVars(env) <==> !Set(env, DATABASE_URL) && !Set(env, MONGODB_URI)
    ensures MONGODB_URI in MissingVars(env) <==> DATABASE_URL in MissingVars(env)
    ensures forall name :: name in MissingVars(env) ==> name in REQUIRED_ENV_VARS
  {
    var r := REQUIRED_ENV_VARS;
    assert r[0] == AUTH_SECRET && r[1] == NEXTAUTH_SECRET && r[2] == DATABASE_URL && r[3] == MONGODB_URI;
  }

  /** `secret: AUTH_SECRET || NEXTAUTH_SECRET`. */
  function Secret(env: Env): Option<string> {
    if Set(env, AUTH_SECRET) then Some(env[AUTH_SECRET])
    else if Set(env, NEXTAUTH_SECRET) then Some(env[NEXTAUTH_SECRET])
    else None
  }

  /** The start-up check reports no secret exactly when NextAuth will have
      a secret to sign with. */
  lemma SecretReportedIffUnresolved(env: Env)
    ensures AUTH_SECRET !in MissingVars(env) <==> Secret(env).Some?
    ensures Secret(env).Some? ==> Secret(env).value != ""
  {
    MissingVarsPairs(env);
  }

  predicate Production(env: Env) {
    NODE_ENV in env && env[NODE_ENV] == "production"
  }

  const NODE_ENV := "NODE_ENV"

  /** The start-up error is logged only in production, and only with
      something to report. */
  function LogsMissing(env: Env): (r: bool)
    ensures r ==> Production(env) && exists name :: name in REQUIRED_ENV_VARS && MissingVar(env, name)
  {
    var missing := MissingVars(env);
    if |missing| > 0 && Production(env) then
      assert missing[0] in missing;
      true
    else false
  }

  /** `session.maxAge`: thirty days, in seconds. */
  const SESSION_MAX_AGE := 30 * 24 * 60 * 60

  const SESSION_COOKIE := "next-auth.session-token"
  const SECURE_PREFIX := "__Secure-"

  /** The session cookie's name. */
  function CookieName(env: Env): (r: string)
    ensures Production(env) <==> StartsWithSecure(r)
    ensures |r| >= |SESSION_COOKIE| && r[|r| - |SESSION_COOKIE|..] == SESSION_COOKIE
  {
    assert SESSION_COOKIE[0] == 'n' && SECURE_PREFIX[0] == '_';
    var r := if Production(env) then SECURE_PREFIX + SESSION_COOKIE else SESSION_COOKIE;
    assert Production(env) ==> r[..|SECURE_PREFIX|] == SECURE_PREFIX && r[|SECURE_PREFIX|..] == SESSION_COOKIE;
    r
  }

  predicate StartsWithSecure(s: string) {
    |s| >= |SECURE_PREFIX| && s[..|SECURE_PREFIX|] == SECURE_PREFIX
  }

  /** The security events `authorize` logs. */
  const AUTH_VALIDATION_FAILED := "auth_validation_failed"
  const AUTH_FAILED := "auth_failed"
  const AUTH_SUCCESS := "auth_success"
  const AUTH_ERROR := "auth_error"

  /** One `logSecurityEvent(event, details)` call. */
  datatype Event = Event(name: string, details: Entries)

  /** What a failing `validateCredentials` throws: an `Error`, or any
      other value. */
  datatype Thrown = ThrownError(message: string) | ThrownValue

  /** The logged text of a caught value: an `Error`'s message, otherwise
      "Unknown error". */
  function ErrorText(e: Thrown): (t: string)
    ensures e.ThrownError? ==> t == e.message
    ensures e.ThrownValue? ==> t == "Unknown error"
  {
    match e
    case ThrownError(message) => message
    case ThrownValue => "Unknown error"
  }

  /** The credentials provider's `authorize(credentials)`. The credentials
      may be missing; `storeError` stands for a database error inside
      `validateCredentials`, which is caught, logged and turned into `null`. */
  method Authorize(db: Db, credentials: Option<LoginInput>, isEmail: string -> bool,
                   compare: (string, string) -> bool, storeError: Option<Thrown>, now: int)
    returns (r: Option<PublicUser>, logged: Event)
    requires db.Valid()
    modifies db`users
    ensures db.Valid()
    ensures credentials.None? || ParseLogin(credentials.value, isEmail).Failure? ==>
      r.None? && logged.name == AUTH_VALIDATION_FAILED && unchanged(db)
    ensures credentials.Some? && ParseLogin(credentials.value, isEmail).Success? ==>
      var input := ParseLogin(credentials.value, isEmail).value;
      if storeError.Some? then
        r.None? && logged == Event(AUTH_ERROR, [("error", Str(ErrorText(storeError.value)))]) && unchanged(db)
      else
        r == Authenticate(old(db.users), input, compare) &&
        (r.None? ==> logged == Event(AUTH_FAILED, [("email", Str(input.email)), ("reason", Str("invalid_credentials"))]) &&
                     unchanged(db)) &&
        (r.Some? ==> logged == Event(AUTH_SUCCESS, [("userId", Str(r.value.id)), ("email", Str(r.value.email))]) &&
                     db.users == TouchLogin(old(db.users), r.value.id, now))
  {
    if credentials.None? {
      return None, Event(AUTH_VALIDATION_FAILED, [("errors", NonString("fieldErrors"))]);
    }
    var parsed := ParseLogin(credentials.value, isEmail);
    if parsed.Failure? {
      return None, Event(AUTH_VALIDATION_FAILED, [("errors", NonString("fieldErrors"))]);
    }
    if storeError.Some? {
      return None, Event(AUTH_ERROR, [("error", Str(ErrorText(storeError.value)))]);
    }
    var user := ValidateCredentials(db, parsed.value, compare, now);
    if user.None? {
      return None, Event(AUTH_FAILED, [("email", Str(parsed.value.email)), ("reason", Str("invalid_credentials"))]);
    }
    r := user;
    logged := Event(AUTH_SUCCESS, [("userId", Str(user.value.id)), ("email", Str(user.value.email))]);
  }

  /** The email of a failed or successful login reaches the log only in
      its masked form. */
  lemma AuthorizeLogsMaskedEmail(email: string, userId: string, timestamp: string, env: Value)
    ensures var failed := [("email", Str(email)), ("reason", Str("invalid_credentials"))];
      Lookup(SecurityRecord(AUTH_FAILED, timestamp, env, failed), "email") == Some(Str(SanitizeEmail(email)))
    ensures var succeeded := [("userId", Str(userId)), ("email", Str(email))];
      Lookup(SecurityRecord(AUTH_SUCCESS, timestamp, env, succeeded), "email") == Some(Str(SanitizeEmail(email)))
  {
    var failed := [("email", Str(email)), ("reason", Str("invalid_credentials"))];
    assert Lookup(failed, "email") == Some(Str(email));
    SecurityRecordRedacts(AUTH_FAILED, timestamp, env, failed, "email", Str(email));
    var succeeded := [("userId", Str(userId)), ("email", Str(email))];
    assert Lookup(succeeded, "email") == Some(Str(email));
    SecurityRecordRedacts(AUTH_SUCCESS, timestamp, env, succeeded, "email", Str(email));
  }

  /** The JWT's claims this application sets. */
  class Token {
    var id: Option<string>
    var role: Option<string>

    constructor(id: Option<string>, role: Option<string>)
      ensures this.id == id && this.role == role
    {
      this.id := id;
      this.role := role;
    }
  }

  class SessionUser {
    var id: Option<string>
    var role: Option<string>

    constructor()
      ensures id.None? && role.None?
    {
      id := None;
      role := None;
    }
  }

  class Session {
    var user: SessionUser?

    constructor(user: SessionUser?)
      ensures this.user == user
    {
      this.user := user;
    }
  }

  /** The `jwt` callback: with a signed-in user, copy its id and role onto
      the token; otherwise leave the token as it is. */
  method JwtCallback(token: Token, user: Option<PublicUser>) returns (r: Token)
    modifies token
    ensures r == token
    ensures user.Some? ==> token.id == Some(user.value.id) && token.role == Some(user.value.role)
    ensures user.None? ==> unchanged(token)
  {
    if user.Some? {
      token.id := Some(user.value.id);
      token.role := Some(user.value.role);
    }
    r := token;
  }

  /** The `session` callback: with both a token and a session user, copy
      the token's id and role onto the session user. */
  method SessionCallback(session: Session, token: Token?) returns (r: Session)
    modifies session.user
    ensures r == session && session.user == old(session.user)
    ensures token != null && session.user != null ==>
      session.user.id == token.id && session.user.role == token.role
    ensures token == null && session.user != null ==> unchanged(session.user)
  {
    if token != null && session.user != null {
      session.user.id := token.id;
      session.user.role := token.role;
    }
    r := session;
  }

  /** A sign-in followed by a session read hands the session exactly the
      signed-in user's id and role. */
  method SignInThenRead(user: PublicUser, token: Token, session: Session) returns (r: Session)
    requires session.user != null
    modifies token, session.user
    ensures r.user != null && r.user.id == Some(user.id) && r.user.role == Some(user.role)
  {
    var t := JwtCallback(token, Some(user));
    r := SessionCallback(session, t);
  }
}
