/** The admin-creation route `POST /api/admin/create-admin`: the caller
    must be signed in and have an `Admin` record; the body must pass
    `registerSchema`; the email must be free. Then a user with role ADMIN
    and its `Admin` record are inserted by two separate writes. The
    caller's id, the body, hashing and the two write failures are inputs. */
module CreateAdminRoute {
  import opened Wrappers
  import opened Schema
  import opened AuthValidators
  import opened AuthService

  /** The user fields the 201 reply exposes. */
  datatype CreatedUser = CreatedUser(id: string, email: string, name: Option<string>)

  /** The JSON body and status of a reply. */
  datatype Reply = Reply(status: int, ok: bool, code: string, issues: seq<Issue>, user: Option<CreatedUser>)

  const UNAUTHORIZED := Reply(401, false, "UNAUTHORIZED", [], None)
  const FORBIDDEN := Reply(403, false, "FORBIDDEN", [], None)
  const EMAIL_EXISTS := Reply(409, false, "EMAIL_EXISTS", [], None)
  const INTERNAL_ERROR := Reply(500, false, "INTERNAL_ERROR", [], None)

  function InvalidInput(issues: seq<Issue>): Reply {
    Reply(400, false, "VALIDATION_ERROR", issues, None)
  }

  function Created(u: User): Reply {
    Reply(201, true, "", [], Some(CreatedUser(u.id, u.email, u.name)))
  }

  const ADMIN_ROLE := "ADMIN"
  const ADMIN_RECORD_ROLE := "admin"

  /** `admin.findUnique({ where: { userId } })`. */
  function AdminByUser(admins: seq<Admin>, userId: string): Option<Admin> {
    FindFirst(admins, (a: Admin) => a.userId == userId)
  }

  /** What the route answers and the user and admin rows it inserts. */
  datatype Plan = Plan(reply: Reply, user: Option<User>, admin: Option<Admin>)

  function UsersAdded(p: Plan): seq<User> {
    if p.user.Some? then [p.user.value] else []
  }

  function AdminsAdded(p: Plan): seq<Admin> {
    if p.admin.Some? then [p.admin.value] else []
  }

  /** `caller` is the session's user id; `body` is `None` when the request
      is not JSON, which ends in the catch-all 500. */
  function PlanCreateAdmin(users: seq<User>, admins: seq<Admin>, caller: Option<string>, body: Option<RegisterInput>,
                           isEmail: string -> bool, hash: string -> string, userId: string, adminId: string, now: int,
                           userInsertFails: bool, adminInsertFails: bool): Plan
  {
    if !Truthy(caller) then Plan(UNAUTHORIZED, None, None)
    else if AdminByUser(admins, caller.value).None? then Plan(FORBIDDEN, None, None)
    else if body.None? then Plan(INTERNAL_ERROR, None, None)
    else match ParseRegister(body.value, isEmail)
      case Failure(issues) => Plan(InvalidInput(issues), None, None)
      case Success(d) => PlanInsert(users, d, hash, userId, adminId, now, userInsertFails, adminInsertFails)
  }

  /** The duplicate check and the two inserts. */
  function PlanInsert(users: seq<User>, d: RegisterInput, hash: string -> string, userId: string, adminId: string,
                      now: int, userInsertFails: bool, adminInsertFails: bool): Plan
  {
    if UserByEmail(users, d.email).Some? then Plan(EMAIL_EXISTS, None, None)
    else if userInsertFails then Plan(INTERNAL_ERROR, None, None)
    else
      var u := NewUser(userId, d.email, d.name, hash(d.password), ADMIN_ROLE, now);
      if adminInsertFails then Plan(INTERNAL_ERROR, Some(u), None)
      else Plan(Created(u), Some(u), Some(Admin(adminId, userId, ADMIN_RECORD_ROLE)))
  }

  /** `POST(req)`. */
  method Post(db: Db, caller: Option<string>, body: Option<RegisterInput>, isEmail: string -> bool,
              hash: string -> string, userId: string, adminId: string, now: int,
              userInsertFails: bool, adminInsertFails: bool)
    returns (r: Reply)
    requires db.Valid() && Fresh(db.users, UserId, userId) && Fresh(db.admins, AdminId, adminId)
    modifies db`users, db`admins
    ensures db.Valid()
    ensures var plan := PlanCreateAdmin(old(db.users), old(db.admins), caller, body, isEmail, hash, userId, adminId,
                                        now, userInsertFails, adminInsertFails);
      r == plan.reply && db.users == old(db.users) + UsersAdded(plan) && db.admins == old(db.admins) + AdminsAdded(plan)
  {
    if !Truthy(caller) {
      return UNAUTHORIZED;
    }
    var adminRecord := AdminByUser(db.admins, caller.value);
    if adminRecord.None? {
      return FORBIDDEN;
    }
    if body.None? {
      return INTERNAL_ERROR;
    }
    var result := ParseRegister(body.value, isEmail);
    if result.Failure? {
      return InvalidInput(result.error);
    }
    r := CreateAdmin(db, result.value, hash, userId, adminId, now, userInsertFails, adminInsertFails);
  }

  /** Steps 4 to 8: the duplicate check, the user insert, the admin insert. */
  method CreateAdmin(db: Db, d: RegisterInput, hash: string -> string, userId: string, adminId: string, now: int,
                     userInsertFails: bool, adminInsertFails: bool)
    returns (r: Reply)
    requires db.Valid() && Fresh(db.users, UserId, userId) && Fresh(db.admins, AdminId, adminId)
    modifies db`users, db`admins
    ensures db.Valid()
    ensures var plan := PlanInsert(old(db.users), d, hash, userId, adminId, now, userInsertFails, adminInsertFails);
      r == plan.reply && db.users == old(db.users) + UsersAdded(plan) && db.admins == old(db.admins) + AdminsAdded(plan)
  {
    if UserByEmail(db.users, d.email).Some? {
      return EMAIL_EXISTS;
    }
    if userInsertFails {
      return INTERNAL_ERROR;
    }
    var newUser := NewUser(userId, d.email, d.name, hash(d.password), ADMIN_ROLE, now);
    IdsValidAppend(db.users, UserId, newUser);
    InsertAfterLookup(db.users, newUser);
    db.users := db.users + [newUser];
    if adminInsertFails {
      return INTERNAL_ERROR;
    }
    var record := Admin(adminId, newUser.id, ADMIN_RECORD_ROLE);
    IdsValidAppend(db.admins, AdminId, record);
    db.admins := db.admins + [record];
    r := Created(newUser);
  }

  /** The guards run in the order 401, 403, 400, 409, and each refusal
      writes nothing. The 403 depends only on the admin table, not on the
      caller's user role. */
  lemma CreateAdminGuards(users: seq<User>, admins: seq<Admin>, caller: Option<string>, body: Option<RegisterInput>,
                          isEmail: string -> bool, hash: string -> string, userId: string, adminId: string, now: int,
                          userInsertFails: bool, adminInsertFails: bool)
    ensures var p := PlanCreateAdmin(users, admins, caller, body, isEmail, hash, userId, adminId, now,
                                     userInsertFails, adminInsertFails);
      (!Truthy(caller) ==> p == Plan(UNAUTHORIZED, None, None)) &&
      (Truthy(caller) && (forall a :: a in admins ==> a.userId != caller.value) ==> p == Plan(FORBIDDEN, None, None)) &&
      (Truthy(caller) && AdminByUser(admins, caller.value).Some? && body.Some? &&
       ParseRegister(body.value, isEmail).Failure? ==>
         p.reply.status == 400 && p.reply.issues == ParseRegister(body.value, isEmail).error &&
         p.user.None? && p.admin.None?) &&
      (Truthy(caller) && AdminByUser(admins, caller.value).Some? && body.Some? &&
       ParseRegister(body.value, isEmail).Success? &&
       UserByEmail(users, ParseRegister(body.value, isEmail).value.email).Some? ==>
         p == Plan(EMAIL_EXISTS, None, None))
  {
  }

  /** An admin record is written only together with its user, pointing at
      that user, and exactly when the route answers 201; the reply then
      carries only the new user's id, email and name. */
  lemma CreateAdminLinksRecord(users: seq<User>, admins: seq<Admin>, caller: Option<string>, body: Option<RegisterInput>,
                               isEmail: string -> bool, hash: string -> string, userId: string, adminId: string, now: int,
                               userInsertFails: bool, adminInsertFails: bool)
    ensures var p := PlanCreateAdmin(users, admins, caller, body, isEmail, hash, userId, adminId, now,
                                     userInsertFails, adminInsertFails);
      (p.admin.Some? <==> p.reply.status == 201) &&
      (p.admin.Some? ==> p.user.Some? && p.admin.value.userId == p.user.value.id && p.admin.value.role == ADMIN_RECORD_ROLE &&
                         p.reply.user == Some(CreatedUser(p.user.value.id, p.user.value.email, p.user.value.name)))
  {
    var p := PlanCreateAdmin(users, admins, caller, body, isEmail, hash, userId, adminId, now,
                             userInsertFails, adminInsertFails);
    if Truthy(caller) && AdminByUser(admins, caller.value).Some? && body.Some? && ParseRegister(body.value, isEmail).Success? {
      var d := ParseRegister(body.value, isEmail).value;
      assert p == PlanInsert(users, d, hash, userId, adminId, now, userInsertFails, adminInsertFails);
      PlanInsertLinks(users, d, hash, userId, adminId, now, userInsertFails, adminInsertFails);
    } else {
      assert p.admin.None? && p.reply.status != 201;
    }
  }

  /** The two inserts: the admin record follows its user, and only then is
      the answer 201. */
  lemma PlanInsertLinks(users: seq<User>, d: RegisterInput, hash: string -> string, userId: string, adminId: string,
                        now: int, userInsertFails: bool, adminInsertFails: bool)
    ensures var p := PlanInsert(users, d, hash, userId, adminId, now, userInsertFails, adminInsertFails);
      (p.admin.Some? <==> p.reply.status == 201) &&
      (p.admin.Some? ==> p.user.Some? && p.admin.value.userId == p.user.value.id && p.admin.value.role == ADMIN_RECORD_ROLE &&
                         p.reply.user == Some(CreatedUser(p.user.value.id, p.user.value.email, p.user.value.name)))
  {
    var p := PlanInsert(users, d, hash, userId, adminId, now, userInsertFails, adminInsertFails);
    if p.admin.Some? {
      assert p.user.value == NewUser(userId, d.email, d.name, hash(d.password), ADMIN_ROLE, now);
    }
  }

  /** A user is inserted only for a signed-in admin caller and input that
      meets every registration rule; it has role ADMIN, the normalised email
      no user had, and the hash of the submitted password; emails stay
      unique. */
  lemma CreateAdminInsertsOnlyValid(users: seq<User>, admins: seq<Admin>, caller: Option<string>, body: Option<RegisterInput>,
                                    isEmail: string -> bool, hash: string -> string, userId: string, adminId: string, now: int,
                                    userInsertFails: bool, adminInsertFails: bool)
    requires PlanCreateAdmin(users, admins, caller, body, isEmail, hash, userId, adminId, now,
                             userInsertFails, adminInsertFails).user.Some?
    ensures var u := PlanCreateAdmin(users, admins, caller, body, isEmail, hash, userId, adminId, now,
                                     userInsertFails, adminInsertFails).user.value;
      Truthy(caller) && AdminByUser(admins, caller.value).Some? && !userInsertFails &&
      ParseRegister(body.value, isEmail).Success? &&
      u.role == ADMIN_ROLE && u.id == userId && u.email == ParseEmail(body.value.email, isEmail).value &&
      u.passwordHash == Some(hash(body.value.password)) && UserByEmail(users, u.email).None?
    ensures var u := PlanCreateAdmin(users, admins, caller, body, isEmail, hash, userId, adminId, now,
                                     userInsertFails, adminInsertFails).user.value;
      EmailsUnique(users) ==> EmailsUnique(users + [u])
  {
    PlanCreateAdminGuarded(users, admins, caller, body, isEmail, hash, userId, adminId, now,
                           userInsertFails, adminInsertFails);
    var d := ParseRegister(body.value, isEmail).value;
    assert PlanCreateAdmin(users, admins, caller, body, isEmail, hash, userId, adminId, now, userInsertFails, adminInsertFails)
        == PlanInsert(users, d, hash, userId, adminId, now, userInsertFails, adminInsertFails);
    RegisterNormalises(body.value, isEmail);
    PlanInsertUser(users, d, hash, userId, adminId, now, userInsertFails, adminInsertFails);
  }

  /** Only a plan past every guard holds a user. */
  lemma PlanCreateAdminGuarded(users: seq<User>, admins: seq<Admin>, caller: Option<string>, body: Option<RegisterInput>,
                               isEmail: string -> bool, hash: string -> string, userId: string, adminId: string, now: int,
                               userInsertFails: bool, adminInsertFails: bool)
    ensures PlanCreateAdmin(users, admins, caller, body, isEmail, hash, userId, adminId, now,
                            userInsertFails, adminInsertFails).user.Some? ==>
      Truthy(caller) && AdminByUser(admins, caller.value).Some? && body.Some? &&
      ParseRegister(body.value, isEmail).Success?
  {
    if Truthy(caller) && AdminByUser(admins, caller.value).Some? && body.Some? {
      var parsed := ParseRegister(body.value, isEmail);
      if parsed.Failure? {
        assert PlanCreateAdmin(users, admins, caller, body, isEmail, hash, userId, adminId, now,
                               userInsertFails, adminInsertFails) == Plan(InvalidInput(parsed.error), None, None);
      }
    }
  }

  /** A user is inserted only when no user has the email and the insert
      succeeds; it is the ADMIN user built from the input, and emails stay
      unique. */
  lemma PlanInsertUser(users: seq<User>, d: RegisterInput, hash: string -> string, userId: string, adminId: string,
                       now: int, userInsertFails: bool, adminInsertFails: bool)
    requires PlanInsert(users, d, hash, userId, adminId, now, userInsertFails, adminInsertFails).user.Some?
    ensures var u := PlanInsert(users, d, hash, userId, adminId, now, userInsertFails, adminInsertFails).user.value;
      !userInsertFails && UserByEmail(users, d.email).None? &&
      u == NewUser(userId, d.email, d.name, hash(d.password), ADMIN_ROLE, now) &&
      (EmailsUnique(users) ==> EmailsUnique(users + [u]))
  {
    InsertAfterLookup(users, NewUser(userId, d.email, d.name, hash(d.password), ADMIN_ROLE, now));
  }

  /** The two inserts are separate writes: when the second one fails the
      route answers 500 but the ADMIN user stays, with no admin record. */
  lemma HalfCreatedAdmin(users: seq<User>, d: RegisterInput, hash: string -> string, userId: string, adminId: string,
                         now: int)
    requires UserByEmail(users, d.email).None?
    ensures var p := PlanInsert(users, d, hash, userId, adminId, now, false, true);
      p.reply == INTERNAL_ERROR && p.admin.None? && p.user.Some? && p.user.value.role == ADMIN_ROLE
  {
  }
}
