/** The authentication controller: `getModel`, `register`, `verifyEmail` and
    `login`.

    The three Mongo collections the controller writes to (User, Staff, Admin)
    are maps from email to document, since each has a unique email index and
    every query is by email; Departments are a map from `_id`. The store hands
    out fresh ObjectIds from a counter. The mailer is reduced to the log of
    its calls: the recipient, tag and token passed to each
    `sendVerificationEmail`.

    Each handler is given twice: as a pure function from the store and the
    request to the new store and the HTTP reply (`RegisterOutcome`,
    `VerifyEmailOutcome`, `LoginOutcome`), and as a method of `AuthService`
    that performs the same steps on its fields and is proved to agree with the
    function. The lemmas in module AuthProperties are about the functions. */
module AuthController {
  import opened Common
  import opened Crypto
  import UserModel
  import StaffModel
  import DepartmentModel

  // ---------------------------------------------------------------------
  // getModel

  /** The three Mongoose models `getModel` can return. */
  datatype Model = User | Staff | Admin

  function ModelName(m: Model): string
  {
    match m
    case User => "User"
    case Staff => "Staff"
    case Admin => "Admin"
  }

  /** `getModel(userType)`: a model exactly for the case-sensitive tags
      "User", "Staff" and "Admin", and `null` for every other string. */
  function GetModel(userType: string): (r: Option<Model>)
    ensures forall m :: r == Some(m) <==> ModelName(m) == userType
    ensures r.None? <==> userType != "User" && userType != "Staff" && userType != "Admin"
  {
    if userType == "User" then Some(User)
    else if userType == "Staff" then Some(Staff)
    else if userType == "Admin" then Some(Admin)
    else None
  }

  // ---------------------------------------------------------------------
  // Requests and replies

  /** `req.body.department`; the controller reads only `name` and
      `description`. */
  datatype DepartmentInput = DepartmentInput(name: Option<string>, description: Option<string>)

  datatype RegisterRequest = RegisterRequest(
    email: string,
    username: string,
    password: string,
    name: string,
    phone: Option<string>,
    userType: string,
    department: Option<DepartmentInput>)

  datatype LoginRequest = LoginRequest(email: string, password: string, userType: string)

  /** The HTTP status and the JSON body's message; `token` and `userType`
      are set only by a successful login. The `error` field some failure
      replies add is not modelled. */
  datatype Response = Response(status: nat, message: string, token: Option<Token>, userType: Option<string>)

  function Reply(status: nat, message: string): Response
  {
    Response(status, message, None, None)
  }

  const MsgInvalidType: string := "Invalid user type"
  const MsgUserExists: string := "User already exists"
  const MsgDepartmentRequired: string := "Department details are required for admin registration"
  const MsgRegisterError: string := "Error registering user"
  const MsgRegistered: string := "User registered. Verification email sent."
  const MsgBadToken: string := "Invalid or expired token"
  const MsgNotFound: string := "User not found"
  const MsgAlreadyVerified: string := "User already verified"
  const MsgVerified: string := "Email verified successfully"
  const MsgNotVerified: string := "User not verified. Please verify your email."
  const MsgBadCredentials: string := "Invalid credentials"
  const MsgLoggedIn: string := "Login successful"

  // ---------------------------------------------------------------------
  // The store

  /** One call of `sendVerificationEmail(email, userType, token)`: the
      recipient, tag and token passed to it. The mail it writes uses only the
      recipient. */
  datatype Mail = Mail(to: string, userType: string, token: Token)

  /** The token `register` signs: `{ email, userType }`, with no id. */
  function VerificationToken(email: string, userType: string): (t: Token)
    ensures Verify(t) == Some(Claims(None, email, userType))
  {
    Sign(Claims(None, email, userType))
  }

  datatype Store = Store(
    users: map<string, UserModel.UserRecord>,
    staff: map<string, StaffModel.StaffRecord>,
    admins: map<string, UserModel.UserRecord>,
    departments: map<ObjectId, DepartmentModel.DepartmentRecord>,
    nextId: ObjectId,
    sent: seq<Mail>)

  function EmptyStore(): (st: Store)
    ensures Inv(st) && st.sent == []
  {
    Store(map[], map[], map[], map[], 0, [])
  }

  /** The fields the handlers read from a document of any of the three
      models. */
  datatype Account = Account(id: ObjectId, email: string, password: Digest, is_verified: bool)

  /** `Model.findOne({ email })`. */
  function FindOne(st: Store, m: Model, email: string): (r: Option<Account>)
    ensures r.Some? <==> email in Emails(st, m)
    ensures m == User && email in st.users ==>
              var u := st.users[email]; r == Some(Account(u.id, u.email, u.password, u.is_verified))
    ensures m == Staff && email in st.staff ==>
              var u := st.staff[email]; r == Some(Account(u.id, u.email, u.password, u.is_verified))
    ensures m == Admin && email in st.admins ==>
              var u := st.admins[email]; r == Some(Account(u.id, u.email, u.password, u.is_verified))
  {
    match m
    case User =>
      if email in st.users then
        var u := st.users[email]; Some(Account(u.id, u.email, u.password, u.is_verified))
      else None
    case Staff =>
      if email in st.staff then
        var s := st.staff[email]; Some(Account(s.id, s.email, s.password, s.is_verified))
      else None
    case Admin =>
      if email in st.admins then
        var a := st.admins[email]; Some(Account(a.id, a.email, a.password, a.is_verified))
      else None
  }

  /** The emails registered in one model's collection. */
  function Emails(st: Store, m: Model): set<string>
  {
    match m
    case User => st.users.Keys
    case Staff => st.staff.Keys
    case Admin => st.admins.Keys
  }

  // ---------------------------------------------------------------------
  // register

  /** `!department || !department.name`. */
  predicate MissingDepartment(d: Option<DepartmentInput>): (missing: bool)
    ensures missing <==> d.None? || d.value.name.None? || d.value.name.value == ""
  {
    d.None? || !Truthy(d.value.name)
  }

  /** The Department an Admin registration creates: `description ||
      ""` and an explicit "Pending". */
  function AdminDepartment(d: DepartmentInput, id: ObjectId, adminId: ObjectId): (r: DepartmentModel.DepartmentRecord)
    requires Truthy(d.name)
    ensures r.id == id && r.name == d.name.value && r.name != ""
    ensures r.description == (if Truthy(d.description) then d.description.value else "")
    ensures r.admin_id == adminId && r.verification_status == Pending
  {
    DepartmentModel.NewDepartment(id, d.name.value, Some(OrElse(d.description, "")), adminId, Some(Pending))
  }

  /** The saves of `register`: the new document for model `m` (with id
      `nextId`) and, for an Admin, its Department (with the next id). The flag
      says whether every save went through; when the Department save throws
      after the Admin save, the Admin document stays. */
  function Persist(st: Store, m: Model, req: RegisterRequest): (out: (Store, bool))
    requires m == Admin ==> !MissingDepartment(req.department)
    ensures out.0.sent == st.sent
    ensures m != User ==> out.0.users == st.users
    ensures m != Staff ==> out.0.staff == st.staff
    ensures m != Admin ==> out.0.admins == st.admins && out.0.departments == st.departments
    ensures out.1 ==> out.0.nextId == st.nextId + (if m == Admin then 2 else 1)
    ensures !out.1 && m != Admin ==> out.0 == st
    ensures !out.1 && m == Admin ==> out.0.departments == st.departments
  {
    var id := st.nextId;
    var hashed := Hash(req.password);
    match m
    case User =>
      var saved := UserModel.Save(st.users, UserModel.NewUser(id, req.email, req.username, hashed, req.name, req.phone));
      if saved.None? then (st, false) else (st.(users := saved.value, nextId := id + 1), true)
    case Staff =>
      var saved := StaffModel.Save(st.staff, StaffModel.NewStaff(id, req.email, req.username, hashed, req.name, req.phone, None));
      if saved.None? then (st, false) else (st.(staff := saved.value, nextId := id + 1), true)
    case Admin =>
      var saved := UserModel.Save(st.admins, UserModel.NewUser(id, req.email, req.username, hashed, req.name, req.phone));
      if saved.None? then (st, false)
      else
        var st1 := st.(admins := saved.value, nextId := id + 1);
        var dept := DepartmentModel.Save(st1.departments, AdminDepartment(req.department.value, id + 1, id));
        if dept.None? then (st1, false) else (st1.(departments := dept.value, nextId := id + 2), true)
  }

  /** `register`. A 400 leaves the store as it was; only a 201 sends mail,
      and then exactly one message, to the registrant. */
  function RegisterOutcome(st: Store, req: RegisterRequest): (out: (Store, Response))
    ensures out.1 == Reply(out.1.status, out.1.message)
    ensures out.1.status == 201 || out.1.status == 400 || out.1.status == 500
    ensures out.1.status == 400 ==> out.0 == st
    ensures out.1.status == 201 ==> out.0.sent == st.sent + [Mail(req.email, req.userType, VerificationToken(req.email, req.userType))]
    ensures out.1.status != 201 ==> out.0.sent == st.sent
    ensures out.0.nextId >= st.nextId
  {
    match GetModel(req.userType)
    case None => (st, Reply(400, MsgInvalidType))
    case Some(m) =>
      if FindOne(st, m, req.email).Some? then (st, Reply(400, MsgUserExists))
      else if m == Admin && MissingDepartment(req.department) then (st, Reply(400, MsgDepartmentRequired))
      else
        var (st', ok) := Persist(st, m, req);
        if !ok then (st', Reply(500, MsgRegisterError))
        else (st'.(sent := st'.sent + [Mail(req.email, req.userType, VerificationToken(req.email, req.userType))]), Reply(201, MsgRegistered))
  }

  // ---------------------------------------------------------------------
  // verifyEmail

  /** `Department.findOneAndUpdate({ admin_id }, { verification_status:
      "Verified" })`, applied to every Department with that owner; the store
      invariant keeps exactly one. */
  function CascadeVerified(deps: map<ObjectId, DepartmentModel.DepartmentRecord>, adminId: ObjectId): (r: map<ObjectId, DepartmentModel.DepartmentRecord>)
    ensures r.Keys == deps.Keys
    ensures forall k :: k in r ==>
              && r[k].id == deps[k].id && r[k].name == deps[k].name && r[k].admin_id == deps[k].admin_id
              && r[k].description == deps[k].description
              && r[k].verification_status == (if deps[k].admin_id == adminId then Verified else deps[k].verification_status)
              && (deps[k].admin_id != adminId ==> r[k] == deps[k])
  {
    map k | k in deps :: if deps[k].admin_id == adminId then deps[k].(verification_status := Verified) else deps[k]
  }

  /** `user.is_verified = true; user.verification_status = "Verified";
      user.save()`, then the Department cascade for an Admin. */
  function MarkVerified(st: Store, m: Model, email: string): (st': Store)
    requires email in Emails(st, m)
    ensures st'.nextId == st.nextId && st'.sent == st.sent
    ensures Emails(st', m) == Emails(st, m)
    ensures FindOne(st', m, email) == Some(FindOne(st, m, email).value.(is_verified := true))
    ensures m != User ==> st'.users == st.users
    ensures m != Staff ==> st'.staff == st.staff
    ensures m != Admin ==> st'.admins == st.admins && st'.departments == st.departments
    ensures m == User ==> st'.users[email].verification_status == Verified
    ensures m == Staff ==> st'.staff[email].verification_status == Verified
    ensures m == Admin ==> st'.admins[email].verification_status == Verified
    // Nothing else about the document, and no other document, changes.
    ensures m == User ==>
              st'.users == st.users[email := st.users[email].(is_verified := true, verification_status := Verified)]
    ensures m == Staff ==>
              st'.staff == st.staff[email := st.staff[email].(is_verified := true, verification_status := Verified)]
    ensures m == Admin ==>
              && st'.admins == st.admins[email := st.admins[email].(is_verified := true, verification_status := Verified)]
              && st'.departments == CascadeVerified(st.departments, st.admins[email].id)
  {
    match m
    case User =>
      st.(users := st.users[email := st.users[email].(is_verified := true, verification_status := Verified)])
    case Staff =>
      st.(staff := st.staff[email := st.staff[email].(is_verified := true, verification_status := Verified)])
    case Admin =>
      st.(admins := st.admins[email := st.admins[email].(is_verified := true, verification_status := Verified)],
          departments := CascadeVerified(st.departments, st.admins[email].id))
  }

  /** `verifyEmail`. Every refusal leaves the store as it was; it never sends
      mail or hands out a token, and never allocates an id. */
  function VerifyEmailOutcome(st: Store, token: Token): (out: (Store, Response))
    ensures out.1 == Reply(out.1.status, out.1.message)
    ensures out.1.status == 200 || out.1.status == 400 || out.1.status == 404
    ensures out.1.status != 200 ==> out.0 == st
    ensures out.0.sent == st.sent && out.0.nextId == st.nextId
  {
    match Verify(token)
    case None => (st, Reply(400, MsgBadToken))
    case Some(c) =>
      match GetModel(c.userType)
      case None => (st, Reply(400, MsgInvalidType))
      case Some(m) =>
        match FindOne(st, m, c.email)
        case None => (st, Reply(404, MsgNotFound))
        case Some(a) =>
          if a.is_verified then (st, Reply(400, MsgAlreadyVerified))
          else (MarkVerified(st, m, c.email), Reply(200, MsgVerified))
  }

  // ---------------------------------------------------------------------
  // login

  /** `login`: it reads the store and never changes it. */
  function LoginOutcome(st: Store, req: LoginRequest): (r: Response)
    ensures r.status == 200 || r.status == 400 || r.status == 403
    ensures r.token.Some? <==> r.status == 200
    ensures r.status == 200 ==> r.userType == Some(req.userType)
  {
    match GetModel(req.userType)
    case None => Reply(400, MsgInvalidType)
    case Some(m) =>
      match FindOne(st, m, req.email)
      case None => Reply(400, MsgNotFound)
      case Some(a) =>
        if !a.is_verified then Reply(403, MsgNotVerified)
        else if !Compare(req.password, a.password) then Reply(400, MsgBadCredentials)
        else Response(200, MsgLoggedIn, Some(Sign(Claims(Some(a.id), a.email, req.userType))), Some(req.userType))
  }

  // ---------------------------------------------------------------------
  // The store invariant

  /** Every stored document's status follows its flag: "Verified" once
      verified, and still the default "Pending" before. */
  predicate Consistent(verified: bool, status: VerificationStatus)
  {
    status == if verified then Verified else Pending
  }

  ghost predicate UsersWellFormed(c: map<string, UserModel.UserRecord>, bound: ObjectId)
  {
    && UserModel.Unique(c)
    && forall e :: e in c ==>
         c[e].id < bound && UserModel.HasRequired(c[e]) && Consistent(c[e].is_verified, c[e].verification_status)
  }

  /** Staff documents also never carry a department or an approver: no
      handler sets either. */
  ghost predicate StaffWellFormed(c: map<string, StaffModel.StaffRecord>, bound: ObjectId)
  {
    && StaffModel.Unique(c)
    && forall e :: e in c ==>
         && c[e].id < bound && StaffModel.HasRequired(c[e]) && Consistent(c[e].is_verified, c[e].verification_status)
         && c[e].department_id.None? && c[e].verified_by.None?
  }

  ghost predicate DepartmentsWellFormed(d: map<ObjectId, DepartmentModel.DepartmentRecord>, bound: ObjectId)
  {
    forall k :: k in d ==> d[k].id == k && k < bound && d[k].name != ""
  }

  /** Every Department's `admin_id` is the id of a stored Admin. */
  ghost predicate OwnedByAdmin(admins: map<string, UserModel.UserRecord>, deps: map<ObjectId, DepartmentModel.DepartmentRecord>)
  {
    forall k :: k in deps ==> exists a :: a in admins && admins[a].id == deps[k].admin_id
  }

  /** Every Admin owns a Department ... */
  ghost predicate EveryAdminOwnsOne(admins: map<string, UserModel.UserRecord>, deps: map<ObjectId, DepartmentModel.DepartmentRecord>)
  {
    forall a :: a in admins ==> exists k :: k in deps && deps[k].admin_id == admins[a].id
  }

  /** ... and no two Departments have the same owner. */
  ghost predicate OwnersDistinct(deps: map<ObjectId, DepartmentModel.DepartmentRecord>)
  {
    forall k1, k2 :: k1 in deps && k2 in deps && k1 != k2 ==> deps[k1].admin_id != deps[k2].admin_id
  }

  /** A Department's status follows its Admin's verification. */
  ghost predicate DepartmentFollowsAdmin(admins: map<string, UserModel.UserRecord>, deps: map<ObjectId, DepartmentModel.DepartmentRecord>)
  {
    forall a, k :: a in admins && k in deps && deps[k].admin_id == admins[a].id ==>
      deps[k].verification_status == (if admins[a].is_verified then Verified else Pending)
  }

  ghost predicate Inv(st: Store)
  {
    && UsersWellFormed(st.users, st.nextId)
    && StaffWellFormed(st.staff, st.nextId)
    && UsersWellFormed(st.admins, st.nextId)
    && DepartmentsWellFormed(st.departments, st.nextId)
    && OwnedByAdmin(st.admins, st.departments)
    && EveryAdminOwnsOne(st.admins, st.departments)
    && OwnersDistinct(st.departments)
    && DepartmentFollowsAdmin(st.admins, st.departments)
  }

  // ---------------------------------------------------------------------
  // The handlers keep the invariant

  lemma UsersBoundGrows(c: map<string, UserModel.UserRecord>, bound: ObjectId, bound': ObjectId)
    requires UsersWellFormed(c, bound) && bound <= bound'
    ensures UsersWellFormed(c, bound')
  {
  }

  lemma StaffBoundGrows(c: map<string, StaffModel.StaffRecord>, bound: ObjectId, bound': ObjectId)
    requires StaffWellFormed(c, bound) && bound <= bound'
    ensures StaffWellFormed(c, bound')
  {
  }

  lemma DepartmentsBoundGrows(d: map<ObjectId, DepartmentModel.DepartmentRecord>, bound: ObjectId, bound': ObjectId)
    requires DepartmentsWellFormed(d, bound) && bound <= bound'
    ensures DepartmentsWellFormed(d, bound')
  {
  }

  /** Saving a fresh unverified document with the next id keeps a User (or
      Admin) collection well formed. */
  lemma UsersAfterSave(c: map<string, UserModel.UserRecord>, bound: ObjectId, r: UserModel.UserRecord)
    requires UsersWellFormed(c, bound) && UserModel.Save(c, r).Some?
    requires r.id == bound && !r.is_verified && r.verification_status == Pending
    ensures UsersWellFormed(c[r.email := r], bound + 1)
  {
  }

  lemma StaffAfterSave(c: map<string, StaffModel.StaffRecord>, bound: ObjectId, r: StaffModel.StaffRecord)
    requires StaffWellFormed(c, bound) && StaffModel.Save(c, r).Some?
    requires r.id == bound && !r.is_verified && r.verification_status == Pending
    requires r.department_id.None? && r.verified_by.None?
    ensures StaffWellFormed(c[r.email := r], bound + 1)
  {
  }

  /** Owners are stored Admins, so their ids lie below the bound. */
  lemma OwnerIdsBelow(admins: map<string, UserModel.UserRecord>, deps: map<ObjectId, DepartmentModel.DepartmentRecord>, bound: ObjectId)
    requires OwnedByAdmin(admins, deps)
    requires forall a :: a in admins ==> admins[a].id < bound
    ensures forall k :: k in deps ==> deps[k].admin_id < bound
  {
    forall k | k in deps
      ensures deps[k].admin_id < bound
    {
      var a :| a in admins && admins[a].id == deps[k].admin_id;
    }
  }

  /** Adding an Admin `r` and a Department `d` it owns keeps every
      Department owned. */
  lemma AddKeepsOwned(admins: map<string, UserModel.UserRecord>, deps: map<ObjectId, DepartmentModel.DepartmentRecord>,
                      r: UserModel.UserRecord, d: DepartmentModel.DepartmentRecord)
    requires OwnedByAdmin(admins, deps) && r.email !in admins && d.admin_id == r.id
    ensures OwnedByAdmin(admins[r.email := r], deps[d.id := d])
  {
    var admins', deps' := admins[r.email := r], deps[d.id := d];
    forall k | k in deps'
      ensures exists a :: a in admins' && admins'[a].id == deps'[k].admin_id
    {
      if k == d.id {
        assert admins'[r.email].id == deps'[k].admin_id;
      } else {
        var a :| a in admins && admins[a].id == deps[k].admin_id;
        assert admins'[a].id == deps'[k].admin_id;
      }
    }
  }

  /** ... keeps every Admin owning exactly one Department, when the new Admin's
      id is above every old one. */
  lemma AddKeepsOneEach(admins: map<string, UserModel.UserRecord>, deps: map<ObjectId, DepartmentModel.DepartmentRecord>,
                        r: UserModel.UserRecord, d: DepartmentModel.DepartmentRecord, bound: ObjectId)
    requires EveryAdminOwnsOne(admins, deps) && OwnersDistinct(deps)
    requires forall k :: k in deps ==> deps[k].admin_id < bound
    requires r.email !in admins && d.id !in deps && d.admin_id == r.id && r.id == bound
    ensures EveryAdminOwnsOne(admins[r.email := r], deps[d.id := d])
    ensures OwnersDistinct(deps[d.id := d])
  {
    var admins', deps' := admins[r.email := r], deps[d.id := d];
    forall a | a in admins'
      ensures exists k :: k in deps' && deps'[k].admin_id == admins'[a].id
    {
      if a == r.email {
        assert deps'[d.id].admin_id == admins'[a].id;
      } else {
        var k :| k in deps && deps[k].admin_id == admins[a].id;
        assert deps'[k].admin_id == admins'[a].id;
      }
    }
  }

  /** ... and keeps each Department's status in step with its Admin. */
  lemma AddKeepsFollows(admins: map<string, UserModel.UserRecord>, deps: map<ObjectId, DepartmentModel.DepartmentRecord>,
                        r: UserModel.UserRecord, d: DepartmentModel.DepartmentRecord, bound: ObjectId)
    requires DepartmentFollowsAdmin(admins, deps)
    requires forall a :: a in admins ==> admins[a].id < bound
    requires forall k :: k in deps ==> deps[k].admin_id < bound
    requires r.email !in admins && d.id !in deps && d.admin_id == r.id && r.id == bound
    requires !r.is_verified && d.verification_status == Pending
    ensures DepartmentFollowsAdmin(admins[r.email := r], deps[d.id := d])
  {
  }

  /** `register` keeps the store invariant, and under it the Department save
      never fails after the Admin save: no partial write. */
  lemma PersistKeepsInv(st: Store, m: Model, req: RegisterRequest)
    requires Inv(st)
    requires m == Admin ==> !MissingDepartment(req.department)
    requires req.email !in Emails(st, m)
    ensures Inv(Persist(st, m, req).0)
    ensures Persist(st, m, req).1 || Persist(st, m, req).0 == st
  {
    match m
    case User => PersistUserKeepsInv(st, req);
    case Staff => PersistStaffKeepsInv(st, req);
    case Admin => PersistAdminKeepsInv(st, req);
  }

  lemma PersistUserKeepsInv(st: Store, req: RegisterRequest)
    requires Inv(st)
    ensures Inv(Persist(st, User, req).0)
    ensures Persist(st, User, req).1 || Persist(st, User, req).0 == st
  {
    var n := st.nextId;
    var r := UserModel.NewUser(n, req.email, req.username, Hash(req.password), req.name, req.phone);
    if UserModel.Save(st.users, r).Some? {
      assert Persist(st, User, req).0 == st.(users := st.users[r.email := r], nextId := n + 1);
      UsersAfterSave(st.users, n, r);
      StaffBoundGrows(st.staff, n, n + 1);
      UsersBoundGrows(st.admins, n, n + 1);
      DepartmentsBoundGrows(st.departments, n, n + 1);
    }
  }

  lemma PersistStaffKeepsInv(st: Store, req: RegisterRequest)
    requires Inv(st)
    ensures Inv(Persist(st, Staff, req).0)
    ensures Persist(st, Staff, req).1 || Persist(st, Staff, req).0 == st
  {
    var n := st.nextId;
    var r := StaffModel.NewStaff(n, req.email, req.username, Hash(req.password), req.name, req.phone, None);
    if StaffModel.Save(st.staff, r).Some? {
      assert Persist(st, Staff, req).0 == st.(staff := st.staff[r.email := r], nextId := n + 1);
      StaffAfterSave(st.staff, n, r);
      UsersBoundGrows(st.users, n, n + 1);
      UsersBoundGrows(st.admins, n, n + 1);
      DepartmentsBoundGrows(st.departments, n, n + 1);
    }
  }

  lemma PersistAdminKeepsInv(st: Store, req: RegisterRequest)
    requires Inv(st)
    requires !MissingDepartment(req.department)
    requires req.email !in st.admins
    ensures Inv(Persist(st, Admin, req).0)
    ensures Persist(st, Admin, req).1 || Persist(st, Admin, req).0 == st
  {
    var n := st.nextId;
    var r := UserModel.NewUser(n, req.email, req.username, Hash(req.password), req.name, req.phone);
    if UserModel.Save(st.admins, r).Some? {
      var d := AdminDepartment(req.department.value, n + 1, n);
      AdminPersisted(st, req, r, d);
      AdminAddedKeepsInv(st, r, d);
    }
  }

  /** A saved Admin is followed by a successful save of its Department. */
  lemma AdminPersisted(st: Store, req: RegisterRequest, r: UserModel.UserRecord, d: DepartmentModel.DepartmentRecord)
    requires DepartmentsWellFormed(st.departments, st.nextId)
    requires !MissingDepartment(req.department)
    requires r == UserModel.NewUser(st.nextId, req.email, req.username, Hash(req.password), req.name, req.phone)
    requires d == AdminDepartment(req.department.value, st.nextId + 1, st.nextId)
    requires UserModel.Save(st.admins, r).Some?
    ensures Persist(st, Admin, req)
            == (st.(admins := st.admins[r.email := r], departments := st.departments[d.id := d], nextId := st.nextId + 2), true)
  {
    assert st.nextId + 1 !in st.departments;
  }

  /** Adding a fresh unverified Admin with the next id, and a pending
      Department it owns with the id after, keeps the invariant. */
  lemma AdminAddedKeepsInv(st: Store, r: UserModel.UserRecord, d: DepartmentModel.DepartmentRecord)
    requires Inv(st)
    requires UserModel.Save(st.admins, r).Some?
    requires r.id == st.nextId && !r.is_verified && r.verification_status == Pending
    requires d.id == st.nextId + 1 && d.admin_id == r.id && d.name != "" && d.verification_status == Pending
    ensures Inv(st.(admins := st.admins[r.email := r], departments := st.departments[d.id := d], nextId := st.nextId + 2))
  {
    var n := st.nextId;
    var admins', deps' := st.admins[r.email := r], st.departments[d.id := d];
    UsersAfterSave(st.admins, n, r);
    UsersBoundGrows(admins', n + 1, n + 2);
    UsersBoundGrows(st.users, n, n + 2);
    StaffBoundGrows(st.staff, n, n + 2);
    OwnerIdsBelow(st.admins, st.departments, n);
    AddKeepsOwned(st.admins, st.departments, r, d);
    AddKeepsOneEach(st.admins, st.departments, r, d, n);
    AddKeepsFollows(st.admins, st.departments, r, d, n);
    DepartmentsAfterAdd(st.departments, n, d);
  }

  lemma DepartmentsAfterAdd(deps: map<ObjectId, DepartmentModel.DepartmentRecord>, bound: ObjectId, d: DepartmentModel.DepartmentRecord)
    requires DepartmentsWellFormed(deps, bound)
    requires d.id == bound + 1 && d.name != ""
    ensures DepartmentsWellFormed(deps[d.id := d], bound + 2)
  {
  }

  lemma InvariantAfterRegister(st: Store, req: RegisterRequest)
    requires Inv(st)
    ensures Inv(RegisterOutcome(st, req).0)
  {
    match GetModel(req.userType)
    case None =>
    case Some(m) =>
      if FindOne(st, m, req.email).None? && !(m == Admin && MissingDepartment(req.department)) {
        PersistKeepsInv(st, m, req);
      }
  }

  /** Flipping the flags of one document keeps a collection well formed. */
  lemma UsersAfterVerify(c: map<string, UserModel.UserRecord>, bound: ObjectId, e: string)
    requires UsersWellFormed(c, bound) && e in c
    ensures UsersWellFormed(c[e := c[e].(is_verified := true, verification_status := Verified)], bound)
  {
  }

  lemma StaffAfterVerify(c: map<string, StaffModel.StaffRecord>, bound: ObjectId, e: string)
    requires StaffWellFormed(c, bound) && e in c
    ensures StaffWellFormed(c[e := c[e].(is_verified := true, verification_status := Verified)], bound)
  {
  }

  /** The cascade keeps every Department owned by a stored Admin ... */
  lemma CascadeKeepsOwned(admins: map<string, UserModel.UserRecord>, deps: map<ObjectId, DepartmentModel.DepartmentRecord>,
                          e: string, r: UserModel.UserRecord)
    requires e in admins && r.id == admins[e].id
    requires OwnedByAdmin(admins, deps)
    ensures OwnedByAdmin(admins[e := r], CascadeVerified(deps, r.id))
  {
    var admins', deps' := admins[e := r], CascadeVerified(deps, r.id);
    forall k | k in deps'
      ensures exists a :: a in admins' && admins'[a].id == deps'[k].admin_id
    {
      var a :| a in admins && admins[a].id == deps[k].admin_id;
      assert admins'[a].id == deps'[k].admin_id;
    }
  }

  /** ... keeps every Admin owning exactly one ... */
  lemma CascadeKeepsOneEach(admins: map<string, UserModel.UserRecord>, deps: map<ObjectId, DepartmentModel.DepartmentRecord>,
                            e: string, r: UserModel.UserRecord)
    requires e in admins && r.id == admins[e].id
    requires EveryAdminOwnsOne(admins, deps) && OwnersDistinct(deps)
    ensures EveryAdminOwnsOne(admins[e := r], CascadeVerified(deps, r.id))
    ensures OwnersDistinct(CascadeVerified(deps, r.id))
  {
    var admins', deps' := admins[e := r], CascadeVerified(deps, r.id);
    forall a | a in admins'
      ensures exists k :: k in deps' && deps'[k].admin_id == admins'[a].id
    {
      var k :| k in deps && deps[k].admin_id == admins[a].id;
      assert deps'[k].admin_id == admins'[a].id;
    }
  }

  /** ... and, once Admin `e` is verified, keeps every Department in step
      with its Admin. */
  lemma CascadeKeepsFollows(admins: map<string, UserModel.UserRecord>, deps: map<ObjectId, DepartmentModel.DepartmentRecord>,
                            e: string, r: UserModel.UserRecord)
    requires e in admins && r.id == admins[e].id && r.is_verified
    requires UserModel.Unique(admins)
    requires DepartmentFollowsAdmin(admins, deps)
    ensures DepartmentFollowsAdmin(admins[e := r], CascadeVerified(deps, r.id))
  {
    var admins', deps' := admins[e := r], CascadeVerified(deps, r.id);
    forall a, k | a in admins' && k in deps' && deps'[k].admin_id == admins'[a].id
      ensures deps'[k].verification_status == (if admins'[a].is_verified then Verified else Pending)
    {
      if a != e {
        assert admins[a].id != admins[e].id;
      }
    }
  }

  /** Verifying one unverified document keeps the invariant. */
  lemma MarkVerifiedKeepsInv(st: Store, m: Model, email: string)
    requires Inv(st)
    requires email in Emails(st, m)
    ensures Inv(MarkVerified(st, m, email))
  {
    match m
    case User =>
      UsersAfterVerify(st.users, st.nextId, email);
      assert MarkVerified(st, m, email)
             == st.(users := st.users[email := st.users[email].(is_verified := true, verification_status := Verified)]);
    case Staff =>
      StaffAfterVerify(st.staff, st.nextId, email);
      assert MarkVerified(st, m, email)
             == st.(staff := st.staff[email := st.staff[email].(is_verified := true, verification_status := Verified)]);
    case Admin =>
      AdminVerifiedKeepsInv(st, email);
  }

  lemma AdminVerifiedKeepsInv(st: Store, email: string)
    requires Inv(st)
    requires email in st.admins
    ensures Inv(MarkVerified(st, Admin, email))
  {
    var r := st.admins[email].(is_verified := true, verification_status := Verified);
    assert MarkVerified(st, Admin, email)
           == st.(admins := st.admins[email := r], departments := CascadeVerified(st.departments, st.admins[email].id));
    UsersAfterVerify(st.admins, st.nextId, email);
    CascadeKeepsOwned(st.admins, st.departments, email, r);
    CascadeKeepsOneEach(st.admins, st.departments, email, r);
    CascadeKeepsFollows(st.admins, st.departments, email, r);
    CascadeKeepsWellFormed(st.departments, st.nextId, r.id);
  }

  /** The Department update changes only statuses, so the Departments stay
      well formed. */
  lemma CascadeKeepsWellFormed(deps: map<ObjectId, DepartmentModel.DepartmentRecord>, bound: ObjectId, adminId: ObjectId)
    requires DepartmentsWellFormed(deps, bound)
    ensures DepartmentsWellFormed(CascadeVerified(deps, adminId), bound)
  {
  }

  lemma InvariantAfterVerify(st: Store, token: Token)
    requires Inv(st)
    ensures Inv(VerifyEmailOutcome(st, token).0)
  {
    match Verify(token)
    case None =>
    case Some(c) =>
      match GetModel(c.userType)
      case None =>
      case Some(m) =>
        if c.email in Emails(st, m) && !FindOne(st, m, c.email).value.is_verified {
          assert VerifyEmailOutcome(st, token).0 == MarkVerified(st, m, c.email);
          MarkVerifiedKeepsInv(st, m, c.email);
        } else {
          assert VerifyEmailOutcome(st, token).0 == st;
        }
  }

  // ---------------------------------------------------------------------
  // The handlers on a mutable store

  class AuthService {
    var users: map<string, UserModel.UserRecord>
    var staff: map<string, StaffModel.StaffRecord>
    var admins: map<string, UserModel.UserRecord>
    var departments: map<ObjectId, DepartmentModel.DepartmentRecord>
    var nextId: ObjectId
    /** The messages handed to `sendVerificationEmail`, oldest first. */
    var sent: seq<Mail>

    function State(): Store
      reads this
    {
      Store(users, staff, admins, departments, nextId, sent)
    }

    ghost predicate Valid()
      reads this
    {
      Inv(State())
    }

    constructor ()
      ensures Valid() && State() == EmptyStore()
    {
      users, staff, admins, departments := map[], map[], map[], map[];
      nextId, sent := 0, [];
    }

    method Register(req: RegisterRequest) returns (resp: Response)
      requires Valid()
      modifies this
      ensures Valid()
      ensures (State(), resp) == RegisterOutcome(old(State()), req)
    {
      InvariantAfterRegister(State(), req);
      var model := GetModel(req.userType);
      if model.None? {
        return Reply(400, MsgInvalidType);
      }
      var m := model.value;
      var existing := FindOne(State(), m, req.email);
      if existing.Some? {
        return Reply(400, MsgUserExists);
      }
      if m == Admin && MissingDepartment(req.department) {
        return Reply(400, MsgDepartmentRequired);
      }
      var ok := SaveNew(m, req);
      if !ok {
        return Reply(500, MsgRegisterError);
      }
      sent := sent + [Mail(req.email, req.userType, VerificationToken(req.email, req.userType))];
      resp := Reply(201, MsgRegistered);
    }

    /** The `save` calls of `register`: the hashed document, then for an
        Admin its Department. */
    method SaveNew(m: Model, req: RegisterRequest) returns (ok: bool)
      requires m == Admin ==> !MissingDepartment(req.department)
      modifies this
      ensures (State(), ok) == Persist(old(State()), m, req)
    {
      var hashed := Hash(req.password);
      var id := nextId;
      match m {
        case User =>
          var saved := UserModel.Save(users, UserModel.NewUser(id, req.email, req.username, hashed, req.name, req.phone));
          if saved.None? {
            return false;
          }
          users, nextId := saved.value, id + 1;
        case Staff =>
          var saved := StaffModel.Save(staff, StaffModel.NewStaff(id, req.email, req.username, hashed, req.name, req.phone, None));
          if saved.None? {
            return false;
          }
          staff, nextId := saved.value, id + 1;
        case Admin =>
          var saved := UserModel.Save(admins, UserModel.NewUser(id, req.email, req.username, hashed, req.name, req.phone));
          if saved.None? {
            return false;
          }
          admins, nextId := saved.value, id + 1;
          var dept := DepartmentModel.Save(departments, AdminDepartment(req.department.value, id + 1, id));
          if dept.None? {
            return false;
          }
          departments, nextId := dept.value, id + 2;
      }
      ok := true;
    }

    method VerifyEmail(token: Token) returns (resp: Response)
      requires Valid()
      modifies this
      ensures Valid()
      ensures (State(), resp) == VerifyEmailOutcome(old(State()), token)
    {
      InvariantAfterVerify(State(), token);
      var decoded := Verify(token);
      if decoded.None? {
        return Reply(400, MsgBadToken);
      }
      var claims := decoded.value;
      var model := GetModel(claims.userType);
      if model.None? {
        return Reply(400, MsgInvalidType);
      }
      var user := FindOne(State(), model.value, claims.email);
      if user.None? {
        return Reply(404, MsgNotFound);
      }
      if user.value.is_verified {
        return Reply(400, MsgAlreadyVerified);
      }
      SetVerified(model.value, claims.email);
      resp := Reply(200, MsgVerified);
    }

    /** `user.is_verified = true; user.verification_status = "Verified";`
        and, for an Admin, the Department update. */
    method SetVerified(m: Model, e: string)
      requires e in Emails(State(), m)
      modifies this
      ensures State() == MarkVerified(old(State()), m, e)
    {
      match m {
        case User =>
          users := users[e := users[e].(is_verified := true, verification_status := Verified)];
        case Staff =>
          staff := staff[e := staff[e].(is_verified := true, verification_status := Verified)];
        case Admin =>
          var adminId := admins[e].id;
          admins := admins[e := admins[e].(is_verified := true, verification_status := Verified)];
          departments := CascadeVerified(departments, adminId);
      }
    }

    method Login(req: LoginRequest) returns (resp: Response)
      ensures resp == LoginOutcome(State(), req)
    {
      var model := GetModel(req.userType);
      if model.None? {
        return Reply(400, MsgInvalidType);
      }
      var user := FindOne(State(), model.value, req.email);
      if user.None? {
        return Reply(400, MsgNotFound);
      }
      if !user.value.is_verified {
        return Reply(403, MsgNotVerified);
      }
      var isMatch := Compare(req.password, user.value.password);
      if !isMatch {
        return Reply(400, MsgBadCredentials);
      }
      var token := Sign(Claims(Some(user.value.id), user.value.email, req.userType));
      resp := Response(200, MsgLoggedIn, Some(token), Some(req.userType));
    }
  }
}
