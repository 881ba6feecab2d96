/** What the three handlers promise, stated over the pure outcome functions
    of module AuthController. */
module AuthProperties {
  import opened Common
  import opened Crypto
  import UserModel
  import StaffModel
  import DepartmentModel
  import AuthUserModel
  import RegisterForm
  import opened AuthController

  /** `USER_TYPES` of the auth_user schema and the tags `getModel` accepts are
      the same three strings. */
  lemma UserTypesAreModelTags()
    ensures forall t :: t in AuthUserModel.USER_TYPES <==> GetModel(t).Some?
  {
    AuthUserModel.UserTypesAreThree();
  }

  /** The registration form's option values are not tags `getModel`
      accepts: sent as they are, every one would be refused as an invalid
      user type. */
  lemma FormTagsAreNotModelTags(st: Store, req: RegisterRequest)
    requires exists i :: 0 <= i < |RegisterForm.userTypes| && req.userType == RegisterForm.userTypes[i].0
    ensures GetModel(req.userType).None?
    ensures RegisterOutcome(st, req) == (st, Reply(400, MsgInvalidType))
  {
  }

  // ---------------------------------------------------------------------
  // register

  lemma RegisterRejectsUnknownRole(st: Store, req: RegisterRequest)
    requires GetModel(req.userType).None?
    ensures RegisterOutcome(st, req) == (st, Reply(400, MsgInvalidType))
  {
  }

  /** The duplicate check looks in the chosen role's collection only. */
  lemma RegisterRejectsDuplicate(st: Store, req: RegisterRequest, m: Model)
    requires GetModel(req.userType) == Some(m) && req.email in Emails(st, m)
    ensures RegisterOutcome(st, req) == (st, Reply(400, MsgUserExists))
  {
  }

  /** What `register` for model `m` reads of the store. */
  predicate SameCollection(st1: Store, st2: Store, m: Model)
  {
    && st1.nextId == st2.nextId
    && match m
       case User => st1.users == st2.users
       case Staff => st1.staff == st2.staff
       case Admin => st1.admins == st2.admins && st1.departments == st2.departments
  }

  /** Records of the other roles are never consulted: two stores that agree
      on the chosen collection (and, for an Admin, on the Departments) get the
      same reply, so one email may be registered once per role. */
  lemma RegisterConsultsOnlyItsCollection(st1: Store, st2: Store, req: RegisterRequest, m: Model)
    requires GetModel(req.userType) == Some(m) && SameCollection(st1, st2, m)
    ensures RegisterOutcome(st1, req).1 == RegisterOutcome(st2, req).1
  {
    if FindOne(st1, m, req.email).None? && !(m == Admin && MissingDepartment(req.department)) {
      assert FindOne(st2, m, req.email).None?;
      assert Persist(st1, m, req).1 == Persist(st2, m, req).1;
    }
  }

  /** The Admin department check precedes the first save: nothing is written. */
  lemma RegisterAdminNeedsDepartment(st: Store, req: RegisterRequest)
    requires req.userType == "Admin" && req.email !in st.admins
    requires MissingDepartment(req.department)
    ensures RegisterOutcome(st, req) == (st, Reply(400, MsgDepartmentRequired))
  {
  }

  /** A successful registration stores exactly the five submitted fields,
      with the password replaced by its digest, under a fresh id and with the
      schema defaults (so a Staff document gets no `department_id`); an Admin
      registration also stores one Department owned by the new Admin, with
      `description || ""` and status Pending; nothing else changes. */
  lemma RegisterStoresNewDocument(st: Store, req: RegisterRequest)
    requires RegisterOutcome(st, req).1.status == 201
    ensures var st' := RegisterOutcome(st, req).0;
            var n := st.nextId;
            var h := Hash(req.password);
            && (req.userType == "User" ==>
                  && st'.users == st.users[req.email := UserModel.NewUser(n, req.email, req.username, h, req.name, req.phone)]
                  && st'.staff == st.staff && st'.admins == st.admins && st'.departments == st.departments
                  && st'.nextId == n + 1)
            && (req.userType == "Staff" ==>
                  && st'.staff == st.staff[req.email := StaffModel.NewStaff(n, req.email, req.username, h, req.name, req.phone, None)]
                  && st'.users == st.users && st'.admins == st.admins && st'.departments == st.departments
                  && st'.nextId == n + 1)
            && (req.userType == "Admin" ==>
                  && !MissingDepartment(req.department)
                  && st'.admins == st.admins[req.email := UserModel.NewUser(n, req.email, req.username, h, req.name, req.phone)]
                  && n + 1 !in st.departments
                  && st'.departments == st.departments[n + 1 :=
                       DepartmentModel.DepartmentRecord(n + 1, req.department.value.name.value,
                                                        OrElse(req.department.value.description, ""), n, Pending)]
                  && st'.users == st.users && st'.staff == st.staff
                  && st'.nextId == n + 2)
  {
  }

  /** Whether `username` is taken in model `m`'s collection. */
  predicate UsernameTaken(st: Store, m: Model, username: string)
  {
    match m
    case User => exists e :: e in st.users && st.users[e].username == username
    case Staff => exists e :: e in st.staff && st.staff[e].username == username
    case Admin => exists e :: e in st.admins && st.admins[e].username == username
  }

  /** On a store that satisfies the invariant, `register` answers 201 exactly
      when the tag names a model, the email and the username are free in that
      collection, the required fields are non-empty and an Admin supplies a
      department name; a refused save (500) then leaves the store as it was,
      so an Admin is never stored without its Department. */
  lemma RegisterSucceedsExactlyWhen(st: Store, req: RegisterRequest)
    requires Inv(st)
    ensures var out := RegisterOutcome(st, req);
            && (out.1.status == 201 <==>
                  && GetModel(req.userType).Some?
                  && req.email !in Emails(st, GetModel(req.userType).value)
                  && (req.userType == "Admin" ==> !MissingDepartment(req.department))
                  && req.email != "" && req.username != "" && req.name != ""
                  && !UsernameTaken(st, GetModel(req.userType).value, req.username))
            && (out.1.status == 500 ==> out.0 == st)
  {
    match GetModel(req.userType)
    case None =>
    case Some(m) =>
      if req.email !in Emails(st, m) && !(m == Admin && MissingDepartment(req.department)) {
        match m
        case User => PersistUserSucceedsExactlyWhen(st, req);
        case Staff => PersistStaffSucceedsExactlyWhen(st, req);
        case Admin => PersistAdminSucceedsExactlyWhen(st, req);
      }
  }

  /** The User save goes through exactly when the required fields are
      present and email and username are free; ids below the bound never
      collide with the new one. */
  lemma PersistUserSucceedsExactlyWhen(st: Store, req: RegisterRequest)
    requires UsersWellFormed(st.users, st.nextId)
    ensures Persist(st, User, req).1 <==>
              req.email !in st.users && req.email != "" && req.username != "" && req.name != ""
              && !UsernameTaken(st, User, req.username)
    ensures !Persist(st, User, req).1 ==> Persist(st, User, req).0 == st
  {
    var r := UserModel.NewUser(st.nextId, req.email, req.username, Hash(req.password), req.name, req.phone);
    assert forall e :: e in st.users ==> st.users[e].id != r.id;
  }

  lemma PersistStaffSucceedsExactlyWhen(st: Store, req: RegisterRequest)
    requires StaffWellFormed(st.staff, st.nextId)
    ensures Persist(st, Staff, req).1 <==>
              req.email !in st.staff && req.email != "" && req.username != "" && req.name != ""
              && !UsernameTaken(st, Staff, req.username)
    ensures !Persist(st, Staff, req).1 ==> Persist(st, Staff, req).0 == st
  {
    var r := StaffModel.NewStaff(st.nextId, req.email, req.username, Hash(req.password), req.name, req.phone, None);
    assert forall e :: e in st.staff ==> st.staff[e].id != r.id;
  }

  /** For an Admin with a department name, the Department save after a
      successful Admin save always goes through. */
  lemma PersistAdminSucceedsExactlyWhen(st: Store, req: RegisterRequest)
    requires UsersWellFormed(st.admins, st.nextId) && DepartmentsWellFormed(st.departments, st.nextId)
    requires !MissingDepartment(req.department)
    ensures Persist(st, Admin, req).1 <==>
              req.email !in st.admins && req.email != "" && req.username != "" && req.name != ""
              && !UsernameTaken(st, Admin, req.username)
    ensures !Persist(st, Admin, req).1 ==> Persist(st, Admin, req).0 == st
  {
    var n := st.nextId;
    var r := UserModel.NewUser(n, req.email, req.username, Hash(req.password), req.name, req.phone);
    assert forall e :: e in st.admins ==> st.admins[e].id != r.id;
    if UserModel.Save(st.admins, r).Some? {
      AdminPersisted(st, req, r, AdminDepartment(req.department.value, n + 1, n));
    }
  }

  /** Whatever the role, the token `register` signs and passes to
      `sendVerificationEmail` verifies the new account. */
  lemma MailedTokenVerifies(st: Store, req: RegisterRequest)
    requires RegisterOutcome(st, req).1.status == 201
    ensures var st1 := RegisterOutcome(st, req).0;
            && |st1.sent| > 0 && st1.sent[|st1.sent| - 1].to == req.email
            && VerifyEmailOutcome(st1, st1.sent[|st1.sent| - 1].token).1 == Reply(200, MsgVerified)
  {
    RegisterStoresNewDocument(st, req);
  }

  // ---------------------------------------------------------------------
  // verifyEmail

  /** The refusals of `verifyEmail`, none of which changes the store. */
  lemma VerifyEmailRefusals(st: Store, token: Token)
    ensures token.Foreign? ==> VerifyEmailOutcome(st, token) == (st, Reply(400, MsgBadToken))
    ensures token.Signed? && GetModel(token.claims.userType).None? ==>
              VerifyEmailOutcome(st, token) == (st, Reply(400, MsgInvalidType))
    ensures token.Signed? && GetModel(token.claims.userType).Some? &&
            token.claims.email !in Emails(st, GetModel(token.claims.userType).value) ==>
              VerifyEmailOutcome(st, token) == (st, Reply(404, MsgNotFound))
    ensures token.Signed? && GetModel(token.claims.userType).Some? &&
            token.claims.email in Emails(st, GetModel(token.claims.userType).value) &&
            FindOne(st, GetModel(token.claims.userType).value, token.claims.email).value.is_verified ==>
              VerifyEmailOutcome(st, token) == (st, Reply(400, MsgAlreadyVerified))
  {
  }

  /** A successful verification changes only the verified document's two
      flags; for User and Staff no Department is touched. */
  lemma VerifyEmailChangesOnlyThatDocument(st: Store, c: Claims)
    requires VerifyEmailOutcome(st, Sign(c)).1.status == 200
    ensures var st' := VerifyEmailOutcome(st, Sign(c)).0;
            var e := c.email;
            && (c.userType == "User" ==>
                  && e in st.users && !st.users[e].is_verified
                  && st'.users == st.users[e := st.users[e].(is_verified := true, verification_status := Verified)]
                  && st'.staff == st.staff && st'.admins == st.admins && st'.departments == st.departments)
            && (c.userType == "Staff" ==>
                  && e in st.staff && !st.staff[e].is_verified
                  && st'.staff == st.staff[e := st.staff[e].(is_verified := true, verification_status := Verified)]
                  && st'.users == st.users && st'.admins == st.admins && st'.departments == st.departments)
            && (c.userType == "Admin" ==>
                  && e in st.admins && !st.admins[e].is_verified
                  && st'.admins == st.admins[e := st.admins[e].(is_verified := true, verification_status := Verified)]
                  && st'.users == st.users && st'.staff == st.staff)
  {
  }

  /** On Departments with distinct owners, the cascade for an owner updates
      that owner's Department alone. */
  lemma CascadeHitsOne(deps: map<ObjectId, DepartmentModel.DepartmentRecord>, id: ObjectId, k: ObjectId)
    requires OwnersDistinct(deps) && k in deps && deps[k].admin_id == id
    ensures CascadeVerified(deps, id) == deps[k := deps[k].(verification_status := Verified)]
  {
    var r := CascadeVerified(deps, id);
    forall j | j in deps
      ensures r[j] == deps[k := deps[k].(verification_status := Verified)][j]
    {
      if j != k {
        assert deps[j].admin_id != id;
      }
    }
  }

  /** Verifying an Admin moves exactly its own Department to "Verified" and
      leaves every other Department as it was. */
  lemma VerifyAdminCascadesToItsDepartment(st: Store, c: Claims)
    requires EveryAdminOwnsOne(st.admins, st.departments) && OwnersDistinct(st.departments)
    requires c.userType == "Admin" && VerifyEmailOutcome(st, Sign(c)).1.status == 200
    ensures c.email in st.admins
    ensures exists k :: && k in st.departments
                        && st.departments[k].admin_id == st.admins[c.email].id
                        && VerifyEmailOutcome(st, Sign(c)).0.departments ==
                             st.departments[k := st.departments[k].(verification_status := Verified)]
  {
    var id := st.admins[c.email].id;
    var k :| k in st.departments && st.departments[k].admin_id == id;
    assert VerifyEmailOutcome(st, Sign(c)).0.departments == CascadeVerified(st.departments, id);
    CascadeHitsOne(st.departments, id, k);
  }

  /** A second verification with the same token is refused and changes
      nothing: the cascade never runs twice. */
  lemma VerifyTwiceRejected(st: Store, token: Token)
    requires VerifyEmailOutcome(st, token).1.status == 200
    ensures var st' := VerifyEmailOutcome(st, token).0;
            VerifyEmailOutcome(st', token) == (st', Reply(400, MsgAlreadyVerified))
  {
    var c := token.claims;
    var m := GetModel(c.userType).value;
    var st' := VerifyEmailOutcome(st, token).0;
    assert st' == MarkVerified(st, m, c.email);
    assert FindOne(st', m, c.email).value.is_verified;
  }

  // ---------------------------------------------------------------------
  // login

  /** The answers of `login`: the verification gate comes before the
      password check, so an unverified account gets 403 whatever password is
      given. */
  lemma LoginAnswers(st: Store, req: LoginRequest)
    ensures GetModel(req.userType).None? ==> LoginOutcome(st, req) == Reply(400, MsgInvalidType)
    ensures GetModel(req.userType).Some? && req.email !in Emails(st, GetModel(req.userType).value) ==>
              LoginOutcome(st, req) == Reply(400, MsgNotFound)
    ensures GetModel(req.userType).Some? && req.email in Emails(st, GetModel(req.userType).value) ==>
              var a := FindOne(st, GetModel(req.userType).value, req.email).value;
              && (!a.is_verified ==>
                    forall p :: LoginOutcome(st, req.(password := p)) == Reply(403, MsgNotVerified))
              && (a.is_verified && Hash(req.password) != a.password ==>
                    LoginOutcome(st, req) == Reply(400, MsgBadCredentials))
              && (a.is_verified && Hash(req.password) == a.password ==> LoginOutcome(st, req).status == 200)
  {
  }

  /** A successful login answers with the caller's tag and a token that
      verifies to the document's id, its email and that tag. */
  lemma LoginTokenCarriesIdentity(st: Store, req: LoginRequest)
    requires Inv(st)
    requires LoginOutcome(st, req).status == 200
    ensures var m := GetModel(req.userType).value;
            var a := FindOne(st, m, req.email).value;
            var r := LoginOutcome(st, req);
            && a.is_verified && Compare(req.password, a.password)
            && r.userType == Some(req.userType)
            && Verify(r.token.value) == Some(Claims(Some(a.id), req.email, req.userType))
  {
  }

  // ---------------------------------------------------------------------
  // A whole session

  /** The scenario in which a User registers, is refused at login before
      verifying, verifies with the token `register` signed and passed to
      `sendVerificationEmail`, and then logs in. */
  lemma RegisterVerifyLogin(st: Store, email: string, username: string, password: string, name: string)
    requires Inv(st)
    requires email != "" && username != "" && name != ""
    requires email !in st.users && forall e :: e in st.users ==> st.users[e].username != username
    ensures var req := RegisterRequest(email, username, password, name, None, "User", None);
            var login := LoginRequest(email, password, "User");
            var (st1, r1) := RegisterOutcome(st, req);
            var (st2, r2) := VerifyEmailOutcome(st1, st1.sent[|st1.sent| - 1].token);
            && r1.status == 201
            && st1.sent[|st1.sent| - 1].to == email
            && LoginOutcome(st1, login).status == 403
            && r2.status == 200
            && LoginOutcome(st2, login).status == 200
            && LoginOutcome(st2, login).userType == Some("User")
  {
    var req := RegisterRequest(email, username, password, name, None, "User", None);
    RegisterSucceedsExactlyWhen(st, req);
    RegisterStoresNewDocument(st, req);
  }

  /** The operations a client can perform. */
  datatype Request = RegisterCall(req: RegisterRequest) | VerifyCall(token: Token) | LoginCall(login: LoginRequest)

  /** The store after serving `calls` in order. */
  function Serve(st: Store, calls: seq<Request>): Store
    decreases |calls|
  {
    if calls == [] then st
    else
      var st' := match calls[0]
                 case RegisterCall(r) => RegisterOutcome(st, r).0
                 case VerifyCall(t) => VerifyEmailOutcome(st, t).0
                 case LoginCall(_) => st;
      Serve(st', calls[1..])
  }

  /** Every store the service can reach from an empty database satisfies the
      invariant: each Admin owns exactly one Department whose status follows
      the Admin's verification, and every document is "Verified" exactly when
      its `is_verified` flag is set. */
  lemma {:induction false} ServeKeepsInv(st: Store, calls: seq<Request>)
    requires Inv(st)
    ensures Inv(Serve(st, calls))
    decreases |calls|
  {
    if calls != [] {
      match calls[0]
      case RegisterCall(r) =>
        InvariantAfterRegister(st, r);
        ServeKeepsInv(RegisterOutcome(st, r).0, calls[1..]);
      case VerifyCall(t) =>
        InvariantAfterVerify(st, t);
        ServeKeepsInv(VerifyEmailOutcome(st, t).0, calls[1..]);
      case LoginCall(_) =>
        ServeKeepsInv(st, calls[1..]);
    }
  }

  lemma ReachableStoresAreConsistent(calls: seq<Request>)
    ensures var st := Serve(EmptyStore(), calls);
            && Inv(st)
            && (forall e :: e in st.users ==> (st.users[e].is_verified <==> st.users[e].verification_status == Verified))
            && (forall e :: e in st.staff ==> (st.staff[e].is_verified <==> st.staff[e].verification_status == Verified))
            && (forall e :: e in st.admins ==> (st.admins[e].is_verified <==> st.admins[e].verification_status == Verified))
            && (forall e :: e in st.staff ==> st.staff[e].department_id.None? && st.staff[e].verified_by.None?)
  {
    ServeKeepsInv(EmptyStore(), calls);
  }
}
