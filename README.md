# Auth service of the SCMS project, modelled in Dafny

This project models the authentication service of the SCMS complaint
management system. The service registers accounts of three roles (User,
Staff, Admin), verifies an email through a signed token, and logs an
account in. It stores its data in MongoDB through Mongoose schemas. The
model also covers the input rules of the frontend registration form.

The model is organised as follows:

- `common.dfy` (`Common`) holds what the schemas share.
  - `Option` and `ObjectId`.
  - The three-value `verification_status` enum, with its default and its parser.
  - JavaScript `||` and truthiness on optional strings.
- `crypto.dfy` (`Crypto`) reduces bcrypt and jsonwebtoken to what the controller relies on.
  - `Hash` gives a digest, and `Compare` accepts exactly the password that was hashed.
  - `Sign` gives a token whose `Verify` returns the payload. Any other token fails.
- `user_model.dfy`, `staff_model.dfy`, `department_model.dfy` and
  `auth_user_model.dfy` each hold one schema.
  - A record datatype, and a constructor that applies the schema defaults.
  - The `required` validators.
  - The unique indexes.
  - `Save`, which inserts a document or refuses it the way `doc.save()` throws.
- `auth_controller.dfy` (`AuthController`) holds the controller.
  - `GetModel`.
  - A `Store` with the three per-role collections (maps from email to
    document), the Departments (a map from `_id`), a fresh-id counter, and the
    log of verification mails.
  - Each handler as a pure outcome function from store and request to the new
    store and the HTTP reply.
  - The store invariant, with lemmas that every handler preserves it.
  - The class `AuthService`. Its fields are the store, and its methods
    `Register`, `VerifyEmail` and `Login` do the handlers' steps on those fields.
    Each is proved equal to its outcome function, and the first two keep the invariant.
- `auth_properties.dfy` (`AuthProperties`) states what the handlers promise.
  - Every guard and its status code.
  - Exactly which documents a success writes.
  - The Admin-to-Department cascade.
  - A whole register, verify and login session.
  - Preservation of the invariant over any sequence of requests from an empty database.
- `register_form.dfy` (`RegisterForm`) holds the registration page's zod
  `schema` with its password-match refinement, the `userTypes` options and the
  `showDepartments` rule.

The store invariant `Inv` says the following:

- Every collection is keyed by email, and its unique indexes hold.
- Every id lies below the counter.
- Every document's `verification_status` is "Verified" exactly when `is_verified` is set.
  Otherwise it is "Pending".
- Staff documents carry no `department_id` and no `verified_by`.
- Every Department is owned by a stored Admin.
- Every Admin owns exactly one Department, and that Department's status follows the Admin's verification.

Some behaviour of the code that a reader might expect to be otherwise:

- `login` takes the role tag from the request body. It does not search all
  three collections.
- Staff registrations also send a verification mail.
- A Staff registration ignores any department in the request.
- The duplicate-email check looks only in the chosen role's collection, so one
  email can be registered once per role.
- `verifyEmail` reads the token from the URL parameter.
- An unverified login answers 403 and sends no new mail.
- Verifying an Admin that owns no Department still answers 200: `findOneAndUpdate` then matches nothing.

## Model

| member | source | states |
|---|---|---|
| Common.ParseStatus | auth-service/src/models/User.ts:10 | the status enum admits exactly "Pending", "Verified" and "Rejected", each denoting its own status |
| Common.Truthy | auth-service/src/controllers/authController.ts:31 | JavaScript truthiness of an optional string: it holds exactly when the value or else "" is non-empty, and then that is the value itself |
| Common.OrElse | auth-service/src/controllers/authController.ts:39 | JavaScript `or` on an optional string keeps a non-empty value and falls back on an absent or empty one |
| Crypto.Compare | auth-service/src/controllers/authController.ts:99 | bcrypt's compare accepts a candidate exactly when its hash is the stored digest |
| Crypto.HashInjective | auth-service/src/controllers/authController.ts:27 | in the model, distinct passwords never share a digest, so compare refuses every other password (bcrypt's 72-byte cut-off is not modelled) |
| Crypto.Sign | auth-service/src/controllers/authController.ts:49 | verifying a signed token gives back exactly the signed payload |
| Crypto.Verify | auth-service/src/controllers/authController.ts:62 | verification succeeds exactly for tokens the service signed, and returns their payload |
| UserModel.NewUser | auth-service/src/models/User.ts:3-13 | a new User document holds the given fields, starts unverified and has status Pending |
| UserModel.Save | auth-service/src/models/User.ts:4-8 | a save succeeds exactly when email, username and name are non-empty and email, username and id are unused; it then inserts the document and keeps the unique indexes |
| StaffModel.NewStaff | auth-service/src/models/Staff.ts:3-15 | a new Staff document holds the given fields and department reference, starts unverified with status Pending, and has no `verified_by` |
| StaffModel.Save | auth-service/src/models/Staff.ts:4-7 | the Staff save succeeds under the same required-field and uniqueness conditions as the User save, and keeps the unique indexes |
| DepartmentModel.NewDepartment | auth-service/src/models/Department.ts:3-8 | an omitted `description` becomes "" and an omitted status becomes Pending; `admin_id` is always given |
| DepartmentModel.Save | auth-service/src/models/Department.ts:4 | a Department save succeeds exactly when the name is non-empty and the id is unused, and keeps the Departments keyed by id |
| AuthUserModel.UserTypesAreThree | auth-service/src/models/auth_user.ts:3-7 | USER_TYPES holds exactly "Admin", "Staff" and "User", each once |
| AuthUserModel.NewAuthUser | auth-service/src/models/auth_user.ts:9-16 | a new auth_user holds the given fields, starts unverified and has status Pending |
| AuthUserModel.Save | auth-service/src/models/auth_user.ts:10-13 | an auth_user save succeeds exactly when the four required strings are non-empty, `user_type` is in USER_TYPES and email and username are free; it keeps uniqueness and stored `user_type`s stay in USER_TYPES |
| AuthController.GetModel | auth-service/src/controllers/authController.ts:10-15 | a model is returned exactly for the case-sensitive tags "User", "Staff" and "Admin" |
| AuthController.FindOne | auth-service/src/controllers/authController.ts:24 | a lookup finds a document exactly when the email is registered in that role's collection, and returns that stored document's id, email, digest and flag |
| AuthController.MissingDepartment | auth-service/src/controllers/authController.ts:31 | the department is missing exactly when it is absent, or its name is absent or empty |
| AuthController.AdminDepartment | auth-service/src/controllers/authController.ts:37-42 | the new Department has the next id, the given non-empty name, the given description or else "", the new Admin as owner and status Pending |
| AuthController.Persist | auth-service/src/controllers/authController.ts:27-47 | the saves touch only the chosen role's collection (and the Departments for an Admin) and send no mail; a success uses one fresh id, or two for an Admin; a refused User or Staff save changes nothing, and a refused Admin save leaves the Departments unchanged |
| AuthController.MarkVerified | auth-service/src/controllers/authController.ts:72-79 | the role's new collection is the old one with only the found document's flag set and its status Verified, every other field and document kept; for an Admin the Departments become exactly CascadeVerified's update for that Admin's id; the other collections, the counter and the mail log stay the same, and for User and Staff the Departments too |
| AuthController.VerificationToken | auth-service/src/controllers/authController.ts:49 | the registration token verifies to the email and tag with no id |
| AuthController.RegisterOutcome | auth-service/src/controllers/authController.ts:18-56 | register answers 201, 400 or 500 with no token; a 400 changes nothing; a 201 logs exactly one mail to the registrant with its verification token; any other answer sends no mail |
| AuthController.CascadeVerified | auth-service/src/controllers/authController.ts:77-79 | the Department update moves exactly the Departments owned by the given Admin to Verified, keeps their id, name, description and owner, and leaves every other Department equal |
| AuthController.VerifyEmailOutcome | auth-service/src/controllers/authController.ts:59-85 | verifyEmail answers 200, 400 or 404 with no token; every refusal changes nothing; no mail is sent and no id is allocated |
| AuthController.LoginOutcome | auth-service/src/controllers/authController.ts:88-110 | login answers 200, 400 or 403; it returns a token exactly on 200, and then echoes the caller's tag |
| AuthController.PersistKeepsInv | auth-service/src/controllers/authController.ts:27-47 | the saves of a registration keep the store invariant, and the Department save never fails after the Admin save |
| AuthController.InvariantAfterRegister | auth-service/src/controllers/authController.ts:18-56 | register keeps the store invariant |
| AuthController.MarkVerifiedKeepsInv | auth-service/src/controllers/authController.ts:72-79 | setting the flags, together with the Department update for an Admin, keeps the store invariant |
| AuthController.InvariantAfterVerify | auth-service/src/controllers/authController.ts:59-85 | verifyEmail keeps the store invariant |
| AuthController.AuthService.constructor | auth-service/src/controllers/authController.ts:4-7 | a new service has an empty store that satisfies the invariant |
| AuthController.AuthService.Register | auth-service/src/controllers/authController.ts:18-56 | the method keeps the invariant, and its new state and reply equal RegisterOutcome's |
| AuthController.AuthService.SaveNew | auth-service/src/controllers/authController.ts:27-47 | the saves performed on the fields produce exactly Persist's state and success flag |
| AuthController.AuthService.VerifyEmail | auth-service/src/controllers/authController.ts:59-85 | the method keeps the invariant, and its new state and reply equal VerifyEmailOutcome's |
| AuthController.AuthService.SetVerified | auth-service/src/controllers/authController.ts:72-79 | the in-place flag assignments and the Department update produce exactly MarkVerified's state |
| AuthController.AuthService.Login | auth-service/src/controllers/authController.ts:88-110 | the method changes nothing and answers as LoginOutcome |
| AuthProperties.UserTypesAreModelTags | auth-service/src/models/auth_user.ts:3-7 | USER_TYPES is exactly the set of tags getModel accepts |
| AuthProperties.FormTagsAreNotModelTags | frontend/src/pages/register.tsx:8-12 | every lower-case form option value would be refused by register as an invalid user type, with no change |
| AuthProperties.RegisterRejectsUnknownRole | auth-service/src/controllers/authController.ts:21-22 | an unknown tag yields 400 "Invalid user type" and no change |
| AuthProperties.RegisterRejectsDuplicate | auth-service/src/controllers/authController.ts:24-25 | an email already in the chosen role's collection yields 400 "User already exists" and no change |
| AuthProperties.RegisterConsultsOnlyItsCollection | auth-service/src/controllers/authController.ts:21-47 | two stores that agree on the chosen role's collection (and, for Admin, the Departments) get the same reply |
| AuthProperties.RegisterAdminNeedsDepartment | auth-service/src/controllers/authController.ts:30-33 | an Admin without a department or a department name gets 400 before any save, and neither an Admin nor a Department is created |
| AuthProperties.RegisterStoresNewDocument | auth-service/src/controllers/authController.ts:27-47 | a success stores exactly email, username, the password's digest, name and phone with the schema defaults under a fresh id; Staff get no department; an Admin also gets exactly one Pending Department it owns, whose description is the given one or else ""; nothing else changes |
| AuthProperties.RegisterSucceedsExactlyWhen | auth-service/src/controllers/authController.ts:18-56 | on a store satisfying the invariant, register answers 201 exactly when the tag is valid, email and username are free in that collection, the required fields are non-empty and an Admin gives a department name; a 500 leaves the store unchanged |
| AuthProperties.PersistUserSucceedsExactlyWhen | auth-service/src/controllers/authController.ts:46 | the User save succeeds exactly under the schema's conditions, and a refusal writes nothing |
| AuthProperties.PersistStaffSucceedsExactlyWhen | auth-service/src/controllers/authController.ts:46 | the Staff save succeeds exactly under the schema's conditions, and a refusal writes nothing |
| AuthProperties.PersistAdminSucceedsExactlyWhen | auth-service/src/controllers/authController.ts:35-44 | the Admin and Department saves both succeed exactly under the Admin schema's conditions, and otherwise nothing is written |
| AuthProperties.MailedTokenVerifies | auth-service/src/controllers/authController.ts:49-50 | after a successful registration of any role, the token `register` signs and passes to `sendVerificationEmail` for the registrant verifies the new account with 200 |
| AuthProperties.VerifyEmailRefusals | auth-service/src/controllers/authController.ts:62-70 | a foreign token gives 400 "Invalid or expired token"; an unknown tag gives 400; an absent document gives 404; an already verified document gives 400; none of them changes anything |
| AuthProperties.VerifyEmailChangesOnlyThatDocument | auth-service/src/controllers/authController.ts:72-79 | a success changes only the document's `is_verified` (to true) and `verification_status` (to Verified); for User and Staff, no Department and no other collection changes |
| AuthProperties.CascadeHitsOne | auth-service/src/controllers/authController.ts:78 | when owners are distinct, the Department update for an owner touches only that owner's Department |
| AuthProperties.VerifyAdminCascadesToItsDepartment | auth-service/src/controllers/authController.ts:76-79 | verifying an Admin moves exactly its own Department to Verified and leaves every other Department unchanged |
| AuthProperties.VerifyTwiceRejected | auth-service/src/controllers/authController.ts:70 | a second verify with the same token answers 400 "User already verified" and changes nothing, so the cascade never reruns |
| AuthProperties.LoginAnswers | auth-service/src/controllers/authController.ts:91-100 | an unknown tag or email gives 400; an unverified account gives 403 whatever the password; a verified account with a wrong password gives 400; with the right one, 200 |
| AuthProperties.LoginTokenCarriesIdentity | auth-service/src/controllers/authController.ts:99-106 | a 200 login means the account is verified and the password matches, and the token verifies to the document's id, email and the caller's tag |
| AuthProperties.RegisterVerifyLogin | auth-service/src/controllers/authController.ts:18-110 | a new User registers (201), is refused login before verifying (403), verifies with the token `register` signed and passed to the mailer (200), and then logs in (200) |
| AuthProperties.ServeKeepsInv | auth-service/src/controllers/authController.ts:18-110 | every sequence of register, verify and login requests keeps the store invariant |
| AuthProperties.ReachableStoresAreConsistent | auth-service/src/controllers/authController.ts:72-73 | in every store reachable from an empty database, each document is Verified exactly when `is_verified` is set, and no Staff document has a department or an approver |
| RegisterForm.ParseUserType | frontend/src/pages/register.tsx:25 | the enum admits exactly the three lower-case option values of `userTypes` |
| RegisterForm.Validate | frontend/src/pages/register.tsx:20-32 | the form is accepted exactly when the name has at least 3 characters, the email is accepted, both passwords have at least 6, the user type is valid and the passwords match; every issue is reported on its rule's field |
| RegisterForm.ValidateReportsEachRule | frontend/src/pages/register.tsx:21-32 | each rule's issue is reported exactly when that rule fails; the mismatch is reported on `confirmPassword`, and only when the user type is valid |
| RegisterForm.DepartmentFieldsOptional | frontend/src/pages/register.tsx:26-28 | the department fields never affect validation |
| RegisterForm.ShowDepartments | frontend/src/pages/register.tsx:45 | the department section is shown exactly for the 'staff' and 'admin' options |

## Left out

- The mailer (`auth-service/src/config/mail.ts`) is reduced to a log of the messages it is asked to send: recipient, tag and verification token. SMTP, the HTML body and delivery errors, which it only logs, are not modelled.
- `sendVerificationEmail` is declared with one parameter (mail.ts:13) but is called with three (authController.ts:50). The model records all three.
- The mail's body is a form that POSTs the email to `/verify-email` (mail.ts:20-21). The verification route reads a token from the URL (authController.ts:61). The model lets the token reach `verifyEmail`; the link as written does not carry it.
- `auth-service/src/app.ts` and `auth-service/src/routes/authRoutes.ts`, the Express wiring, are not part of this model. authRoutes.ts:2 imports `verify`, which the controller does not export (it exports `verifyEmail`).
- Crypto.HashInjective: bcrypt hashes only the first 72 bytes of a password, so `compare` also accepts a different password that shares those bytes. The model's injective `Hash` does not capture this; the "wrong password gives 400" clause of `LoginAnswers` holds only for passwords that differ within their first 72 bytes.
- bcrypt salting and cost factor, JWT signature cryptography and the 1-day token expiry are not modelled. They are covered only by the abstract `Hash`/`Compare` and `Sign`/`Verify`; an expired token is one of the tokens that do not verify.
- The Admin schema file is not part of this model. Admin documents are taken to have the User shape.
- Store I/O failures (a lost connection, a failing `findOne`) are not modelled. The 500 answers of `register` come only from a refused save, by validator or unique index. `LoginOutcome`: the 500 "Error logging in" catch path is not reachable in the model, for the same reason.
- `VerifyEmailOutcome`: its catch-all also turns a store error during the save into 400 "Invalid or expired token". The model has no such error, so only a bad token takes that path.
- Request fields are modelled as present strings. A missing `email`, `username` or `password`, where bcrypt or the query would throw, is not modelled, and neither are non-string JSON values.
- `findOneAndUpdate({ admin_id })` updates at most one document. `CascadeVerified` updates every Department with that owner. The two agree whenever the invariant's "one Department per Admin" holds, which every reachable store satisfies.
- Concurrent requests, async scheduling and the duplicate-registration race between `findOne` and `save` are not modelled. Handlers run one at a time.
- The `created_at`/`updated_at` timestamps (User.ts:11-12, Staff.ts:13-14) are not modelled.
- The registration page's React rendering, `useState`, the react-hook-form wiring, the hard-coded `departments` list and the `onSubmit` stub, which only logs the data, are not modelled.
- The `error` field that `register`'s 500 reply and `verifyEmail`'s catch-all 400 reply add to their JSON body is not modelled; a `Response` carries the status, the message and the login's token and tag only.
- `RegisterForm.Validate`: zod's `.email()` regular expression is not modelled. Its verdict is the parameter `emailAccepted`.
- `RegisterForm.Validate`: zod counts string length in UTF-16 code units, and the model counts characters.
- `RegisterForm.Validate`: the model produces the issue list, not zod's error object or its formatting.
