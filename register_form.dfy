/** The registration page's input rules: the `userTypes` radio options, the
    zod `schema` with its password-match refinement, and the
    `showDepartments` rule. Rendering and form state are not modelled. */
module RegisterForm {
  import opened Common

  /** The radio options, as value and label. The values are lower-case; the
      server's `getModel` expects the capitalised labels. */
  const userTypes: seq<(string, string)> := [("user", "User"), ("staff", "Staff"), ("admin", "Admin")]

  /** `z.enum(['user', 'staff', 'admin'])`. */
  datatype FormUserType = UserOption | StaffOption | AdminOption

  function OptionValue(t: FormUserType): string
  {
    match t
    case UserOption => "user"
    case StaffOption => "staff"
    case AdminOption => "admin"
  }

  /** The enum check: it admits exactly the three option values (an
      unselected radio leaves the field undefined). */
  function ParseUserType(s: Option<string>): (r: Option<FormUserType>)
    ensures forall t :: r == Some(t) <==> s == Some(OptionValue(t))
    ensures r.Some? <==> exists i :: 0 <= i < |userTypes| && s == Some(userTypes[i].0)
  {
    if s == Some("user") then assert userTypes[0].0 == "user"; Some(UserOption)
    else if s == Some("staff") then assert userTypes[1].0 == "staff"; Some(StaffOption)
    else if s == Some("admin") then assert userTypes[2].0 == "admin"; Some(AdminOption)
    else None
  }

  /** The form's values. The department fields are optional strings. */
  datatype FormData = FormData(
    name: string,
    email: string,
    password: string,
    confirmPassword: string,
    userType: Option<string>,
    departmentId: Option<string>,
    departmentName: Option<string>,
    departmentDescription: Option<string>)

  datatype Field = NameField | EmailField | PasswordField | ConfirmPasswordField | UserTypeField

  /** The schema's rules, each with its own message. */
  datatype Rule = NameMin | EmailFormat | PasswordMin | ConfirmMin | UserTypeEnum | PasswordsMatch

  function Message(rule: Rule): string
  {
    match rule
    case NameMin => "Name should have at least 3 characters"
    case EmailFormat => "Invalid email format"
    case PasswordMin => "Password should be at least 6 characters"
    case ConfirmMin => "Confirm password should be at least 6 characters"
    case UserTypeEnum => "Please select a valid user type"
    case PasswordsMatch => "Passwords don't match"
  }

  /** One zod issue: the path it is reported on and the rule that failed
      (its message is `Message(rule)`). */
  datatype Issue = Issue(path: Field, rule: Rule)

  /** One check of the schema: its issue when it fails, nothing otherwise. */
  function Check(failed: bool, path: Field, rule: Rule): seq<Issue>
  {
    if failed then [Issue(path, rule)] else []
  }

  /** The issues of the `z.object` part, in key order. `emailAccepted` is
      the verdict of zod's email check. */
  function ObjectIssues(d: FormData, emailAccepted: bool): seq<Issue>
  {
    Check(|d.name| < 3, NameField, NameMin)
    + Check(!emailAccepted, EmailField, EmailFormat)
    + Check(|d.password| < 6, PasswordField, PasswordMin)
    + Check(|d.confirmPassword| < 6, ConfirmPasswordField, ConfirmMin)
    + Check(ParseUserType(d.userType).None?, UserTypeField, UserTypeEnum)
  }

  /** `schema.safeParse(d)`. An invalid `userType` aborts the object parse,
      so the refinement does not run; a too-short string only marks the parse
      dirty, and the refinement still runs. The form is accepted exactly when
      there is no issue; each rule is reported exactly when it fails, on its
      own field, the refinement's on `confirmPassword`. */
  function Validate(d: FormData, emailAccepted: bool): (issues: seq<Issue>)
    ensures issues == [] <==>
              && |d.name| >= 3 && emailAccepted
              && |d.password| >= 6 && |d.confirmPassword| >= 6
              && ParseUserType(d.userType).Some?
              && d.password == d.confirmPassword
    ensures forall x :: x in issues ==> x.path == FieldOf(x.rule)
  {
    ObjectIssues(d, emailAccepted)
    + Check(ParseUserType(d.userType).Some? && d.password != d.confirmPassword, ConfirmPasswordField, PasswordsMatch)
  }

  /** The field each rule is reported on. */
  function FieldOf(rule: Rule): Field
  {
    match rule
    case NameMin => NameField
    case EmailFormat => EmailField
    case PasswordMin => PasswordField
    case ConfirmMin => ConfirmPasswordField
    case UserTypeEnum => UserTypeField
    case PasswordsMatch => ConfirmPasswordField
  }

  /** When each rule fails, stated field by field as the schema declares it;
      the refinement is judged only when the enum check passed. */
  predicate Fails(d: FormData, emailAccepted: bool, rule: Rule)
  {
    match rule
    case NameMin => |d.name| < 3
    case EmailFormat => !emailAccepted
    case PasswordMin => |d.password| < 6
    case ConfirmMin => |d.confirmPassword| < 6
    case UserTypeEnum => ParseUserType(d.userType).None?
    case PasswordsMatch => ParseUserType(d.userType).Some? && d.password != d.confirmPassword
  }

  /** Each rule's issue is reported, on its own field, exactly when the rule
      fails. */
  lemma ValidateReportsEachRule(d: FormData, emailAccepted: bool, rule: Rule)
    ensures Issue(FieldOf(rule), rule) in Validate(d, emailAccepted) <==> Fails(d, emailAccepted, rule)
  {
    var obj := ObjectIssues(d, emailAccepted);
    match rule
    case PasswordsMatch =>
      assert Issue(ConfirmPasswordField, PasswordsMatch) !in obj;
    case _ =>
  }

  /** The department fields are optional: they never affect validation. */
  lemma DepartmentFieldsOptional(d: FormData, id: Option<string>, name: Option<string>, desc: Option<string>, emailAccepted: bool)
    ensures Validate(d.(departmentId := id, departmentName := name, departmentDescription := desc), emailAccepted)
            == Validate(d, emailAccepted)
  {
  }

  /** `userType === 'staff' || userType === 'admin'`. */
  function ShowDepartments(userType: Option<string>): (show: bool)
    ensures show <==> ParseUserType(userType) == Some(StaffOption) || ParseUserType(userType) == Some(AdminOption)
  {
    userType == Some("staff") || userType == Some("admin")
  }
}
