/** Shared vocabulary of the auth service's schemas: optional values, Mongo
    object ids and the three-value `verification_status` enum that the User,
    Staff, Department and auth_user schemas all declare. */
module Common {

  datatype Option<T> = None | Some(value: T)

  /** A Mongo ObjectId. The store hands out fresh ones from a counter. */
  type ObjectId = nat

  /** `enum: ["Pending", "Verified", "Rejected"]`, default "Pending". */
  datatype VerificationStatus = Pending | Verified | Rejected

  /** The schema default of `verification_status`. */
  const DefaultStatus: VerificationStatus := Pending

  function StatusName(s: VerificationStatus): string
  {
    match s
    case Pending => "Pending"
    case Verified => "Verified"
    case Rejected => "Rejected"
  }

  /** Mongoose's enum validator: a string is admitted exactly when it is the
      name of one of the three statuses, and then it denotes that status. */
  function ParseStatus(s: string): (r: Option<VerificationStatus>)
    ensures forall st :: r == Some(st) <==> StatusName(st) == s
    ensures r.None? <==> s != "Pending" && s != "Verified" && s != "Rejected"
  {
    if s == "Pending" then Some(Pending)
    else if s == "Verified" then Some(Verified)
    else if s == "Rejected" then Some(Rejected)
    else None
  }

  /** `a || b` on an optional string in JavaScript: the fallback is used when
      the value is absent or is the falsy empty string. */
  function OrElse(s: Option<string>, fallback: string): (r: string)
    ensures s.Some? && s.value != "" ==> r == s.value
    ensures s.None? || s.value == "" ==> r == fallback
  {
    if s.Some? && s.value != "" then s.value else fallback
  }

  /** JavaScript truthiness of an optional string: present and non-empty. */
  predicate Truthy(s: Option<string>): (t: bool)
    ensures t <==> OrElse(s, "") != ""
    ensures t ==> OrElse(s, "") == s.value
  {
    s.Some? && s.value != ""
  }
}
