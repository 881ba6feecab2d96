/** The `USER_TYPES` constant and the `auth_user` schema. The controller does
    not use this collection; it is modelled as declared. */
module AuthUserModel {
  import opened Common

  /** `Object.values(USER_TYPES)`, in declaration order. */
  const USER_TYPES: seq<string> := ["Admin", "Staff", "User"]

  /** USER_TYPES holds exactly the three role tags, each once. */
  lemma UserTypesAreThree()
    ensures |USER_TYPES| == 3
    ensures forall t :: t in USER_TYPES <==> t == "Admin" || t == "Staff" || t == "User"
    ensures forall i, j :: 0 <= i < j < |USER_TYPES| ==> USER_TYPES[i] != USER_TYPES[j]
  {
  }

  /** `password` is a plain string field in this schema. */
  datatype AuthUserRecord = AuthUserRecord(
    email: string,
    username: string,
    password: string,
    user_type: string,
    is_verified: bool,
    verification_status: VerificationStatus)

  /** `new auth_user({ ... })`: the given fields plus the schema defaults. */
  function NewAuthUser(email: string, username: string, password: string, user_type: string): (r: AuthUserRecord)
    ensures r.email == email && r.username == username && r.password == password
    ensures r.user_type == user_type
    ensures !r.is_verified && r.verification_status == DefaultStatus
  {
    AuthUserRecord(email, username, password, user_type, false, DefaultStatus)
  }

  /** The validators: the four required strings are non-empty and `user_type`
      is one of USER_TYPES. */
  predicate Admissible(r: AuthUserRecord)
  {
    r.email != "" && r.username != "" && r.password != "" && r.user_type in USER_TYPES
  }

  /** Keyed by email; the unique index on `username` holds. */
  predicate Unique(c: map<string, AuthUserRecord>)
  {
    && (forall e :: e in c ==> c[e].email == e)
    && (forall e1, e2 :: e1 in c && e2 in c && e1 != e2 ==> c[e1].username != c[e2].username)
  }

  /** `doc.save()` of a new auth_user: refused unless the validators pass and
      email and username are free; an admitted document keeps the collection
      unique and every stored document admissible. */
  function Save(c: map<string, AuthUserRecord>, r: AuthUserRecord): (result: Option<map<string, AuthUserRecord>>)
    ensures result.Some? <==>
              Admissible(r) && r.email !in c && (forall e :: e in c ==> c[e].username != r.username)
    ensures result.Some? ==> result.value == c[r.email := r]
    ensures result.Some? && Unique(c) ==> Unique(result.value)
    ensures result.Some? && (forall e :: e in c ==> Admissible(c[e])) ==>
              forall e :: e in result.value ==> result.value[e].user_type in USER_TYPES
  {
    if Admissible(r) && r.email !in c && (forall e :: e in c ==> c[e].username != r.username)
    then Some(c[r.email := r])
    else None
  }
}
