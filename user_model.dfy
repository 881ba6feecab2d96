/** The `User` schema. The controller also stores Admin documents in this
    shape: the Admin schema is not part of this model and is taken to declare
    the same fields. */
module UserModel {
  import opened Common
  import opened Crypto

  /** One stored document. `password` holds the bcrypt digest; `phone` is the
      only optional field. The `created_at`/`updated_at` timestamps are not
      modelled. */
  datatype UserRecord = UserRecord(
    id: ObjectId,
    email: string,
    username: string,
    password: Digest,
    name: string,
    phone: Option<string>,
    is_verified: bool,
    verification_status: VerificationStatus)

  /** `new User({ ... })`: the given fields plus the schema defaults. */
  function NewUser(id: ObjectId, email: string, username: string, password: Digest,
                   name: string, phone: Option<string>): (r: UserRecord)
    ensures r.id == id && r.email == email && r.username == username
    ensures r.password == password && r.name == name && r.phone == phone
    ensures !r.is_verified && r.verification_status == DefaultStatus
  {
    UserRecord(id, email, username, password, name, phone, false, DefaultStatus)
  }

  /** The `required: true` string fields are present and non-empty (Mongoose's
      required validator refuses ""); the digest is always present. */
  predicate HasRequired(r: UserRecord)
  {
    r.email != "" && r.username != "" && r.name != ""
  }

  /** A collection keyed by email in which the unique indexes on `_id`,
      `email` and `username` hold. */
  predicate Unique(c: map<string, UserRecord>)
  {
    && (forall e :: e in c ==> c[e].email == e)
    && (forall e1, e2 :: e1 in c && e2 in c && e1 != e2 ==>
          c[e1].username != c[e2].username && c[e1].id != c[e2].id)
  }

  /** `doc.save()` of a new document: the validators and unique indexes either
      admit it, and it is inserted, or the save throws (`None`). */
  function Save(c: map<string, UserRecord>, r: UserRecord): (result: Option<map<string, UserRecord>>)
    ensures result.Some? <==>
              && HasRequired(r)
              && r.email !in c
              && (forall e :: e in c ==> c[e].username != r.username && c[e].id != r.id)
    ensures result.Some? ==> result.value == c[r.email := r]
    ensures result.Some? && Unique(c) ==> Unique(result.value)
  {
    if && HasRequired(r)
       && r.email !in c
       && (forall e :: e in c ==> c[e].username != r.username && c[e].id != r.id)
    then Some(c[r.email := r])
    else None
  }
}
