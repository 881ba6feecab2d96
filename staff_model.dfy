/** The `Staff` schema: the User fields plus two optional references. */
module StaffModel {
  import opened Common
  import opened Crypto

  /** `department_id` refers to a Department and `verified_by` to an Admin;
      both are optional, and Mongoose does not check that the referenced
      document exists. The timestamps are not modelled. */
  datatype StaffRecord = StaffRecord(
    id: ObjectId,
    email: string,
    username: string,
    password: Digest,
    name: string,
    phone: Option<string>,
    department_id: Option<ObjectId>,
    is_verified: bool,
    verification_status: VerificationStatus,
    verified_by: Option<ObjectId>)

  /** `new Staff({ ... })`: the given fields plus the schema defaults. The
      approver reference is never set at creation. */
  function NewStaff(id: ObjectId, email: string, username: string, password: Digest,
                    name: string, phone: Option<string>, department_id: Option<ObjectId>): (r: StaffRecord)
    ensures r.id == id && r.email == email && r.username == username
    ensures r.password == password && r.name == name && r.phone == phone
    ensures r.department_id == department_id
    ensures !r.is_verified && r.verification_status == DefaultStatus
    ensures r.verified_by == None
  {
    StaffRecord(id, email, username, password, name, phone, department_id, false, DefaultStatus, None)
  }

  predicate HasRequired(r: StaffRecord)
  {
    r.email != "" && r.username != "" && r.name != ""
  }

  /** Keyed by email; the unique indexes on `_id`, `email` and `username` hold. */
  predicate Unique(c: map<string, StaffRecord>)
  {
    && (forall e :: e in c ==> c[e].email == e)
    && (forall e1, e2 :: e1 in c && e2 in c && e1 != e2 ==>
          c[e1].username != c[e2].username && c[e1].id != c[e2].id)
  }

  /** `doc.save()` of a new Staff document. */
  function Save(c: map<string, StaffRecord>, r: StaffRecord): (result: Option<map<string, StaffRecord>>)
    ensures result.Some? <==>
              && HasRequired(r)
              && r.email !in c
              && (forall e :: e in c ==> c[e].username != r.username && c[e].id != r.id)
    ensures result.Some? ==> result.value == c[r.email := r]
    ensures result.Some? && Unique(c) ==> Unique(result.value)
  {
    if && HasRequired(r)
       && r.email !in c
       && (forall e :: e in c ==> c[e].username != r.username && c[e].id != r.id)
    then Some(c[r.email := r])
    else None
  }
}
