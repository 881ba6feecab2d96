/** The `Department` schema. */
module DepartmentModel {
  import opened Common

  /** `admin_id` is required, so every Department names an owning Admin. */
  datatype DepartmentRecord = DepartmentRecord(
    id: ObjectId,
    name: string,
    description: string,
    admin_id: ObjectId,
    verification_status: VerificationStatus)

  /** The schema default of `description`. */
  const DefaultDescription: string := ""

  /** `new Department({ ... })`: omitted `description` and
      `verification_status` take their schema defaults. */
  function NewDepartment(id: ObjectId, name: string, description: Option<string>,
                         admin_id: ObjectId, status: Option<VerificationStatus>): (d: DepartmentRecord)
    ensures d.id == id && d.name == name && d.admin_id == admin_id
    ensures d.description == (if description.Some? then description.value else DefaultDescription)
    ensures d.verification_status == (if status.Some? then status.value else DefaultStatus)
  {
    DepartmentRecord(id, name,
                     if description.Some? then description.value else DefaultDescription,
                     admin_id,
                     if status.Some? then status.value else DefaultStatus)
  }

  /** `doc.save()` of a new Department: `name` is required (non-empty) and
      `_id` is unique. */
  function Save(c: map<ObjectId, DepartmentRecord>, d: DepartmentRecord): (result: Option<map<ObjectId, DepartmentRecord>>)
    ensures result.Some? <==> d.name != "" && d.id !in c
    ensures result.Some? ==> result.value == c[d.id := d] && d.id in result.value
    ensures result.Some? && (forall k :: k in c ==> c[k].id == k) ==>
              forall k :: k in result.value ==> result.value[k].id == k
  {
    if d.name != "" && d.id !in c then Some(c[d.id := d]) else None
  }
}
