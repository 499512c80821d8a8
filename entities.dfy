/** The typed records the application passes to the local store: a profile, a
    branch and a branch assignment. They carry no behaviour; `RoleName` gives
    the text the `role` columns hold. */
module Entities {
  import opened Rows

  datatype Role = Admin | Manager | User

  function RoleName(r: Role): (name: string)
    ensures name in {"admin", "manager", "user"}
  {
    match r
    case Admin => "admin"
    case Manager => "manager"
    case User => "user"
  }

  datatype Profile = Profile(
    id: string,
    email: string,
    name: string,
    role: Role,
    created_at: Option<Time>,
    updated_at: Option<Time>,
    synced_at: Option<Time>,
    is_synced: Option<int>)

  /** A branch; `deleted` is a flag the remote side sets and the local store never reads. */
  datatype Branch = Branch(
    id: string,
    name: string,
    address: string,
    created_at: Option<Time>,
    updated_at: Option<Time>,
    deleted: Option<bool>)

  /** An assignment role is `manager` or `user`, never `admin`. */
  datatype AssignmentRole = AssignedManager | AssignedUser

  datatype BranchAssignment = BranchAssignment(
    branch_id: string,
    user_id: string,
    role: AssignmentRole,
    assigned_at: Option<Time>)

  /** An optional timestamp as a column value: absent becomes NULL (`?? null`). */
  function TimeValue(t: Option<Time>): Value {
    match t
    case Some(v) => Int(v)
    case None => Null
  }
}
