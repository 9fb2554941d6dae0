/** The user directory record (src/models/User.js) and the role names the
    controllers compare against. Roles are plain strings in the service:
    a request may carry any string, including one no table knows. */
module Users {
  import opened Common

  const ADMIN: string := "Admin"
  const LEAD_MANAGER: string := "LeadManager"
  const BRANCH_MANAGER: string := "BranchManager"
  const HR: string := "HR"
  const TEAM_LEAD: string := "TeamLead"
  const EMPLOYEE: string := "Employee"

  /** Payroll figures stored on the user (amounts are whole currency units). */
  datatype Salary = Salary(basic: int, allowances: int, deductions: int)

  datatype User = User(
    id: Id,
    name: string,
    email: string,
    password: string,
    role: string,
    branch: string,
    salary: Salary,
    reportsTo: Option<Id>)

  /** Ids are unique in the directory (the database primary key). */
  predicate DistinctIds(users: seq<User>)
  {
    forall i, j :: 0 <= i < j < |users| ==> users[i].id != users[j].id
  }

  function IdOf(u: User): Id { u.id }
  function EmailOf(u: User): string { u.email }

  /** A `findOne` on one field: the first record whose `key` is `value`. */
  function FindFirst<K(==)>(users: seq<User>, key: User -> K, value: K): (r: Option<User>)
    ensures r.Some? ==> r.value in users && key(r.value) == value
    ensures r.None? <==> forall i :: 0 <= i < |users| ==> key(users[i]) != value
  {
    if users == [] then None
    else if key(users[0]) == value then Some(users[0])
    else FindFirst(users[1..], key, value)
  }

  /** Appending a record whose key no earlier record has makes it the one
      found. */
  lemma {:induction false} FindFirstAppend<K>(users: seq<User>, key: User -> K, u: User)
    requires FindFirst(users, key, key(u)).None?
    ensures FindFirst(users + [u], key, key(u)) == Some(u)
  {
    if users != [] {
      assert (users + [u])[1..] == users[1..] + [u];
      FindFirstAppend(users[1..], key, u);
    }
  }

  /** `User.findById`: the directory record with this id, if there is one. */
  function FindById(users: seq<User>, id: Id): (r: Option<User>)
    ensures r.Some? ==> r.value in users && r.value.id == id
    ensures r.None? <==> forall i :: 0 <= i < |users| ==> users[i].id != id
  {
    FindFirst(users, IdOf, id)
  }

  /** `User.findOne({ email })`: the first directory record with this email. */
  function FindByEmail(users: seq<User>, email: string): (r: Option<User>)
    ensures r.Some? ==> r.value in users && r.value.email == email
    ensures r.None? <==> forall i :: 0 <= i < |users| ==> users[i].email != email
  {
    FindFirst(users, EmailOf, email)
  }
}
