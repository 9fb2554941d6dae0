/** Account creation and sign-in (src/controllers/authController.js): each
    manager creates the accounts one step below it and becomes their
    manager; sign-in looks the account up by trimmed email and compares the
    stored password. */
module Auth {
  import opened Common
  import opened Text
  import opened Users
  import opened Rbac

  /** The role ladder of `registerUser`: Admin creates branch managers, a
      branch manager creates team leads, a team lead creates employees;
      nobody else may create accounts. */
  function NewUserRole(creatorRole: string): (r: Option<string>)
    ensures r.Some? <==> creatorRole == ADMIN || creatorRole == BRANCH_MANAGER || creatorRole == TEAM_LEAD
    ensures r.Some? ==> r.value == BRANCH_MANAGER || r.value == TEAM_LEAD || r.value == EMPLOYEE
  {
    if creatorRole == ADMIN then Some(BRANCH_MANAGER)
    else if creatorRole == BRANCH_MANAGER then Some(TEAM_LEAD)
    else if creatorRole == TEAM_LEAD then Some(EMPLOYEE)
    else None
  }

  /** Each rung goes exactly one rank down, so a creator can always manage
      the accounts it creates; no rung creates Admin, HR or a lead manager. */
  lemma LadderStepsDownOneRank(creatorRole: string)
    requires NewUserRole(creatorRole).Some?
    ensures Rank(creatorRole).Some? && Rank(NewUserRole(creatorRole).value).Some?
    ensures Rank(NewUserRole(creatorRole).value).value + 1 == Rank(creatorRole).value
    ensures CanManageTargetUser(creatorRole, NewUserRole(creatorRole).value)
    ensures NewUserRole(creatorRole).value !in {ADMIN, HR, LEAD_MANAGER}
  {
  }

  /** The user `registerUser` saves: the schema defaults for branch and
      salary, and the creator as manager. */
  function NewAccount(id: Id, name: string, email: string, password: string, role: string, creatorId: Id): User
  {
    User(id, name, email, password, role, "", Salary(0, 0, 0), Some(creatorId))
  }

  /** `login`: the email is trimmed before the lookup (a missing email makes
      the trim throw, answered with 500); an unknown email and a password
      that differs from the stored one each answer 400. On success the
      account the token is issued for. */
  function Login(users: seq<User>, email: Option<string>, password: Option<string>): (r: Result<User>)
    ensures email.None? ==> r == Err(500, "Server Error")
    ensures email.Some? && FindByEmail(users, Trim(email.value)).None? ==> r == Err(400, "User not found")
    ensures email.Some? && FindByEmail(users, Trim(email.value)).Some? && password != Some(FindByEmail(users, Trim(email.value)).value.password) ==>
      r == Err(400, "Invalid Credentials")
    ensures r.Ok? <==>
      email.Some? && FindByEmail(users, Trim(email.value)).Some? && password == Some(FindByEmail(users, Trim(email.value)).value.password)
    ensures r.Ok? ==> r.value in users && r.value.email == Trim(email.value) && password == Some(r.value.password)
  {
    if email.None? then Err(500, "Server Error")
    else
      var user := FindByEmail(users, Trim(email.value));
      if user.None? then Err(400, "User not found")
      else if password != Some(user.value.password) then Err(400, "Invalid Credentials")
      else Ok(user.value)
  }

  /** Trimming twice is trimming once. */
  lemma TrimIdempotent(s: string)
    ensures Trim(Trim(s)) == Trim(s)
  {
    var t := Trim(s);
    if t != [] {
      assert TrimStart(t) == t;
      assert TrimEnd(t) == t;
    }
  }

  /** An account whose stored email has leading or trailing white space can
      never sign in: registration stores the email as given, while sign-in
      looks up the trimmed input. */
  lemma PaddedEmailNeverSignsIn(users: seq<User>, email: Option<string>, password: Option<string>)
    requires Login(users, email, password).Ok?
    ensures Trim(Login(users, email, password).value.email) == Login(users, email, password).value.email
  {
    TrimIdempotent(email.value);
  }

  /** No two accounts share an email (the schema's unique index). */
  predicate DistinctEmails(users: seq<User>)
  {
    forall i, j :: 0 <= i < j < |users| ==> users[i].email != users[j].email
  }

  /** The accounts directory. */
  class Directory {
    var users: seq<User>

    constructor(users: seq<User>)
      ensures this.users == users
    {
      this.users := users;
    }

    /** `registerUser`. `freshId` is the id the store assigns to the new
        account. The name, email and password are required by the schema
        (an empty one fails validation, answered with 500). */
    method Register(creatorRole: string, creatorId: Id, name: string, email: string, password: string, freshId: Id)
      returns (r: Result<string>)
      requires FindById(users, freshId).None?
      modifies this
      ensures NewUserRole(creatorRole).None? ==> r == Err(403, "You are not authorized to create users.")
      ensures NewUserRole(creatorRole).Some? && FindByEmail(old(users), email).Some? ==>
        r == Err(400, "User already exists")
      ensures NewUserRole(creatorRole).Some? && FindByEmail(old(users), email).None? && (name == "" || email == "" || password == "") ==>
        r == Err(500, "Server Error")
      ensures r.Ok? <==>
        NewUserRole(creatorRole).Some? && FindByEmail(old(users), email).None? && name != "" && email != "" && password != ""
      ensures r.Ok? ==>
        var role := NewUserRole(creatorRole).value;
        r.value == "Success! Created " + role + ": " + name &&
        users == old(users) + [NewAccount(freshId, name, email, password, role, creatorId)]
      ensures r.Err? ==> users == old(users)
      ensures DistinctEmails(old(users)) ==> DistinctEmails(users)
      ensures DistinctIds(old(users)) ==> DistinctIds(users)
    {
      var role := NewUserRole(creatorRole);
      if role.None? {
        return Err(403, "You are not authorized to create users.");
      }
      if FindByEmail(users, email).Some? {
        return Err(400, "User already exists");
      }
      if name == "" || email == "" || password == "" {
        return Err(500, "Server Error");
      }
      users := users + [NewAccount(freshId, name, email, password, role.value, creatorId)];
      r := Ok("Success! Created " + role.value + ": " + name);
    }
  }

  /** A freshly registered account whose email has no surrounding white
      space signs in with its own email and password. */
  lemma RegisteredAccountSignsIn(users: seq<User>, u: User)
    requires FindByEmail(users, u.email).None? && Trim(u.email) == u.email
    ensures Login(users + [u], Some(u.email), Some(u.password)) == Ok(u)
  {
    FindFirstAppend(users, EmailOf, u);
  }
}
