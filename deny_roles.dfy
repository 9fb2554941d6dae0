/** The role-blocking middleware `denyRoles` (src/middleware/denyRoles.js). */
module Deny {
  import opened Common
  import opened Rbac

  /** `denyRoles(...blocked)`: 401 without a role, 403 for a blocked role,
      otherwise the request goes on. */
  function DenyRoles(blocked: set<string>, role: Option<string>): (r: Result<()>)
    ensures r.Ok? <==> !NoRole(role) && role.value !in blocked
    ensures NoRole(role) ==> r == Err(401, "Unauthorized")
    ensures !NoRole(role) && role.value in blocked ==> r == Err(403, "Forbidden")
  {
    if NoRole(role) then Err(401, "Unauthorized")
    else if role.value in blocked then Err(403, "Forbidden")
    else Ok(())
  }

  /** With nothing blocked, every request that carries a role passes. */
  lemma EmptyDenyListPassesEveryRole(role: Option<string>)
    ensures DenyRoles({}, role).Ok? <==> !NoRole(role)
  {
  }

  /** Denying a set of roles is the complement of allowing exactly that set:
      both answer 401 to the same requests, and for a request with a role one
      passes exactly when the other refuses with 403. */
  lemma DenyComplementsAuthorize(roles: set<string>, role: Option<string>)
    ensures DenyRoles(roles, role).Err? && DenyRoles(roles, role).status == 401 <==>
      AuthorizeRoles(roles, role).Err? && AuthorizeRoles(roles, role).status == 401
    ensures !NoRole(role) ==>
      (DenyRoles(roles, role).Ok? <==> AuthorizeRoles(roles, role) == Err(403, "Forbidden"))
  {
  }
}
