/** Role ranks and the authorisation middlewares (src/middleware/rbac.js). */
module Rbac {
  import opened Common
  import opened Users

  /** `ROLE_RANK`: a higher number means more privilege; None for a role the
      table does not list. */
  function Rank(role: string): Option<nat>
  {
    if role == ADMIN || role == LEAD_MANAGER then Some(3)
    else if role == BRANCH_MANAGER || role == HR then Some(2)
    else if role == TEAM_LEAD then Some(1)
    else if role == EMPLOYEE then Some(0)
    else None
  }

  /** `canManageTargetUser`: may a user holding `actor` assign to or manage a
      user holding `target`? */
  function CanManageTargetUser(actor: string, target: string): (b: bool)
    ensures b ==> Rank(actor).Some? && Rank(target).Some?
    ensures b ==> Rank(actor).value > Rank(target).value
    ensures b ==> target != ADMIN
  {
    if Rank(actor).None? || Rank(target).None? then false
    else if target == ADMIN && actor != ADMIN then false
    else Rank(actor).value > Rank(target).value
  }

  /** Whom each role may manage, as the comment above the function describes
      it: Admin and LeadManager everyone below them, HR and BranchManager the
      TeamLeads and Employees, a TeamLead the Employees. */
  function DocumentedReach(actor: string): set<string>
  {
    if actor == ADMIN || actor == LEAD_MANAGER then {BRANCH_MANAGER, HR, TEAM_LEAD, EMPLOYEE}
    else if actor == BRANCH_MANAGER || actor == HR then {TEAM_LEAD, EMPLOYEE}
    else if actor == TEAM_LEAD then {EMPLOYEE}
    else {}
  }

  /** The rank comparison grants exactly the documented reach. */
  lemma CanManageMatchesDocumentedReach(actor: string, target: string)
    ensures CanManageTargetUser(actor, target) <==> target in DocumentedReach(actor)
  {
    if target in DocumentedReach(actor) {
      assert Rank(target).Some? && Rank(target).value < 3;
    }
  }

  /** Unknown roles on either side never grant anything. */
  lemma UnknownRolesManageNothing(actor: string, target: string)
    requires Rank(actor).None? || Rank(target).None?
    ensures !CanManageTargetUser(actor, target)
  {
  }

  /** Nobody manages an Admin: other roles are refused outright, and an Admin
      does not outrank another Admin. */
  lemma NobodyManagesAdmin(actor: string)
    ensures !CanManageTargetUser(actor, ADMIN)
  {
  }

  /** For known roles the answer is the strict rank comparison: the explicit
      Admin guard never changes it. */
  lemma CanManageIffOutranks(actor: string, target: string)
    requires Rank(actor).Some? && Rank(target).Some?
    ensures CanManageTargetUser(actor, target) <==> Rank(actor).value > Rank(target).value
  {
  }

  /** The relation is a strict order: irreflexive, asymmetric and transitive,
      and roles of equal rank (BranchManager and HR, Admin and LeadManager)
      cannot manage each other. */
  lemma CanManageIsStrictOrder(a: string, b: string, c: string)
    ensures !CanManageTargetUser(a, a)
    ensures CanManageTargetUser(a, b) ==> !CanManageTargetUser(b, a)
    ensures CanManageTargetUser(a, b) && CanManageTargetUser(b, c) ==> CanManageTargetUser(a, c)
    ensures Rank(a) == Rank(b) ==> !CanManageTargetUser(a, b) && !CanManageTargetUser(b, a)
  {
  }

  /** `!role`: the request carries no role, or an empty one. */
  predicate NoRole(role: Option<string>)
  {
    role.None? || role.value == ""
  }

  /** `authorizeRoles(...allowed)`: 401 without a role, 403 for a role outside
      the allowed set, otherwise the request goes on. */
  function AuthorizeRoles(allowed: set<string>, role: Option<string>): (r: Result<()>)
    ensures r.Ok? <==> !NoRole(role) && role.value in allowed
    ensures NoRole(role) ==> r == Err(401, "Unauthorized")
    ensures !NoRole(role) && role.value !in allowed ==> r == Err(403, "Forbidden")
  {
    if NoRole(role) then Err(401, "Unauthorized")
    else if role.value !in allowed then Err(403, "Forbidden")
    else Ok(())
  }

  /** Allowing more roles never refuses a request that was let through. */
  lemma AuthorizeRolesMonotone(allowed: set<string>, more: set<string>, role: Option<string>)
    requires allowed <= more
    ensures AuthorizeRoles(allowed, role).Ok? ==> AuthorizeRoles(more, role).Ok?
  {
  }

  /** A missing or empty id does not select a target (JavaScript `||`). */
  predicate NoId(id: Option<Id>)
  {
    id.None? || id.value == ""
  }

  /** `req.body.assignedTo || req.params.userId || req.query.targetUserId`. */
  function TargetId(assignedTo: Option<Id>, userId: Option<Id>, targetUserId: Option<Id>): (r: Option<Id>)
    ensures r.None? <==> NoId(assignedTo) && NoId(userId) && NoId(targetUserId)
    ensures !NoId(assignedTo) ==> r == assignedTo
    ensures NoId(assignedTo) && !NoId(userId) ==> r == userId
    ensures r.Some? ==> r.value != ""
  {
    if !NoId(assignedTo) then assignedTo
    else if !NoId(userId) then userId
    else if !NoId(targetUserId) then targetUserId
    else None
  }

  /** `requireCanManageTarget`: the target user the request may go on with,
      or the answer that stops it. `lookupFails` stands for the directory
      query throwing. */
  function RequireCanManageTarget(actorRole: string, assignedTo: Option<Id>, userId: Option<Id>,
                                  targetUserId: Option<Id>, directory: seq<User>, lookupFails: bool): (r: Result<User>)
    ensures r.Ok? ==> r.value in directory && TargetId(assignedTo, userId, targetUserId) == Some(r.value.id)
    ensures r.Ok? ==> CanManageTargetUser(actorRole, r.value.role)
    ensures TargetId(assignedTo, userId, targetUserId).None? ==> r == Err(400, "Target user id missing")
    ensures TargetId(assignedTo, userId, targetUserId).Some? && lookupFails ==> r == Err(500, "Server Error")
    ensures r == Err(404, "Target user not found") <==>
      TargetId(assignedTo, userId, targetUserId).Some? && !lookupFails &&
      forall i :: 0 <= i < |directory| ==> directory[i].id != TargetId(assignedTo, userId, targetUserId).value
    ensures r == Err(403, "You are not allowed to manage this user") <==>
      TargetId(assignedTo, userId, targetUserId).Some? && !lookupFails &&
      FindById(directory, TargetId(assignedTo, userId, targetUserId).value).Some? &&
      !CanManageTargetUser(actorRole, FindById(directory, TargetId(assignedTo, userId, targetUserId).value).value.role)
  {
    var targetId := TargetId(assignedTo, userId, targetUserId);
    if targetId.None? then Err(400, "Target user id missing")
    else if lookupFails then Err(500, "Server Error")
    else
      var target := FindById(directory, targetId.value);
      if target.None? then Err(404, "Target user not found")
      else if !CanManageTargetUser(actorRole, target.value.role) then Err(403, "You are not allowed to manage this user")
      else Ok(target.value)
  }
}
