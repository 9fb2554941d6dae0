/** The attendance gate in front of the data routes
    (src/middleware/gatekeeper.js). */
module Gatekeeper {
  import opened Common
  import opened Users

  /** Roles that need no attendance record to reach data. */
  predicate Immune(role: string)
  {
    role == ADMIN || role == BRANCH_MANAGER
  }

  /** `gatekeeper`: `clockedIn` holds the (user, date) keys of the attendance
      records; `lookupFails` stands for the attendance query throwing. */
  function Gatekeeper(role: string, userId: Id, today: string,
                      clockedIn: set<(Id, string)>, lookupFails: bool): (r: Result<()>)
    ensures Immune(role) ==> r.Ok?
    ensures !Immune(role) ==> (r.Ok? <==> !lookupFails && (userId, today) in clockedIn)
    ensures !Immune(role) && lookupFails ==> r == Err(500, "Gatekeeper Error")
    ensures !Immune(role) && !lookupFails && (userId, today) !in clockedIn ==>
      r == Err(403, "ACCESS DENIED: You must clock in to access data.")
  {
    if Immune(role) then Ok(())
    else if lookupFails then Err(500, "Gatekeeper Error")
    else if (userId, today) !in clockedIn then Err(403, "ACCESS DENIED: You must clock in to access data.")
    else Ok(())
  }

  /** Admins and BranchManagers are let through without consulting the
      attendance records: the answer is the same whatever the store holds. */
  lemma ImmuneRolesSkipLookup(role: string, userId: Id, today: string,
                              s1: set<(Id, string)>, f1: bool, s2: set<(Id, string)>, f2: bool)
    requires Immune(role)
    ensures Gatekeeper(role, userId, today, s1, f1) == Gatekeeper(role, userId, today, s2, f2)
  {
  }

  /** A clock-in on another day, or by another user, does not open the gate. */
  lemma GateIsPerUserAndDay(role: string, userId: Id, today: string, clockedIn: set<(Id, string)>, other: (Id, string))
    requires !Immune(role) && other != (userId, today)
    ensures Gatekeeper(role, userId, today, clockedIn + {other}, false) == Gatekeeper(role, userId, today, clockedIn, false)
  {
  }
}
