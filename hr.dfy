/** The HR desk (src/controllers/hrController.js): the headcount summary,
    the organisation chart and the monthly payroll runs
    (src/models/PayrollRun.js, src/models/PayrollItem.js). */
module Hr {
  import opened Common
  import opened Text
  import opened Users

  // ---------------------------------------------------------------------
  // Headcount
  // ---------------------------------------------------------------------

  /** Number of non-Admin users (the query excludes Admin). */
  function StaffCount(users: seq<User>): (n: nat)
    ensures n <= |users|
  {
    if users == [] then 0
    else StaffCount(users[..|users| - 1]) + (if users[|users| - 1].role != ADMIN then 1 else 0)
  }

  /** Number of non-Admin users holding `role`. */
  function RoleCount(users: seq<User>, role: string): (n: nat)
    ensures n <= StaffCount(users)
    ensures role == ADMIN ==> n == 0
  {
    if users == [] then 0
    else RoleCount(users[..|users| - 1], role) + (if users[|users| - 1].role != ADMIN && users[|users| - 1].role == role then 1 else 0)
  }

  /** The sum of the counts stored under `keys`. */
  function SumOver(keys: seq<string>, counts: map<string, nat>): nat
  {
    if keys == [] then 0
    else SumOver(keys[..|keys| - 1], counts) + (if keys[|keys| - 1] in counts then counts[keys[|keys| - 1]] else 0)
  }

  predicate Distinct(keys: seq<string>)
  {
    forall i, j :: 0 <= i < j < |keys| ==> keys[i] != keys[j]
  }

  /** Raising the count of a listed key by one raises the sum by one. */
  lemma {:induction false} SumOverBump(keys: seq<string>, counts: map<string, nat>, k: string)
    requires Distinct(keys) && k in keys && k in counts
    ensures SumOver(keys, counts[k := counts[k] + 1]) == SumOver(keys, counts) + 1
  {
    var n := |keys| - 1;
    if keys[n] == k {
      SumOverUnlisted(keys[..n], counts, k, counts[k] + 1);
    } else {
      assert k in keys[..n] by {
        var i :| 0 <= i < |keys| && keys[i] == k;
        assert i < n;
        assert keys[..n][i] == k;
      }
      SumOverBump(keys[..n], counts, k);
    }
  }

  /** The keys a list names. */
  function Listed(keys: seq<string>): (r: set<string>)
    ensures forall k :: k in r <==> k in keys
  {
    set k | k in keys
  }

  /** A key that is not listed does not contribute to the sum. */
  lemma {:induction false} SumOverUnlisted(keys: seq<string>, counts: map<string, nat>, k: string, v: nat)
    requires k !in keys
    ensures SumOver(keys, counts[k := v]) == SumOver(keys, counts)
  {
    if keys != [] {
      var n := |keys| - 1;
      assert k !in keys[..n];
      SumOverUnlisted(keys[..n], counts, k, v);
    }
  }

  /** The state of the headcount `reduce` after the first `i` users. */
  predicate Tallied(users: seq<User>, i: nat, total: nat, byRole: map<string, nat>, roles: seq<string>)
    requires i <= |users|
  {
    total == StaffCount(users[..i]) && RoleCounts(users, i, byRole) && KeyOrder(byRole, roles) &&
    SumOver(roles, byRole) == total
  }

  /** Every role met among the first `i` users is counted exactly. */
  predicate RoleCounts(users: seq<User>, i: nat, byRole: map<string, nat>)
    requires i <= |users|
  {
    (forall r :: r in byRole ==> byRole[r] == RoleCount(users[..i], r) && byRole[r] > 0) &&
    (forall k :: 0 <= k < i && users[k].role != ADMIN ==> users[k].role in byRole)
  }

  /** The key list names each counted role once, and Admin is never counted. */
  predicate KeyOrder(byRole: map<string, nat>, roles: seq<string>)
  {
    ADMIN !in byRole && Distinct(roles) && byRole.Keys == Listed(roles)
  }

  /** `getHeadcount`: the running `reduce` over the non-Admin users. The
      roles come back in the order they first appear (the key order of the
      `byRole` object). */
  method Headcount(users: seq<User>) returns (total: nat, byRole: map<string, nat>, roles: seq<string>)
    ensures total == StaffCount(users)
    ensures forall r :: r in byRole ==> byRole[r] == RoleCount(users, r) && byRole[r] > 0
    ensures forall i :: 0 <= i < |users| && users[i].role != ADMIN ==> users[i].role in byRole
    ensures ADMIN !in byRole
    ensures Distinct(roles) && byRole.Keys == Listed(roles)
    ensures SumOver(roles, byRole) == total
  {
    total, byRole, roles := 0, map[], [];
    for i := 0 to |users|
      invariant Tallied(users, i, total, byRole, roles)
    {
      total, byRole, roles := TallyOne(users, i, total, byRole, roles);
    }
    assert users[..|users|] == users;
  }

  /** One step of the `reduce`: Admin is skipped, a known role gains one,
      a new role starts at one and joins the key order. */
  method TallyOne(users: seq<User>, i: nat, total: nat, byRole: map<string, nat>, roles: seq<string>)
    returns (total': nat, byRole': map<string, nat>, roles': seq<string>)
    requires i < |users| && Tallied(users, i, total, byRole, roles)
    ensures Tallied(users, i + 1, total', byRole', roles')
  {
    var role := users[i].role;
    if role == ADMIN {
      AdminTally(users, i, total, byRole, roles);
      total', byRole', roles' := total, byRole, roles;
    } else if role in byRole {
      BumpTally(users, i, total, byRole, roles);
      total', byRole', roles' := total + 1, byRole[role := byRole[role] + 1], roles;
    } else {
      NewRoleTally(users, i, total, byRole, roles);
      total', byRole', roles' := total + 1, byRole[role := 1], roles + [role];
    }
  }

  lemma AdminTally(users: seq<User>, i: nat, total: nat, byRole: map<string, nat>, roles: seq<string>)
    requires i < |users| && Tallied(users, i, total, byRole, roles) && users[i].role == ADMIN
    ensures Tallied(users, i + 1, total, byRole, roles)
  {
    CountStep(users, i);
  }

  lemma BumpTally(users: seq<User>, i: nat, total: nat, byRole: map<string, nat>, roles: seq<string>)
    requires i < |users| && Tallied(users, i, total, byRole, roles)
    requires users[i].role != ADMIN && users[i].role in byRole
    ensures var r := users[i].role; Tallied(users, i + 1, total + 1, byRole[r := byRole[r] + 1], roles)
  {
    CountStep(users, i);
    SumOverBump(roles, byRole, users[i].role);
  }

  lemma NewRoleTally(users: seq<User>, i: nat, total: nat, byRole: map<string, nat>, roles: seq<string>)
    requires i < |users| && Tallied(users, i, total, byRole, roles)
    requires users[i].role != ADMIN && users[i].role !in byRole
    ensures var r := users[i].role; Tallied(users, i + 1, total + 1, byRole[r := 1], roles + [r])
  {
    var r := users[i].role;
    CountStep(users, i);
    NewRoleCounts(users, i, byRole);
    NewRoleKey(byRole, roles, r);
    SumOverUnlisted(roles, byRole, r, 1);
    assert (roles + [r])[..|roles|] == roles;
  }

  lemma NewRoleCounts(users: seq<User>, i: nat, byRole: map<string, nat>)
    requires i < |users| && RoleCounts(users, i, byRole)
    requires users[i].role != ADMIN && users[i].role !in byRole
    ensures RoleCounts(users, i + 1, byRole[users[i].role := 1])
  {
    CountStep(users, i);
    RoleCountAbsent(users[..i], users[i].role);
  }

  lemma NewRoleKey(byRole: map<string, nat>, roles: seq<string>, r: string)
    requires KeyOrder(byRole, roles) && r != ADMIN && r !in byRole
    ensures KeyOrder(byRole[r := 1], roles + [r])
  {
    assert Listed(roles + [r]) == Listed(roles) + {r};
  }

  /** One more user adds one to its role's count and to the staff count,
      unless it is Admin. */
  lemma CountStep(users: seq<User>, i: nat)
    requires i < |users|
    ensures StaffCount(users[..i + 1]) == StaffCount(users[..i]) + (if users[i].role != ADMIN then 1 else 0)
    ensures forall r ::
      RoleCount(users[..i + 1], r) == RoleCount(users[..i], r) + (if users[i].role != ADMIN && users[i].role == r then 1 else 0)
  {
    assert users[..i + 1][..i] == users[..i];
  }

  /** A role nobody on the staff holds counts zero. */
  lemma {:induction false} RoleCountAbsent(users: seq<User>, role: string)
    requires forall k :: 0 <= k < |users| && users[k].role != ADMIN ==> users[k].role != role
    ensures RoleCount(users, role) == 0
  {
    if users != [] {
      RoleCountAbsent(users[..|users| - 1], role);
    }
  }

  /** The headcount total is the sum of the per-role counts over every
      role: whatever list of distinct roles covers the staff, its counts
      add up to the total. */
  lemma {:induction false} RoleCountsCoverStaff(users: seq<User>, roles: seq<string>)
    requires Distinct(roles)
    requires forall i :: 0 <= i < |users| && users[i].role != ADMIN ==> users[i].role in roles
    ensures SumRoleCounts(users, roles) == StaffCount(users)
  {
    if users == [] {
      SumRoleCountsEmpty(roles);
    } else {
      var n := |users| - 1;
      RoleCountsCoverStaff(users[..n], roles);
      SumRoleCountsStep(users, roles);
    }
  }

  lemma {:induction false} SumRoleCountsEmpty(roles: seq<string>)
    ensures SumRoleCounts([], roles) == 0
  {
    if roles != [] {
      SumRoleCountsEmpty(roles[..|roles| - 1]);
    }
  }

  function SumRoleCounts(users: seq<User>, roles: seq<string>): nat
  {
    if roles == [] then 0 else SumRoleCounts(users, roles[..|roles| - 1]) + RoleCount(users, roles[|roles| - 1])
  }

  lemma {:induction false} SumRoleCountsStep(users: seq<User>, roles: seq<string>)
    requires users != [] && Distinct(roles)
    ensures var n := |users| - 1;
      SumRoleCounts(users, roles) == SumRoleCounts(users[..n], roles) +
        (if users[n].role != ADMIN && users[n].role in roles then 1 else 0)
  {
    if roles != [] {
      var m := |roles| - 1;
      assert Distinct(roles[..m]);
      SumRoleCountsStep(users, roles[..m]);
      assert roles == roles[..m] + [roles[m]];
      if users[|users| - 1].role == roles[m] {
        assert roles[m] !in roles[..m];
      }
    }
  }

  // ---------------------------------------------------------------------
  // Organisation chart
  // ---------------------------------------------------------------------

  const CHART_ROLES: set<string> := {BRANCH_MANAGER, TEAM_LEAD, EMPLOYEE}

  /** The users the chart query fetches: branch managers, team leads and
      employees, in store order. */
  function ChartMembers(users: seq<User>): seq<User>
  {
    Filter(users, (u: User) => u.role in CHART_ROLES)
  }

  /** The chart's sibling order by role; a role outside the table sorts last. */
  function RoleOrder(role: string): (r: nat)
    ensures r <= 9
    ensures role !in CHART_ROLES ==> r == 9
  {
    if role == BRANCH_MANAGER then 0
    else if role == TEAM_LEAD then 1
    else if role == EMPLOYEE then 2
    else 9
  }

  function RankOf(roleOf: map<Id, string>, id: Id): nat
  {
    if id in roleOf then RoleOrder(roleOf[id]) else 9
  }

  predicate SortedByRank(kids: seq<Id>, roleOf: map<Id, string>)
  {
    forall i, j :: 0 <= i < j < |kids| ==> RankOf(roleOf, kids[i]) <= RankOf(roleOf, kids[j])
  }

  /** The ids of the nodes that report to `p`, in store order: the children
      the attach loop pushes onto `p`'s node. */
  function ReportsOf(nodes: seq<User>, p: Id): (r: seq<Id>)
    ensures forall x :: x in r <==> exists i :: 0 <= i < |nodes| && nodes[i].id == x && nodes[i].reportsTo == Some(p)
  {
    if nodes == [] then []
    else
      var n := |nodes| - 1;
      var prev := ReportsOf(nodes[..n], p);
      assert forall i :: 0 <= i < n ==> nodes[..n][i] == nodes[i];
      prev + (if nodes[n].reportsTo == Some(p) then [nodes[n].id] else [])
  }

  /** Each node reporting to `p` is listed under `p` exactly once. */
  lemma {:induction false} ReportsOfOnce(nodes: seq<User>, p: Id, x: Id)
    requires DistinctIds(nodes)
    ensures multiset(ReportsOf(nodes, p))[x] <= 1
  {
    if nodes != [] {
      var n := |nodes| - 1;
      assert DistinctIds(nodes[..n]);
      ReportsOfOnce(nodes[..n], p, x);
      if nodes[n].reportsTo == Some(p) && nodes[n].id == x {
        assert x !in ReportsOf(nodes[..n], p);
      }
    }
  }

  function IdsOf(nodes: seq<User>): (r: seq<Id>)
    ensures |r| == |nodes|
    ensures forall i :: 0 <= i < |nodes| ==> r[i] == nodes[i].id
  {
    if nodes == [] then [] else IdsOf(nodes[..|nodes| - 1]) + [nodes[|nodes| - 1].id]
  }

  /** `n.children.sort(...)` on the role order: each child is inserted
      into the sorted prefix. */
  method SortByRole(kids: seq<Id>, roleOf: map<Id, string>) returns (sorted: seq<Id>)
    ensures multiset(sorted) == multiset(kids)
    ensures SortedByRank(sorted, roleOf)
  {
    sorted := [];
    for i := 0 to |kids|
      invariant multiset(sorted) == multiset(kids[..i])
      invariant SortedByRank(sorted, roleOf)
    {
      sorted := InsertByRank(sorted, kids[i], roleOf);
      assert kids[..i + 1] == kids[..i] + [kids[i]];
    }
    assert kids[..|kids|] == kids;
  }

  /** Insert `x` after every element that does not rank above it. */
  method InsertByRank(sorted: seq<Id>, x: Id, roleOf: map<Id, string>) returns (r: seq<Id>)
    requires SortedByRank(sorted, roleOf)
    ensures multiset(r) == multiset(sorted) + multiset{x}
    ensures SortedByRank(r, roleOf)
  {
    var j := 0;
    while j < |sorted| && RankOf(roleOf, sorted[j]) <= RankOf(roleOf, x)
      invariant 0 <= j <= |sorted|
      invariant forall k :: 0 <= k < j ==> RankOf(roleOf, sorted[k]) <= RankOf(roleOf, x)
    {
      j := j + 1;
    }
    r := sorted[..j] + [x] + sorted[j..];
    InsertKeepsSorted(sorted, j, x, roleOf);
    assert sorted == sorted[..j] + sorted[j..];
  }

  /** Inserting `x` between the prefix that does not rank above it and the
      rest keeps the order. */
  lemma InsertKeepsSorted(sorted: seq<Id>, j: nat, x: Id, roleOf: map<Id, string>)
    requires SortedByRank(sorted, roleOf) && j <= |sorted|
    requires forall k :: 0 <= k < j ==> RankOf(roleOf, sorted[k]) <= RankOf(roleOf, x)
    requires j < |sorted| ==> RankOf(roleOf, x) < RankOf(roleOf, sorted[j])
    ensures SortedByRank(sorted[..j] + [x] + sorted[j..], roleOf)
  {
    var r := sorted[..j] + [x] + sorted[j..];
    forall a, b | 0 <= a < b < |r|
      ensures RankOf(roleOf, r[a]) <= RankOf(roleOf, r[b])
    {
      if b < j || a > j {
      } else if a == j {
        assert r[b] == sorted[b - 1];
      } else if b == j {
        assert r[a] == sorted[a];
      } else {
        assert r[a] == sorted[a] && r[b] == sorted[b - 1];
      }
    }
  }

  /** `getOrgChart`: build one node per chart member, attach every node to
      its manager when the manager is on the chart, collect the branch
      managers as the roots under the virtual HR node, and order every
      child list by role. The chart is returned as its roots and each
      node's child list. */
  method BuildOrgChart(users: seq<User>) returns (roots: seq<Id>, children: map<Id, seq<Id>>)
    ensures children.Keys == set u | u in ChartMembers(users) :: u.id
    ensures forall p :: p in children ==>
      multiset(children[p]) == multiset(ReportsOf(ChartMembers(users), p))
    ensures forall p :: p in children ==> SortedByRank(children[p], RolesOf(ChartMembers(users)))
    ensures roots == IdsOf(Filter(ChartMembers(users), IsBranchManager))
  {
    var nodes := ChartMembers(users);
    var attached := EmptyNodes(nodes);
    attached := AttachAll(nodes, attached);
    roots := BranchManagerIds(nodes);
    children := SortAll(attached, RolesOf(nodes));
  }

  predicate IsBranchManager(u: User)
  {
    u.role == BRANCH_MANAGER
  }

  /** The node map: one empty child list per chart member. */
  method EmptyNodes(nodes: seq<User>) returns (attached: map<Id, seq<Id>>)
    ensures attached.Keys == set u | u in nodes :: u.id
    ensures forall p :: p in attached ==> attached[p] == []
  {
    attached := map[];
    for i := 0 to |nodes|
      invariant attached.Keys == set k | 0 <= k < i :: nodes[k].id
      invariant forall p :: p in attached ==> attached[p] == []
    {
      attached := attached[nodes[i].id := []];
    }
    forall u | u in nodes
      ensures u.id in attached
    {
      var k :| 0 <= k < |nodes| && nodes[k] == u;
    }
  }

  /** The attach loop: each node is pushed onto its manager's list when
      the manager has a node. */
  method AttachAll(nodes: seq<User>, empty: map<Id, seq<Id>>) returns (attached: map<Id, seq<Id>>)
    requires forall p :: p in empty ==> empty[p] == []
    ensures attached.Keys == empty.Keys
    ensures forall p :: p in attached ==> attached[p] == ReportsOf(nodes, p)
  {
    attached := empty;
    for i := 0 to |nodes|
      invariant attached.Keys == empty.Keys
      invariant AttachedUpTo(nodes, i, attached)
    {
      var node := nodes[i];
      AttachStep(nodes, i, attached);
      if node.reportsTo.Some? && node.reportsTo.value in attached {
        attached := attached[node.reportsTo.value := attached[node.reportsTo.value] + [node.id]];
      }
    }
    assert nodes[..|nodes|] == nodes;
  }

  /** Every listed manager holds its reports among the first `i` nodes. */
  predicate AttachedUpTo(nodes: seq<User>, i: nat, attached: map<Id, seq<Id>>)
    requires i <= |nodes|
  {
    forall p :: p in attached ==> attached[p] == ReportsOf(nodes[..i], p)
  }

  lemma AttachStep(nodes: seq<User>, i: nat, attached: map<Id, seq<Id>>)
    requires i < |nodes| && AttachedUpTo(nodes, i, attached)
    ensures var m := nodes[i].reportsTo;
      AttachedUpTo(nodes, i + 1, if m.Some? && m.value in attached then attached[m.value := attached[m.value] + [nodes[i].id]] else attached)
  {
    ReportsOfStep(nodes, i);
  }

  lemma ReportsOfStep(nodes: seq<User>, i: nat)
    requires i < |nodes|
    ensures forall p ::
      ReportsOf(nodes[..i + 1], p) == ReportsOf(nodes[..i], p) + (if nodes[i].reportsTo == Some(p) then [nodes[i].id] else [])
  {
    assert nodes[..i + 1][..i] == nodes[..i];
  }

  /** The roots: the branch managers, in store order. */
  method BranchManagerIds(nodes: seq<User>) returns (roots: seq<Id>)
    ensures roots == IdsOf(Filter(nodes, IsBranchManager))
  {
    roots := [];
    for i := 0 to |nodes|
      invariant roots == IdsOf(Filter(nodes[..i], IsBranchManager))
    {
      assert nodes[..i + 1][..i] == nodes[..i];
      if nodes[i].role == BRANCH_MANAGER {
        roots := roots + [nodes[i].id];
      }
    }
    assert nodes[..|nodes|] == nodes;
  }

  /** `sortTree` over every node: each child list is ordered by role. */
  method SortAll(attached: map<Id, seq<Id>>, roleOf: map<Id, string>) returns (children: map<Id, seq<Id>>)
    ensures children.Keys == attached.Keys
    ensures forall p :: p in children ==> multiset(children[p]) == multiset(attached[p]) && SortedByRank(children[p], roleOf)
  {
    children := map[];
    var pending := attached.Keys;
    while pending != {}
      invariant pending <= attached.Keys
      invariant children.Keys == attached.Keys - pending
      invariant forall p :: p in children ==> multiset(children[p]) == multiset(attached[p]) && SortedByRank(children[p], roleOf)
      decreases |pending|
    {
      var p :| p in pending;
      var sorted := SortByRole(attached[p], roleOf);
      children := children[p := sorted];
      pending := pending - {p};
    }
  }

  /** The role of every chart node, by id. */
  function RolesOf(nodes: seq<User>): map<Id, string>
  {
    if nodes == [] then map[] else RolesOf(nodes[..|nodes| - 1])[nodes[|nodes| - 1].id := nodes[|nodes| - 1].role]
  }

  /** Where the chart places each member: under exactly the manager it
      reports to when that manager is on the chart, once, and under no
      other node; and the roots are exactly the branch managers. */
  lemma ChartPlacement(users: seq<User>, children: map<Id, seq<Id>>, q: Id, i: nat)
    requires DistinctIds(users)
    requires q in children
    requires multiset(children[q]) == multiset(ReportsOf(ChartMembers(users), q))
    requires i < |ChartMembers(users)|
    ensures var n := ChartMembers(users)[i];
      (n.id in children[q] <==> n.reportsTo == Some(q)) &&
      multiset(children[q])[n.id] <= 1
  {
    var nodes := ChartMembers(users);
    DistinctMembers(users);
    ReportsOfOnce(nodes, q, nodes[i].id);
    var x := nodes[i].id;
    assert x in children[q] <==> x in multiset(children[q]);
    assert x in ReportsOf(nodes, q) <==> x in multiset(ReportsOf(nodes, q));
  }

  /** The chart query keeps the directory's unique ids. */
  lemma {:induction false} DistinctMembers(users: seq<User>)
    requires DistinctIds(users)
    ensures DistinctIds(ChartMembers(users))
  {
    if users != [] {
      var n := |users| - 1;
      assert DistinctIds(users[..n]);
      DistinctMembers(users[..n]);
      FilterAppend(users[..n], [users[n]], (u: User) => u.role in CHART_ROLES);
      assert users[..n] + [users[n]] == users;
      forall i | 0 <= i < |ChartMembers(users[..n])|
        ensures ChartMembers(users[..n])[i].id != users[n].id
      {
        var v := ChartMembers(users[..n])[i];
        assert v in users[..n];
        var k :| 0 <= k < n && users[..n][k] == v;
      }
    }
  }

  /** Every root of the chart is a branch manager, and every branch manager
      is a root. */
  lemma RootsAreBranchManagers(users: seq<User>)
    ensures forall id :: id in IdsOf(Filter(ChartMembers(users), IsBranchManager)) <==>
      exists u :: u in users && u.role == BRANCH_MANAGER && u.id == id
  {
    var nodes := ChartMembers(users);
    var bms := Filter(nodes, IsBranchManager);
    FilterComplete(users, (u: User) => u.role in CHART_ROLES);
    FilterComplete(nodes, IsBranchManager);
    forall id | id in IdsOf(bms)
      ensures exists u :: u in users && u.role == BRANCH_MANAGER && u.id == id
    {
      var k :| 0 <= k < |bms| && IdsOf(bms)[k] == id;
      assert bms[k] in nodes;
    }
    forall u | u in users && u.role == BRANCH_MANAGER
      ensures u.id in IdsOf(bms)
    {
      assert u in nodes;
      assert u in bms;
      var k :| 0 <= k < |bms| && bms[k] == u;
      assert IdsOf(bms)[k] == u.id;
    }
  }

  // ---------------------------------------------------------------------
  // Payroll
  // ---------------------------------------------------------------------

  datatype RunStatus = Draft | Finalized

  datatype PayrollRun = PayrollRun(month: int, year: int, generatedBy: Id, status: RunStatus)

  /** The attendance fields payroll reads: whose row, which day, and
      whether it was a late login. */
  datatype AttendanceRow = AttendanceRow(user: Id, date: string, isLate: bool)

  /** The stored payroll item. The earnings and deductions breakdowns the
      controller also passes are not fields of the item schema, so the
      store drops them. */
  datatype PayrollItem = PayrollItem(
    run: nat,
    user: Id,
    presentDays: nat,
    lateDays: nat,
    netPay: int,
    payslipNumber: string)

  const PENALTY_PER_LATE_DAY: int := 50
  const DEFAULT_PAYROLL_ROLES: seq<string> := [TEAM_LEAD, EMPLOYEE]

  /** The month/year checks, in order; month and year are the numeric
      values of the request fields, 0 standing for a missing one. */
  function CheckPeriod(month: int, year: int): (r: Result<()>)
    ensures r.Ok? <==> month != 0 && year != 0 && 1 <= month <= 12
    ensures month == 0 || year == 0 ==> r == Err(400, "month and year are required")
    ensures month != 0 && year != 0 && !(1 <= month <= 12) ==> r == Err(400, "month must be 1 to 12")
  {
    if month == 0 || year == 0 then Err(400, "month and year are required")
    else if month < 1 || month > 12 then Err(400, "month must be 1 to 12")
    else Ok(())
  }

  /** The roles a run covers: the requested list when it is non-empty,
      otherwise team leads and employees. */
  function PayrollRoles(includeRoles: seq<string>): (r: seq<string>)
    ensures r != []
    ensures includeRoles == [] ==> r == DEFAULT_PAYROLL_ROLES
  {
    if includeRoles != [] then includeRoles else DEFAULT_PAYROLL_ROLES
  }

  /** The users a run pays: a covered role, never Admin. */
  function Payees(users: seq<User>, roles: seq<string>): (r: seq<User>)
    ensures forall i :: 0 <= i < |r| ==> r[i] in users && r[i].role in roles && r[i].role != ADMIN
    ensures forall u :: u in users && u.role in roles && u.role != ADMIN ==> u in r
  {
    FilterComplete(users, (u: User) => u.role in roles && u.role != ADMIN);
    Filter(users, (u: User) => u.role in roles && u.role != ADMIN)
  }

  /** The date prefix `YYYY-MM-` of the month's attendance rows. */
  function MonthPrefix(year: int, month: nat): string
  {
    IntToString(year) + "-" + Pad2(month) + "-"
  }

  function PresentDays(rows: seq<AttendanceRow>, user: Id, prefix: string): nat
  {
    if rows == [] then 0
    else
      var r := rows[|rows| - 1];
      PresentDays(rows[..|rows| - 1], user, prefix) + (if r.user == user && StartsWith(r.date, prefix) then 1 else 0)
  }

  function LateDays(rows: seq<AttendanceRow>, user: Id, prefix: string): nat
  {
    if rows == [] then 0
    else
      var r := rows[|rows| - 1];
      LateDays(rows[..|rows| - 1], user, prefix) + (if r.user == user && StartsWith(r.date, prefix) && r.isLate then 1 else 0)
  }

  /** A late day is a present day: the late rows are among the month's rows. */
  lemma {:induction false} LateDaysWithinPresent(rows: seq<AttendanceRow>, user: Id, prefix: string)
    ensures LateDays(rows, user, prefix) <= PresentDays(rows, user, prefix)
  {
    if rows != [] {
      LateDaysWithinPresent(rows[..|rows| - 1], user, prefix);
    }
  }

  /** `Math.max(0, basic + allowances - fixed - 50 * lateDays)`. */
  function NetPay(s: Salary, lateDays: nat): (pay: int)
    ensures pay >= 0
    ensures pay >= s.basic + s.allowances - s.deductions - PENALTY_PER_LATE_DAY * lateDays
    ensures pay == 0 || pay == s.basic + s.allowances - s.deductions - PENALTY_PER_LATE_DAY * lateDays
  {
    var gross := s.basic + s.allowances - s.deductions - PENALTY_PER_LATE_DAY * lateDays;
    if gross > 0 then gross else 0
  }

  /** Lateness never raises pay, and each extra late day costs at most the
      fixed penalty. */
  lemma LatenessNeverRaisesPay(s: Salary, fewer: nat, more: nat)
    requires fewer <= more
    ensures NetPay(s, more) <= NetPay(s, fewer)
    ensures NetPay(s, fewer) - NetPay(s, more) <= PENALTY_PER_LATE_DAY * (more - fewer)
  {
  }

  /** `PS-` + year + two-digit month + `-` + the last six characters of the
      user id, upper-cased. */
  function PayslipNumber(year: int, month: nat, user: Id): (r: string)
    ensures StartsWith(r, "PS-")
  {
    "PS-" + (PeriodCode(year, month) + "-" + ToUpper(LastN(user, 6)))
  }

  /** The year followed by the two-digit month. */
  function PeriodCode(year: int, month: nat): string
  {
    IntToString(year) + Pad2(month)
  }

  /** A payslip number names its period and its user suffix: for a
      positive year and a real month, equal numbers mean the same year, the
      same month and the same upper-cased id suffix. */
  lemma PayslipNumberIdentifies(y1: int, m1: nat, u1: Id, y2: int, m2: nat, u2: Id)
    requires y1 > 0 && y2 > 0 && 1 <= m1 <= 12 && 1 <= m2 <= 12
    requires PayslipNumber(y1, m1, u1) == PayslipNumber(y2, m2, u2)
    ensures y1 == y2 && m1 == m2
    ensures ToUpper(LastN(u1, 6)) == ToUpper(LastN(u2, 6))
  {
    var c1, c2 := PeriodCode(y1, m1), PeriodCode(y2, m2);
    var t1, t2 := ToUpper(LastN(u1, 6)), ToUpper(LastN(u2, 6));
    DropPrefix("PS-", c1 + "-" + t1, c2 + "-" + t2);
    PeriodCodeDigits(y1, m1);
    PeriodCodeDigits(y2, m2);
    DigitsThenDash(c1, t1, c2, t2);
    PeriodCodeInjective(y1, m1, y2, m2);
  }

  lemma DropPrefix(p: string, a: string, b: string)
    requires p + a == p + b
    ensures a == b
  {
    assert a == (p + a)[|p|..];
  }

  lemma PeriodCodeDigits(year: int, month: nat)
    requires year > 0
    ensures AllDigits(PeriodCode(year, month))
  {
  }

  /** A digit string ended by a dash is recovered from what follows it. */
  lemma DigitsThenDash(a1: string, t1: string, a2: string, t2: string)
    requires AllDigits(a1) && AllDigits(a2)
    requires a1 + "-" + t1 == a2 + "-" + t2
    ensures a1 == a2 && t1 == t2
  {
    var s := a1 + "-" + t1;
    assert s[|a1|] == '-';
    assert s == a2 + "-" + t2;
    assert s[|a2|] == '-';
    assert a1 == s[..|a1|] == a2;
    assert t1 == s[|a1| + 1..] == t2;
  }

  lemma PeriodCodeInjective(y1: int, m1: nat, y2: int, m2: nat)
    requires y1 > 0 && y2 > 0 && 1 <= m1 <= 12 && 1 <= m2 <= 12
    requires PeriodCode(y1, m1) == PeriodCode(y2, m2)
    ensures y1 == y2 && m1 == m2
  {
    var c := PeriodCode(y1, m1);
    var n := |c| - 2;
    assert NatToString(y1) == c[..n] == NatToString(y2);
    assert Pad2(m1) == c[n..] == Pad2(m2);
    NatToStringInjective(y1, y2);
    ValueOfPad2(m1);
    ValueOfPad2(m2);
  }

  /** The item `generatePayroll` builds for one user. */
  function ItemFor(run: nat, year: int, month: nat, u: User, rows: seq<AttendanceRow>): (item: PayrollItem)
    ensures item.user == u.id && item.run == run
    ensures item.lateDays <= item.presentDays
    ensures item.netPay >= 0
  {
    var prefix := MonthPrefix(year, month);
    LateDaysWithinPresent(rows, u.id, prefix);
    var late := LateDays(rows, u.id, prefix);
    PayrollItem(run, u.id, PresentDays(rows, u.id, prefix), late, NetPay(u.salary, late), PayslipNumber(year, month, u.id))
  }

  /** One item per payee, in payee order. */
  function ItemsFor(run: nat, year: int, month: nat, payees: seq<User>, rows: seq<AttendanceRow>): seq<PayrollItem>
  {
    seq(|payees|, i requires 0 <= i < |payees| => ItemFor(run, year, month, payees[i], rows))
  }

  /** Every payee gets exactly one item of the run, with the payee's
      attendance and pay, and nobody else gets one. */
  lemma OneItemPerPayee(run: nat, year: int, month: nat, payees: seq<User>, rows: seq<AttendanceRow>)
    requires DistinctIds(payees)
    ensures var items := ItemsFor(run, year, month, payees, rows);
      |items| == |payees| &&
      (forall i :: 0 <= i < |items| ==> items[i].user == payees[i].id && items[i].run == run) &&
      (forall i :: 0 <= i < |items| ==> items[i].lateDays <= items[i].presentDays && items[i].netPay >= 0) &&
      (forall i, j :: 0 <= i < j < |items| ==> items[i].user != items[j].user)
  {
  }

  /** The loop of `generatePayroll`: one item per payee, built by `build`,
      in payee order. */
  method BuildItems(payees: seq<User>, build: User -> PayrollItem) returns (made: seq<PayrollItem>)
    ensures |made| == |payees|
    ensures forall k :: 0 <= k < |payees| ==> made[k] == build(payees[k])
  {
    made := [];
    for i := 0 to |payees|
      invariant |made| == i
      invariant forall k :: 0 <= k < i ==> made[k] == build(payees[k])
    {
      made := made + [build(payees[i])];
    }
  }

  /** The payroll runs and their items; a run's id is its position. */
  class PayrollLedger {
    var runs: seq<PayrollRun>
    var items: seq<PayrollItem>

    constructor()
      ensures runs == [] && items == []
    {
      runs, items := [], [];
    }

    /** `generatePayroll`: validate the period, open a draft run, then add
        one item per payee. Answers the run id and the number of items. */
    method Generate(month: int, year: int, includeRoles: seq<string>, hr: Id, users: seq<User>, rows: seq<AttendanceRow>)
      returns (r: Result<(nat, nat)>)
      modifies this
      ensures r.Err? <==> CheckPeriod(month, year).Err?
      ensures r.Err? ==>
        r == Err(CheckPeriod(month, year).status, CheckPeriod(month, year).msg) && runs == old(runs) && items == old(items)
      ensures r.Ok? ==>
        var payees := Payees(users, PayrollRoles(includeRoles));
        r.value == (|old(runs)|, |payees|) &&
        runs == old(runs) + [PayrollRun(month, year, hr, Draft)] &&
        items == old(items) + ItemsFor(|old(runs)|, year, month, payees, rows)
    {
      var check := CheckPeriod(month, year);
      if check.Err? {
        return Err(check.status, check.msg);
      }
      var run := |runs|;
      runs := runs + [PayrollRun(month, year, hr, Draft)];
      var payees := Payees(users, PayrollRoles(includeRoles));
      var made := BuildItems(payees, u => ItemFor(run, year, month, u, rows));
      assert made == ItemsFor(run, year, month, payees, rows);
      items := items + made;
      r := Ok((run, |made|));
    }

    /** `finalizePayrollRun`: an existing run becomes final; nothing else
        changes. */
    method Finalize(run: nat) returns (r: Result<string>)
      modifies this
      ensures r.Ok? <==> run < |old(runs)|
      ensures r.Err? ==> r == Err(404, "Payroll run not found") && runs == old(runs)
      ensures r.Ok? ==> r.value == "Payroll run finalized" && runs == old(runs)[run := old(runs)[run].(status := Finalized)]
      ensures items == old(items)
    {
      if run >= |runs| {
        return Err(404, "Payroll run not found");
      }
      runs := runs[run := runs[run].(status := Finalized)];
      r := Ok("Payroll run finalized");
    }
  }
}
