/** The manager dashboard (src/controllers/dashboardController.js): who is
    on the team, today's attendance summary for the tracked staff, and the
    team's lead figures. */
module Dashboard {
  import opened Common
  import opened Text
  import opened Users
  import opened Attendance
  import opened Leads

  // ---------------------------------------------------------------------
  // Team and attendance
  // ---------------------------------------------------------------------

  /** Admin and lead managers see everybody; any other manager sees the
      users reporting to them and themselves. */
  function TeamUsers(users: seq<User>, userId: Id, role: string): (team: seq<User>)
    ensures role == ADMIN || role == LEAD_MANAGER ==> team == users
    ensures role != ADMIN && role != LEAD_MANAGER ==>
      forall u :: u in team <==> u in users && (u.reportsTo == Some(userId) || u.id == userId)
  {
    if role == ADMIN || role == LEAD_MANAGER then users
    else
      FilterComplete(users, (u: User) => u.reportsTo == Some(userId) || u.id == userId);
      Filter(users, (u: User) => u.reportsTo == Some(userId) || u.id == userId)
  }

  /** Attendance is tracked for team leads and employees only. */
  function Tracked(team: seq<User>): (tracked: seq<User>)
    ensures forall u :: u in tracked <==> u in team && (u.role == TEAM_LEAD || u.role == EMPLOYEE)
  {
    FilterComplete(team, (u: User) => u.role == TEAM_LEAD || u.role == EMPLOYEE);
    Filter(team, (u: User) => u.role == TEAM_LEAD || u.role == EMPLOYEE)
  }

  /** Today's attendance rows of the tracked users, each with its user's
      name (the populated `user.name`). */
  function TodayRows(tracked: seq<User>, records: map<(Id, string), AttendanceRecord>, today: string): (rows: seq<(string, AttendanceRecord)>)
    ensures |rows| <= |tracked|
  {
    if tracked == [] then []
    else
      var u := tracked[|tracked| - 1];
      TodayRows(tracked[..|tracked| - 1], records, today) +
        (if (u.id, today) in records then [(u.name, records[(u.id, today)])] else [])
  }

  /** The tracked users that have a row today. */
  function PresentCount(tracked: seq<User>, records: map<(Id, string), AttendanceRecord>, today: string): nat
  {
    Count(tracked, (u: User) => (u.id, today) in records)
  }

  lemma {:induction false} TodayRowsArePresent(tracked: seq<User>, records: map<(Id, string), AttendanceRecord>, today: string)
    ensures |TodayRows(tracked, records, today)| == PresentCount(tracked, records, today)
  {
    if tracked != [] {
      TodayRowsArePresent(tracked[..|tracked| - 1], records, today);
    }
  }

  datatype AttendanceSummary = AttendanceSummary(
    total: nat,
    present: nat,
    late: nat,
    absent: int,
    onCall: seq<string>,
    online: nat)

  function IsLateRow(row: (string, AttendanceRecord)): bool { row.1.isLate }
  function IsOnlineRow(row: (string, AttendanceRecord)): bool { row.1.currentStatus == ONLINE }
  function IsOnCallRow(row: (string, AttendanceRecord)): bool { row.1.currentStatus == ON_CALL }

  function Names(rows: seq<(string, AttendanceRecord)>): (names: seq<string>)
    ensures |names| == |rows|
  {
    if rows == [] then [] else Names(rows[..|rows| - 1]) + [rows[|rows| - 1].0]
  }

  /** `attendanceSummary`: everybody tracked, who has a row today, who of
      them came late, who is absent, who is on a call (by name) and who
      is online. */
  function Summarize(tracked: seq<User>, records: map<(Id, string), AttendanceRecord>, today: string): (s: AttendanceSummary)
    ensures s.total == |tracked|
    ensures s.present == PresentCount(tracked, records, today)
    ensures s.absent == s.total - s.present && s.absent >= 0
    ensures s.late <= s.present && s.online <= s.present && |s.onCall| <= s.present
  {
    var rows := TodayRows(tracked, records, today);
    TodayRowsArePresent(tracked, records, today);
    AttendanceSummary(
      |tracked|,
      |rows|,
      Count(rows, IsLateRow),
      |tracked| - |rows|,
      Names(Filter(rows, IsOnCallRow)),
      Count(rows, IsOnlineRow))
  }

  /** Nobody is both online and on a call: the two counts together never
      exceed the present count. */
  lemma OnlineAndOnCallDisjoint(tracked: seq<User>, records: map<(Id, string), AttendanceRecord>, today: string)
    ensures var s := Summarize(tracked, records, today); s.online + |s.onCall| <= s.present
  {
    var rows := TodayRows(tracked, records, today);
    TodayRowsArePresent(tracked, records, today);
    ExclusiveCounts(rows, IsOnlineRow, IsOnCallRow);
  }

  /** Two predicates that never hold together count at most the whole. */
  lemma {:induction false} ExclusiveCounts<T>(s: seq<T>, p: T -> bool, q: T -> bool)
    requires forall x :: !(p(x) && q(x))
    ensures Count(s, p) + Count(s, q) <= |s|
  {
    if s != [] {
      ExclusiveCounts(s[..|s| - 1], p, q);
    }
  }

  // ---------------------------------------------------------------------
  // Lead figures
  // ---------------------------------------------------------------------

  function TeamIds(team: seq<User>): set<Id>
  {
    set u | u in team :: u.id
  }

  /** Leads the team holds that are not archived. */
  predicate HeldByTeam(l: LeadState, ids: set<Id>)
  {
    l.assignedTo.Some? && l.assignedTo.value in ids && l.status != Archived
  }

  /** `/^Call/i`: the action starts with `call` in any letter case. */
  predicate IsCallAction(action: string)
  {
    |action| >= 4 && ToUpper(action[..4]) == "CALL"
  }

  /** The call-log entries match; the other entries the lead workflow
      writes do not. */
  lemma CallActions(touch: nat, outcome: string)
    ensures IsCallAction(CallAttemptAction(touch, outcome))
    ensures !IsCallAction("Assignment") && !IsCallAction("System Recycle") && !IsCallAction("Admin Override")
  {
    var a := CallAttemptAction(touch, outcome);
    assert a[..4] == "Call";
    assert "Assignment"[..4] == "Assi";
    assert "System Recycle"[..4] == "Syst";
    assert "Admin Override"[..4] == "Admi";
    assert ToUpper("Assi")[0] == 'A';
    assert ToUpper("Syst")[0] == 'S';
    assert ToUpper("Admi")[0] == 'A';
  }

  /** One history entry that is a call by a team member within the day. */
  predicate CallToday(e: HistoryEntry, ids: set<Id>, dayStart: int, dayEnd: int)
  {
    e.actor in ids && dayStart <= e.date <= dayEnd && IsCallAction(e.action)
  }

  /** A lead the team called today: a single history entry meets all the
      conditions. */
  predicate ContactedToday(l: LeadState, ids: set<Id>, dayStart: int, dayEnd: int)
  {
    exists i :: 0 <= i < |l.history| && CallToday(l.history[i], ids, dayStart, dayEnd)
  }

  /** The query as the store evaluates it: each condition on the `history`
      array is met by some entry, not necessarily the same one. */
  predicate ContactedAsWritten(l: LeadState, ids: set<Id>, dayStart: int, dayEnd: int)
  {
    (exists i :: 0 <= i < |l.history| && l.history[i].actor in ids) &&
    (exists i :: 0 <= i < |l.history| && l.history[i].date >= dayStart) &&
    (exists i :: 0 <= i < |l.history| && l.history[i].date <= dayEnd) &&
    (exists i :: 0 <= i < |l.history| && IsCallAction(l.history[i].action))
  }

  /** Every lead called today is also matched by the query as written. */
  lemma ContactedIsMatched(l: LeadState, ids: set<Id>, dayStart: int, dayEnd: int)
    requires ContactedToday(l, ids, dayStart, dayEnd)
    ensures ContactedAsWritten(l, ids, dayStart, dayEnd)
  {
  }

  /** A lead an outsider called long before today and a team member handed
      on today. */
  function HandedOnLead(): LeadState
  {
    LeadState(New, 0, false, None, Some("agent"), [],
              [HistoryEntry("Call Attempt #1: Busy", "outsider", 5, None, None, Some(0), None),
               HistoryEntry("Assignment", "manager", 150, None, None, None, None)])
  }

  /** The query as written also matches a lead nobody on the team called
      today: the old call by someone else supplies the call action, the
      hand-over by the team member the actor and the date. */
  lemma HandedOnLeadCountsAsContacted()
    ensures ContactedAsWritten(HandedOnLead(), {"manager"}, 100, 200)
    ensures !ContactedToday(HandedOnLead(), {"manager"}, 100, 200)
  {
    var h := HandedOnLead().history;
    assert h[0].action[..4] == "Call";
    assert IsCallAction(h[0].action);
    assert h[1].actor in {"manager"} && 100 <= h[1].date <= 200;
    assert h[1].action[..4] == "Assi";
    assert ToUpper("Assi")[0] == 'A';
    forall i | 0 <= i < |h|
      ensures !CallToday(h[i], {"manager"}, 100, 200)
    {
      assert i == 0 || i == 1;
    }
  }

  /** A call the team logs today makes the lead count as contacted. */
  lemma LoggedCallCounts(s: LeadState, c: CallLog, directory: seq<User>, pick: nat, ids: set<Id>, dayStart: int, dayEnd: int)
    requires c.caller in ids && dayStart <= c.now <= dayEnd
    ensures ContactedToday(AfterCall(s, c, directory, pick), ids, dayStart, dayEnd)
  {
    var r := AfterCall(s, c, directory, pick);
    var k := |s.history|;
    assert r.history[..k + 1][k] == r.history[k];
    CallActions(s.touchCount + 1, c.outcome);
    assert CallToday(r.history[k], ids, dayStart, dayEnd);
  }

  /** A counting predicate that implies another never counts more. */
  lemma {:induction false} CountImplies<T>(s: seq<T>, p: T -> bool, q: T -> bool)
    requires forall x :: p(x) ==> q(x)
    ensures Count(s, p) <= Count(s, q)
  {
    if s != [] {
      CountImplies(s[..|s| - 1], p, q);
    }
  }

  datatype LeadFigures = LeadFigures(activeLeads: nat, contacted: nat)

  /** `leadStats`: the team's active leads and the leads it called today. */
  function LeadStats(leads: seq<LeadState>, ids: set<Id>, dayStart: int, dayEnd: int): (f: LeadFigures)
    ensures f.activeLeads <= |leads| && f.contacted <= |leads|
    ensures f.activeLeads == 0 <==> forall i :: 0 <= i < |leads| ==> !HeldByTeam(leads[i], ids)
    ensures f.contacted == 0 <==> forall i :: 0 <= i < |leads| ==> !ContactedToday(leads[i], ids, dayStart, dayEnd)
  {
    LeadFigures(
      Count(leads, (l: LeadState) => HeldByTeam(l, ids)),
      Count(leads, (l: LeadState) => ContactedToday(l, ids, dayStart, dayEnd)))
  }

  /** The count as the query computes it. */
  function ContactedCountAsWritten(leads: seq<LeadState>, ids: set<Id>, dayStart: int, dayEnd: int): nat
  {
    Count(leads, (l: LeadState) => ContactedAsWritten(l, ids, dayStart, dayEnd))
  }

  /** The intended count never exceeds the count as written. */
  lemma ContactedCountBelowAsWritten(leads: seq<LeadState>, ids: set<Id>, dayStart: int, dayEnd: int)
    ensures LeadStats(leads, ids, dayStart, dayEnd).contacted <= ContactedCountAsWritten(leads, ids, dayStart, dayEnd)
  {
    CountImplies(leads, (l: LeadState) => ContactedToday(l, ids, dayStart, dayEnd),
                 (l: LeadState) => ContactedAsWritten(l, ids, dayStart, dayEnd));
  }

  // ---------------------------------------------------------------------
  // The whole answer
  // ---------------------------------------------------------------------

  datatype DashboardView = DashboardView(attendance: AttendanceSummary, leadStats: LeadFigures)

  /** `getManagerDashboard`: attendance over the tracked team members, lead
      figures over the whole team (managers included). */
  function ManagerDashboard(users: seq<User>, userId: Id, role: string,
                            records: map<(Id, string), AttendanceRecord>, today: string,
                            leads: seq<LeadState>, dayStart: int, dayEnd: int): (v: DashboardView)
    ensures v.attendance.total <= |TeamUsers(users, userId, role)|
    ensures v.attendance.total == |Tracked(TeamUsers(users, userId, role))|
    ensures v.attendance.absent == v.attendance.total - v.attendance.present >= 0
    ensures v.leadStats.activeLeads <= |leads| && v.leadStats.contacted <= |leads|
    ensures v.attendance == Summarize(Tracked(TeamUsers(users, userId, role)), records, today)
    ensures v.leadStats == LeadStats(leads, TeamIds(TeamUsers(users, userId, role)), dayStart, dayEnd)
  {
    var team := TeamUsers(users, userId, role);
    DashboardView(Summarize(Tracked(team), records, today), LeadStats(leads, TeamIds(team), dayStart, dayEnd))
  }
}
