# Global Algo IMS backend — a verified model of its business rules

This project models the business rules of the Global Algo IMS backend. That
service is an Express/Mongoose application for running a calling office. It
handles:

- **Leads.** An uploader imports spreadsheets of phone numbers as *leads* in
  upload *batches*. Managers hand the leads down the hierarchy in a
  *waterfall*. Agents log calls against the leads. At eight touches a lead is
  recycled to a fresh employee, or archived.
- **People and access.** Users log in and managers create accounts one rank
  below themselves. Middleware guards the routes by role rank and by today's
  clock-in.
- **Day-to-day records.** Staff clock in and switch between attendance
  statuses. Staff file leave requests that HR approves. Anyone may raise a
  support ticket. HR reads a headcount and an org chart and generates
  payroll. Managers read a dashboard.

Everything a request reads from the database, the clock or the random number
generator is a parameter of the model. The model has one module per source
file:

| module | file | source |
|---|---|---|
| `Phone` | phone.dfy | the phone normaliser |
| `Leads` | lead.dfy | the Lead document, with the per-lead transitions as pure functions and a `Lead` class whose methods perform them in place |
| `LeadEngine` | lead_engine.dfy | the lead store (`LeadStore`) and the upload, distribution, call-log, override and safe-delete handlers |
| `Rbac` | rbac.dfy | role-rank authorisation |
| `Deny` | deny_roles.dfy | role blocking |
| `Gatekeeper` | gatekeeper.dfy | the attendance gate |
| `Dates` | dates.dfy | the leave workflow's calendar helpers |
| `Leave` | leave.dfy | the leave workflow (`LeaveBook`) |
| `Attendance` | attendance.dfy | the attendance clock (`AttendanceBook`) |
| `Tickets` | tickets.dfy | ticket routing, visibility and resolution (`TicketDesk`) |
| `Hr` | hr.dfy | headcount, org chart and payroll (`PayrollLedger`) |
| `Auth` | auth.dfy | account creation and login (`Directory`) |
| `Dashboard` | dashboard.dfy | the manager dashboard |
| `Common`, `Text`, `Users` | common.dfy, text.dfy, users.dfy | shared vocabulary: `Option`/`Result`, counting and filtering, the JavaScript string primitives, and the user record |

Handlers answer `Result`: either `Ok(value)` or `Err(status, msg)`, with the
HTTP status and the message the controller sends.

The code does not do the following, and neither does the model:

- `logCall` neither rejects archived leads nor checks ownership.
- `distributeLeads` has no batch filter, no pool ordering and no rejection of a non-positive total.
- The upload reads only cells 0 and 1 of a row and makes no mobile-prefix check.

## Model

| member | source | states |
|---|---|---|
| Phone.CleanPhoneNumber | src/controllers/leadController.js:10-28 | a falsy cell gives null; any other result is exactly ten digits |
| Phone.CleanPhoneNumberForms | src/controllers/leadController.js:14-27 | both directions: a cell cleans to n iff n is ten digits and the cell's digits are n, "91"+n or "0"+n, or "910"+n (91 is dropped only while more than ten digits remain, then one leading 0 only while still more than ten) |
| Phone.CleanPhoneNumberOfTenDigits | src/controllers/leadController.js:10-28 | for every ten-digit n, the inputs n, "+91 "+n and "0"+n all clean to n |
| Phone.CleanPhoneNumberIdempotent | src/controllers/leadController.js:10-28 | cleaning a cleaned number gives it back |
| Leads.ParseStatus | src/models/Lead.js:7-12 | a status string is accepted exactly when it names one of the nine enum values |
| Leads.FreshLead | src/models/Lead.js:15-19 | a new lead is New, with touchCount 0, not archived, no archive reason, and empty custody and history |
| Leads.Lead.constructor | src/models/Lead.js:3-40 | a created lead holds its fixed phone, name and batch, and the schema defaults |
| Leads.Assigned | src/controllers/leadController.js:173-194 | a moved lead gets the target as owner, exactly one custody entry {target, distributor, role} and one `Assignment` history entry by the distributor; status, touches and archive flags are kept |
| Leads.Lead.RecordAssignment | src/controllers/leadController.js:173-194 | the stored lead's new state is `Assigned` of its old state |
| Leads.Called | src/controllers/leadController.js:280-298 | touchCount rises by exactly one and one history entry `Call Attempt #<new count>: <outcome>` is appended |
| Leads.Lead.RecordCall | src/controllers/leadController.js:280-298 | the stored lead's new state is `Called` of its old state |
| Leads.Lead.MarkDead | src/controllers/leadController.js:301-306 | the stored lead becomes Archived, isArchived, with no owner and the dead-number reason |
| Leads.PreviousOwners | src/controllers/leadController.js:308 | the exclusion list holds exactly the owners named in the custody chain |
| Leads.FreshAgents | src/controllers/leadController.js:311-314 | the candidates are exactly the directory's Employees outside the exclusion list |
| Leads.RecycleOrExhaust | src/controllers/leadController.js:307-342 | history and custody only grow; the result is either New with 0 touches and an owner, or Archived without owner and with the touches kept |
| Leads.Lead.Recycle | src/controllers/leadController.js:307-342 | the stored lead's new state is `RecycleOrExhaust` of its old state |
| Leads.OutcomeStatus | src/controllers/leadController.js:285-289 | a call makes the lead Interested exactly for `Connected - Interested`; any outcome outside the four named ones gives Contacted; a call never yields New or Archived here |
| Leads.AfterCall | src/controllers/leadController.js:280-342 | touches rise by one unless the lead is recycled to 0; the call's history entry comes first; custody only grows; afterwards any lead that is neither Interested nor Archived has fewer than 8 touches; a call never un-archives |
| Leads.AfterCallOrdinary | src/controllers/leadController.js:285-298 | without a kill outcome or an exhausted budget, a call only counts the touch, maps the outcome to the status and logs the attempt |
| Leads.AfterCallKill | src/controllers/leadController.js:301-306 | DND and Wrong Number archive at once and clear the owner, whatever the budget; there is no recycle |
| Leads.AfterCallRecycle | src/controllers/leadController.js:307-342 | with the budget used up: with no fresh agent the lead is archived without owner; otherwise it goes to an Employee absent from the custody chain and not the caller, with one custody entry for the caller, status New, 0 touches and the `System Recycle` entry |
| Leads.Lead.LogCall | src/controllers/leadController.js:280-342 | the stored lead's new state is `AfterCall` of its old state (the corrected recycle rule, see ## Findings) |
| Leads.Overridden | src/controllers/leadController.js:393-411 | one custody entry {previous owner, admin, `Admin Override`} and one `Admin Override` entry are appended; the lead is New with 0 touches under the new owner, not archived, with no archive reason |
| Leads.Lead.AdminReassign | src/controllers/leadController.js:393-411 | the stored lead's new state is `Overridden` of its old state |
| Leads.ArchivedLeadsHaveNoOwner | src/controllers/leadController.js:301-342 | a call that archives a lead leaves it with no owner |
| Leads.PreviousOwnersAsWritten | src/controllers/leadController.js:308 | the exclusion list as written exists iff every custody entry names an owner (`toString` on null throws) |
| Leads.PreviousOwnersAgree | src/controllers/leadController.js:308 | where every entry names an owner, the written exclusion list equals `PreviousOwners` |
| Leads.AfterCallAsWrittenAgrees | src/controllers/leadController.js:280-342 | where every custody entry names an owner, the call as written equals `AfterCall` |
| Leads.AfterCallAsWritten | src/controllers/leadController.js:280-342 | the code throws exactly when the call reaches the recycle rule and some custody entry has no owner; a call that does not reach the rule agrees with `AfterCall` |
| Leads.OverrideOfUnownedLeadBreaksRecycle | src/controllers/leadController.js:393-398 | after an override of an unowned lead, every call reaching the recycle rule throws as written, while `AfterCall` still recycles or archives |
| LeadEngine.RowCandidate | src/controllers/leadController.js:58-77 | a row yields a lead iff it is non-empty and its first cell cleans, with that cleaned number |
| LeadEngine.Accepted | src/controllers/leadController.js:54-79 | the accepted numbers are pairwise distinct |
| LeadEngine.AcceptedGrows | src/controllers/leadController.js:57-79 | one more row only adds to the accepted numbers, and adds its number when it has one |
| LeadEngine.AcceptedComplete | src/controllers/leadController.js:57-79 | every number some row cleans to is accepted |
| LeadEngine.AcceptedFromFirstRow | src/controllers/leadController.js:63-77 | each accepted lead is what the first row with its number yields (first occurrence wins, name = cell 1 or "Unknown") |
| LeadEngine.ScanRows | src/controllers/leadController.js:54-79 | the row loop returns exactly `Accepted(rows)` |
| LeadEngine.LeadStore.constructor | src/models/Lead.js:4 | the empty store is valid: unique ids and unique phone numbers |
| LeadEngine.LeadStore.OpenBatch | src/controllers/leadController.js:38-43 | a new batch record under a fresh id; leads untouched |
| LeadEngine.LeadStore.DropBatch | src/controllers/leadController.js:83 | removes the batch record only |
| LeadEngine.LeadStore.SetBatch | src/controllers/leadController.js:91-92 | overwrites the batch record only |
| LeadEngine.LeadStore.InsertOne | src/models/Lead.js:4 | a candidate is stored iff its phone is not yet stored (the unique index); when stored, it is appended as a fresh lead made from the candidate |
| LeadEngine.LeadStore.InsertNext | src/controllers/leadController.js:89 | one step of the unordered bulk insert keeps the loop's bookkeeping |
| LeadEngine.LeadStore.InsertCandidates | src/controllers/leadController.js:89 | exactly the candidates whose numbers were not stored are appended, as fresh leads of the batch owned by the uploader; the count inserted is returned |
| LeadEngine.LeadStore.UploadSheet | src/controllers/leadController.js:37-106 | fails and changes nothing iff no row is accepted; otherwise the new leads are exactly `NotStored(Accepted(rows))`, the batch's totalCount is the number inserted, and inserted + skipped = accepted |
| LeadEngine.LeadStore.UploadLeads | src/controllers/leadController.js:31-106 | a missing file answers 400 and changes nothing; otherwise as `UploadSheet` |
| LeadEngine.StartMonotone | src/controllers/leadController.js:163-201 | with non-negative counts, a later slice never starts before an earlier one |
| LeadEngine.SliceBounds | src/controllers/leadController.js:163-201 | slices are consecutive, in list order, and none reaches past the total |
| LeadEngine.SlicesDisjoint | src/controllers/leadController.js:163-201 | a pool position belongs to at most one slice |
| LeadEngine.SliceOwnerOfSlice | src/controllers/leadController.js:166-201 | assignment j receives exactly the pool positions [sum of earlier counts, that sum + its own count) |
| LeadEngine.SliceOwnerBeyondTotal | src/controllers/leadController.js:163-203 | pool positions at or past the total go to nobody |
| LeadEngine.AssignSlice | src/controllers/leadController.js:170-198 | every lead in the slice is `Assigned` to the target; nothing else changes |
| LeadEngine.Waterfall | src/controllers/leadController.js:163-203 | each pool lead is moved to the owner of its position (`SliceOwner`), leads past the total are untouched, and the reported total is the sum of the counts |
| LeadEngine.PoolOf | src/controllers/leadController.js:152-155 | the pool is exactly the distributor's leads in status New, each once |
| LeadEngine.LeadStore.Distribute | src/controllers/leadController.js:139-214 | fails with 400 and writes nothing iff the list is missing or empty or the pool is smaller than the total; otherwise each pool lead is moved to the owner of its position, the total is reported, and leads outside the pool are untouched |
| LeadEngine.LeadStore.FindLead | src/controllers/leadController.js:275 | finds the position of the lead with the id, or reports that none has it |
| LeadEngine.LeadStore.LogCall | src/controllers/leadController.js:271-351 | 404 iff no lead has the id; otherwise that lead alone takes `AfterCall` (the corrected recycle rule, see ## Findings); the store keeps its touch budget |
| LeadEngine.LeadStore.AdminReassign | src/controllers/leadController.js:383-417 | 404 iff no lead has the id; otherwise that lead alone is `Overridden` |
| LeadEngine.KeepAfterDelete | src/controllers/leadController.js:443-447 | exactly the leads that are not (in the batch, New and untouched) are kept, and they stay distinct |
| LeadEngine.LeadManagerDeletesOnlyOwnNonAdminUploads | src/controllers/leadController.js:432-440 | a LeadManager may delete a batch only when it uploaded the batch itself and the uploader is not Admin |
| LeadEngine.LeadStore.DeleteBatch | src/controllers/leadController.js:421-456 | 404 for an unknown batch; 403 iff the permission rule fails; otherwise the safe delete runs, the batch record goes regardless, and the report gives the deleted count and the batch's retained leads |
| Rbac.CanManageTargetUser | src/middleware/rbac.js:35-44 | permission implies both roles are ranked, the actor outranks the target and the target is not Admin |
| Rbac.CanManageMatchesDocumentedReach | src/middleware/rbac.js:29-44 | the rank rule grants exactly the reach the comment documents (Admin/LeadManager everyone below, HR/BM TeamLead+Employee, TeamLead Employee) |
| Rbac.UnknownRolesManageNothing | src/middleware/rbac.js:36-37 | a role missing from ROLE_RANK on either side gives false |
| Rbac.NobodyManagesAdmin | src/middleware/rbac.js:40-43 | no actor, Admin included, can manage an Admin |
| Rbac.CanManageIffOutranks | src/middleware/rbac.js:43 | for ranked roles, permission iff the actor's rank is strictly higher |
| Rbac.CanManageIsStrictOrder | src/middleware/rbac.js:35-44 | the relation is irreflexive, asymmetric and transitive; equal-rank pairs cannot manage each other |
| Rbac.AuthorizeRoles | src/middleware/rbac.js:19-27 | 401 without a role, 403 outside the allowed set, pass iff the role is allowed |
| Rbac.AuthorizeRolesMonotone | src/middleware/rbac.js:19-27 | allowing more roles never refuses a request that passed |
| Rbac.TargetId | src/middleware/rbac.js:53-54 | the first non-empty of body, params and query id, or none |
| Rbac.RequireCanManageTarget | src/middleware/rbac.js:51-72 | 400 without a target id, 500 on a failed lookup, 404 iff the target is missing, 403 iff `CanManageTargetUser` fails; on success the target is the directory user with that id and is manageable |
| Deny.DenyRoles | src/middleware/denyRoles.js:5-13 | 401 without a role, 403 for a blocked role, pass iff the role is present and not blocked |
| Deny.EmptyDenyListPassesEveryRole | src/middleware/denyRoles.js:6-11 | with nothing blocked, every request carrying a role passes |
| Deny.DenyComplementsAuthorize | src/middleware/denyRoles.js:8-11 | blocking a set is the complement of allowing exactly that set, for requests carrying a role |
| Gatekeeper.Gatekeeper | src/middleware/gatekeeper.js:3-29 | Admin and BranchManager pass; any other role passes iff the lookup succeeds and a record exists for (user, today); a missing record answers 403, a failed lookup 500 |
| Gatekeeper.ImmuneRolesSkipLookup | src/middleware/gatekeeper.js:6-8 | for Admin and BranchManager the answer does not depend on the attendance store or on lookup failure |
| Gatekeeper.GateIsPerUserAndDay | src/middleware/gatekeeper.js:11-25 | a clock-in by another user or on another day does not open the gate |
| Dates.IsValidYMD | src/controllers/leaveController.js:38 | the pattern matches exactly ten characters with `-` at positions 4 and 7 and an ASCII digit everywhere else |
| Dates.FormatYMD | src/controllers/leaveController.js:16-21 | a date with a four-digit year prints in the shape `isValidYMD` accepts |
| Dates.ShapeOnlyExample | src/controllers/leaveController.js:38 | `isValidYMD` checks the shape `DDDD-DD-DD` only: it admits `2024-13-45`, which parses by rolling over to 2025-02-14 |
| Dates.ParseYMD | src/controllers/leaveController.js:10-14 | parses exactly the strings of the valid shape, always to a real date |
| Dates.FormatParse | src/controllers/leaveController.js:10-21 | formatting a parsed canonical date string gives the string back |
| Dates.FormatInjective | src/controllers/leaveController.js:16-21 | distinct real dates print differently |
| Dates.MakeDate | src/controllers/leaveController.js:12-13 | `Date.UTC` rolls an out-of-range month or day over to a real date with the expected day number |
| Dates.Succ | src/controllers/leaveController.js:32 | the next day of a real date is a real date |
| Dates.SuccIndex | src/controllers/leaveController.js:32 | the next day is exactly one day later |
| Dates.DayIndexMonotone | src/controllers/leaveController.js:27 | the time value grows strictly with calendar order |
| Dates.DayIndexInjective | src/controllers/leaveController.js:27 | distinct real dates have distinct time values |
| Dates.DateRange | src/controllers/leaveController.js:23-36 | one entry per day of the range; empty exactly when an end does not parse or the start is after the end |
| Dates.EachDateInclusive | src/controllers/leaveController.js:23-36 | the loop returns exactly `DateRange` |
| Dates.WalkDays | src/controllers/leaveController.js:29-35 | from start to end inclusive, the loop lists one printed date per day |
| Dates.DateRangeSpans | src/controllers/leaveController.js:23-36 | empty when either date fails or start > end; otherwise length = day difference + 1, each entry one day after the previous, all distinct |
| Dates.DateRangeEnds | src/controllers/leaveController.js:23-36 | for canonical dates with start ≤ end, the first entry is the start string and the last the end string |
| Leave.CheckNewLeave | src/controllers/leaveController.js:48-59 | passes iff both dates have the valid shape, the type (default `Paid Leave`) is `Paid Leave` or `Half Day`, and start ≤ end; bad shapes answer 400 first |
| Leave.LeaveBook.constructor | src/models/LeaveRequest.js:1-46 | an empty set of requests |
| Leave.Overlaps | src/controllers/leaveController.js:61-70 | a request lying inside an approved leave of the same user overlaps it, and so does one that covers it (dates compared as strings) |
| Leave.LeaveBook.Create | src/controllers/leaveController.js:44-85 | the check's 400s; a 400 when an approved leave of the user overlaps (dates compared as strings); otherwise one Pending request is appended |
| Leave.LeaveBook.Cancel | src/controllers/leaveController.js:108-126 | 404 unknown, 403 not the owner, 400 not Pending; success iff owner and Pending, and then only that request becomes Cancelled |
| Leave.LeaveDayStatus | src/controllers/leaveController.js:179 | `Half Day` iff the leave is a half day, else `Paid Leave` |
| Leave.ApprovalMarksEachDay | src/controllers/leaveController.js:177-200 | an approval upserts one row per day of the range, each with the leave status, no lateness and one new history entry; every other row is unchanged |
| Leave.LeaveBook.Decide | src/controllers/leaveController.js:156-209 | only `Approved`/`Rejected`, only from Pending; records status, decidedBy, decidedAt and remarks; an approval marks every day of the range in the attendance book, a rejection changes no attendance |
| Attendance.ZeroDurations | src/controllers/attendanceController.js:71 | all six status buckets, each at zero |
| Attendance.ClockIn | src/controllers/attendanceController.js:36-73 | a first record is Online with login time now; late iff the start minute > 570, then lateBy = start − 570 > 0, else lateBy 0; zero buckets; a one-entry history |
| Attendance.ShiftAtMostEightHours | src/controllers/attendanceController.js:56-60 | on time: logout = login + 8 h; late: 17:30 that day, under 8 h; from 17:30 on, the logout is already past |
| Attendance.Switched | src/controllers/attendanceController.js:87-100 | the elapsed whole seconds go to the old status's bucket only; the last history entry is closed and one entry appended; status and lastStatusChange updated; login and lateness kept |
| Attendance.TotalAfterUpdate | src/controllers/attendanceController.js:90 | adding to one bucket adds the same to the total |
| Attendance.StepKeepsAccount | src/controllers/attendanceController.js:85-100 | one switch keeps the buckets accounting for the time since login |
| Attendance.TimeIsAccountedFor | src/controllers/attendanceController.js:62-100 | after a clock-in and any series of switches, the buckets account for the time since login, up to one second per switch lost to rounding down |
| Attendance.Live | src/controllers/attendanceController.js:117-142 | no record: Offline with no durations; otherwise the stored buckets, except the current status's bucket, which gains the active seconds |
| Attendance.LiveAgreesWithSwitch | src/controllers/attendanceController.js:127-132 | the live view shows the buckets a switch at the same moment would store |
| Attendance.LeaveDay | src/controllers/leaveController.js:182-198 | an upserted leave row has the leave status, no lateness and one more history entry; an existing row keeps its buckets and login; a new one starts at zero |
| Attendance.LeaveDaysEach | src/controllers/leaveController.js:181-199 | for distinct dates, each listed day is upserted and every other row is unchanged |
| Attendance.AttendanceBook.constructor | src/models/Attendance.js:1-40 | an empty attendance collection |
| Attendance.AttendanceBook.UpdateStatus | src/controllers/attendanceController.js:4-114 | 400 for a first Online before 09:00; 400 for a first status other than Online; a clock-in creates `ClockIn`; the same status changes nothing; a switch stores `Switched`; on success today's record exists |
| Attendance.AttendanceBook.Status | src/controllers/attendanceController.js:117-142 | with no record today, Offline with no durations; otherwise the record's current status |
| Attendance.AttendanceBook.MarkLeaveDays | src/controllers/leaveController.js:181-199 | the approval loop leaves the rows as `AfterLeaveDays` |
| Tickets.Recipient | src/controllers/ticketController.js:10-24 | always Admin or BranchManager; Admin iff priority High or the creator is BranchManager or Admin |
| Tickets.NewTicket | src/controllers/ticketController.js:26-33 | saved iff the enums accept category and priority (with defaults) and subject and description are given; records the creator, the routed recipient and the fields, status Open |
| Tickets.TicketDesk.constructor | src/models/Ticket.js:1-31 | an empty ticket collection |
| Tickets.TicketDesk.Create | src/controllers/ticketController.js:4-40 | success iff the ticket validates, then exactly that ticket is appended; otherwise 500 and nothing stored |
| Tickets.VisibleTickets | src/controllers/ticketController.js:43-80 | the list holds only stored tickets the requester may see, and as many as there are |
| Tickets.VisibilityByRole | src/controllers/ticketController.js:48-74 | Admin sees every ticket, newest first; a BranchManager sees exactly the tickets routed to BranchManager or created by itself; anyone else exactly its own tickets |
| Tickets.RaisedTicketIsSeen | src/controllers/ticketController.js:26-74 | a new ticket appears at the head (newest first) of its creator's and its recipient's lists |
| Tickets.ResolveKeepsVisibility | src/controllers/ticketController.js:96-101 | resolving changes nobody's number of visible tickets |
| Tickets.TicketDesk.Resolve | src/controllers/ticketController.js:83-107 | 400 without details before the role check; 403 unless Admin or BranchManager; a known ticket becomes Resolved with the details, resolver and date; an unknown id changes nothing and still answers success |
| Hr.StaffCount | src/controllers/hrController.js:30 | at most the number of users |
| Hr.RoleCount | src/controllers/hrController.js:30-35 | at most the staff count; zero for Admin |
| Hr.Headcount | src/controllers/hrController.js:27-46 | total = number of non-Admin users; each listed role's count is exact and positive; every non-Admin role appears; Admin never does; the counts sum to the total |
| Hr.TallyOne | src/controllers/hrController.js:33-37 | one `reduce` step keeps the tally exact for one more user |
| Hr.RoleCountsCoverStaff | src/controllers/hrController.js:32-39 | over a list naming every staff role once, the per-role counts sum to the staff count |
| Hr.RoleOrder | src/controllers/hrController.js:117-121 | roles outside the table sort last (9) |
| Hr.ReportsOf | src/controllers/hrController.js:104-108 | a manager's child list holds exactly the nodes reporting to it |
| Hr.ReportsOfOnce | src/controllers/hrController.js:104-108 | each reporting node is listed once under its manager |
| Hr.SortByRole | src/controllers/hrController.js:119-124 | the children are a permutation of the input, ordered BranchManager < TeamLead < Employee < unknown |
| Hr.InsertByRank | src/controllers/hrController.js:119-124 | inserting one child keeps the order and adds exactly that child |
| Hr.EmptyNodes | src/controllers/hrController.js:91-101 | one node with no children per chart member |
| Hr.AttachAll | src/controllers/hrController.js:103-108 | every node is attached to exactly the manager it reports to, when that manager is in the map |
| Hr.BranchManagerIds | src/controllers/hrController.js:111-114 | the roots are the branch managers, in store order |
| Hr.SortAll | src/controllers/hrController.js:118-127 | every child list is reordered by role and loses or gains nothing |
| Hr.BuildOrgChart | src/controllers/hrController.js:83-143 | one node per chart member; each child list is ordered by role and holds exactly its reports; the roots are the branch managers |
| Hr.ChartPlacement | src/controllers/hrController.js:104-108 | a member appears under a node iff it reports to that node, and at most once |
| Hr.RootsAreBranchManagers | src/controllers/hrController.js:110-114 | the roots are exactly the ids of branch managers |
| Hr.CheckPeriod | src/controllers/hrController.js:156-159 | passes iff month and year are non-zero and 1 ≤ month ≤ 12; the two 400 messages in order |
| Hr.PayrollRoles | src/controllers/hrController.js:168-170 | the requested roles when there are some, otherwise TeamLead and Employee |
| Hr.Payees | src/controllers/hrController.js:172-174 | the payees are exactly the users who hold a covered role and are not Admin |
| Hr.LateDaysWithinPresent | src/controllers/hrController.js:186-187 | late days never exceed present days |
| Hr.NetPay | src/controllers/hrController.js:190-196 | net pay is ≥ 0 and equals basic + allowances − fixed − 50 × lateDays unless that is negative, in which case it is 0 |
| Hr.LatenessNeverRaisesPay | src/controllers/hrController.js:190-196 | more late days never raise pay, and each costs at most 50 |
| Hr.PayslipNumber | src/controllers/hrController.js:198 | starts with `PS-` |
| Hr.PayslipNumberIdentifies | src/controllers/hrController.js:198 | equal payslip numbers mean the same year, the same month and the same upper-cased last six id characters |
| Hr.ItemFor | src/controllers/hrController.js:180-211 | an item for the user and run, with late days ≤ present days and net pay ≥ 0 |
| Hr.OneItemPerPayee | src/controllers/hrController.js:176-212 | exactly one item per payee, in payee order, each for that payee and run, with distinct users |
| Hr.BuildItems | src/controllers/hrController.js:179-212 | the loop builds one item per payee, in order |
| Hr.PayrollLedger.constructor | src/models/PayrollRun.js:1-18 | no runs and no items |
| Hr.PayrollLedger.Generate | src/controllers/hrController.js:152-227 | fails iff the period check fails, storing nothing; otherwise one Draft run is opened and exactly `ItemsFor` its payees is stored |
| Hr.PayrollLedger.Finalize | src/controllers/hrController.js:258-273 | 404 for an unknown run; otherwise exactly that run becomes Finalized; the items are untouched |
| Auth.NewUserRole | src/controllers/authController.js:56-60 | a role only for creators Admin, BranchManager and TeamLead, and then BranchManager, TeamLead or Employee |
| Auth.LadderStepsDownOneRank | src/controllers/authController.js:56-60 | each rung goes exactly one rank down, so the creator can manage the new account; it never creates Admin, HR or LeadManager |
| Auth.Directory.constructor | src/models/User.js:1-46 | a directory holding the given users |
| Auth.Directory.Register | src/controllers/authController.js:49-82 | 403 and nothing created for other creators; 400 for an existing email; otherwise exactly one account is appended, with the laddered role and reportsTo = creator; unique emails and ids are kept |
| Users.FindFirst | src/controllers/authController.js:63 | finds a record whose key field has exactly that value, or reports that none exists |
| Users.FindFirstAppend | src/controllers/authController.js:63 | a record appended with a key no earlier record has is the one found |
| Users.FindByEmail | src/controllers/authController.js:63 | finds a user with exactly that email, or reports that none exists |
| Users.FindById | src/middleware/rbac.js:57 | finds the user with that id, or reports that none exists |
| Text.Trim | src/controllers/authController.js:24 | the result never begins or ends with white space; a string with nothing to strip comes back unchanged; an all-white-space string becomes empty |
| Auth.Login | src/controllers/authController.js:24-34 | the email is trimmed before the lookup; 400 for an unknown email and for a password not equal to the stored one; success iff both match, and then it is that account |
| Auth.TrimIdempotent | src/controllers/authController.js:24 | trimming twice is trimming once |
| Auth.PaddedEmailNeverSignsIn | src/controllers/authController.js:24 | only accounts whose stored email has no surrounding white space can ever sign in |
| Auth.RegisteredAccountSignsIn | src/controllers/authController.js:24-76 | a freshly registered account with an unpadded email signs in with its own email and password |
| Dashboard.TeamUsers | src/controllers/dashboardController.js:14-24 | Admin and LeadManager get every user; any other role gets exactly the users reporting to it, plus itself |
| Dashboard.Tracked | src/controllers/dashboardController.js:30-32 | exactly the team's TeamLeads and Employees |
| Dashboard.TodayRowsArePresent | src/controllers/dashboardController.js:41-48 | the rows fetched today number exactly the tracked users present |
| Dashboard.Summarize | src/controllers/dashboardController.js:46-53 | total = tracked users; present = those with a row; absent = total − present ≥ 0; late, online and on-call each ≤ present |
| Dashboard.OnlineAndOnCallDisjoint | src/controllers/dashboardController.js:51-52 | online + on-call ≤ present |
| Dashboard.CallActions | src/controllers/dashboardController.js:69 | `/^Call/i` matches every logged call attempt, and not `Assignment`, `System Recycle` or `Admin Override` |
| Dashboard.LoggedCallCounts | src/controllers/dashboardController.js:66-70 | a call a team member logs today makes the lead count as contacted |
| Dashboard.LeadStats | src/controllers/dashboardController.js:60-70 | both counts are bounded by the number of leads; each is zero iff no lead is held by the team (not archived) or called by the team today, respectively (the corrected "contacted today" query, see ## Findings) |
| Dashboard.ContactedIsMatched | src/controllers/dashboardController.js:66-70 | every lead called today is also matched by the query as written |
| Dashboard.HandedOnLeadCountsAsContacted | src/controllers/dashboardController.js:66-70 | the query as written matches a lead that no team member called today |
| Dashboard.ContactedCountBelowAsWritten | src/controllers/dashboardController.js:66-70 | the intended contacted count never exceeds the count as written |
| Dashboard.ManagerDashboard | src/controllers/dashboardController.js:5-78 | the attendance summary is `Summarize` over the tracked part of the team: total = tracked count, absent = total − present ≥ 0; the lead figures are `LeadStats` over the ids of the whole team, bounded by the leads (the corrected "contacted today" query, see ## Findings) |

## Left out

- Spreadsheet parsing (`xlsx.read`, `sheet_to_json`): the model takes the rows as a given sequence of cells.
- Phone.Cell: a numeric cell is a whole number whose `String` form has no exponent, that is below 1e21 in size. A fractional number prints with a `.`: the cell 98765432.15 gives the digits 9876543215, which `cleanPhoneNumber` accepts. Such cells, numbers from 1e21 up, `NaN`, and boolean or date cells cannot be expressed.
- MongoDB mechanics. `insertMany` with `ordered: false` becomes a per-candidate insert-if-phone-absent. `bulkWrite` becomes a loop of per-lead updates. The upsert of a leave day becomes a map update. `populate` is not modelled. The newest-first sort of `getTickets` is modelled as the reverse of store order, since tickets are stored in the order they are raised; the other `sort` and `limit` calls belong to the listings left out below.
- `Math.random` when recycling: the draw is the parameter `pick`, and the agent taken is `pick` modulo the number of candidates. Any agent can be chosen that way.
- The clock and time zones (`new Date()`, `toISOString`, `getHours`). "Now" is an `Instant` (milliseconds plus local minute of day), "today" is a date string, and the dashboard's day bounds are parameters. src/utils/dateUtils.js is not part of this model.
- Floating point: `durationMinutes` (`toFixed`) is not stored in a history span. `getDashboardStats` and its `estimatedEarnings` are aggregation over floats and are not modelled. Payroll amounts are whole numbers.
- The name tie-break (`localeCompare`) of the org chart: siblings of equal role rank may end up in any order. `reportsTo` is taken to be acyclic, and the tree is modelled as child lists per node.
- JWT signing, the password logging in `login`, hash.js, server.js, the routes, `calendarController.js` and `taskController.js`: these are wiring, foreign calls or plain CRUD. Read-only listings (`getUploadBatches`, `getBatchDetails`, `getMyLeads`, `getLeadLifecycle`, `getArchivedLeads`, `getMyLeaves`, `hrListLeaves`, `getAttendanceHistory`, `getPayrollRun`, `getMySubordinates`, `getAllUsers`) and the PDF payslip are left out.
- `callCount`, `lastCallOutcome` and `lastCallDate`: `logCall` sets them, but they are not in the Lead schema, so they are not stored, and the model leaves them out.
- A thrown database error (the generic 500) is modelled only where the code makes one predictable. Those are: a lookup failure in `requireCanManageTarget` and `gatekeeper`, the missing email in `login`, and a schema validation failure.
- LeadEngine.LeadStore.LogCall: a custody entry with no owner makes the recycle rule throw, so `logCall` answers 500. That is the first finding below. `AfterCallAsWritten` states it, and the handlers use the corrected rule, which skips the entry instead of answering 500.
- Tickets.VisibleTickets: tickets raised in the same millisecond share a `createdAt`, and the database may list them in either order. The model lists the later-stored one first.
- LeadEngine.LeadStore.Distribute: requires non-negative counts. `Number(item.count)` lets through negatives and NaN, which make `totalRequested` and `slice` disagree; the model does not cover that.
- Dashboard.Summarize: the on-call names come out in the order of the tracked users. The attendance query gives no ordering guarantee, so the code may list them in another order.
- LeadEngine.LeadStore.Distribute: the pool is the store order of the distributor's New leads; the database gives no ordering guarantee.
- LeadEngine.LeadStore.UploadSheet: the uploaded leads keep only the phone, name, owner and batch; `data.originalRaw` is not stored.
- Leave.LeaveBook.Create: `reason` defaults to the empty string; free-text fields are not validated.
- Attendance.AttendanceBook.UpdateStatus: a first login at or after 17:30 gets a scheduled logout that has already passed. `ShiftAtMostEightHours` states this; it is not corrected.
- Attendance.LeaveDay: the statuses `Paid Leave` and `Half Day` are written although the Attendance status enum does not list them (upsert validators are off). The model writes them as the code does.
- Gatekeeper.Gatekeeper: a leave-day row created by an approval counts as clocked in, so an employee on leave passes the gate.
- Dates.ParseYMD: a year from 0 to 99 is read as 1900 to 1999, as `Date.UTC` does. Strings whose shape fails `isValidYMD` do not parse. Every caller checks the shape first.
- Hr.CheckPeriod: month and year are the numbers `Number(...)` produced, with 0 standing for a missing or non-numeric value. A negative year passes, as in the code. So do a fractional month such as `"1.5"` and an infinite year: they pass both checks, and the code then uses the attendance prefix `2026-1.5-` and payslip numbers `PS-20261.5-…`. The model's whole-number month cannot express them.
- Hr.ItemFor: the earnings and deductions breakdowns are dropped, because PayrollItem's schema does not declare them.
- Users: LeadManager is not in the User schema's role enum; roles are modelled as strings throughout.

## Findings

| source | as written | input that shows it | evidently intended | confidence | as-written member | corrected member |
|---|---|---|---|---|---|---|
| src/controllers/leadController.js:308 | `custodyChain.map(entry => entry.assignedTo.toString())` throws on a custody entry whose owner is null. `adminReassign` pushes such an entry when it reassigns an archived lead, since archived leads have no owner (lines 393-398). | A lead is archived by a `DND` call and then reassigned by an admin. When the new owner logs the 8th touch with an outcome other than `Connected - Interested`, `DND` or `Wrong Number`, the call answers 500 before saving, and so does every later such call. Those three outcomes never reach the recycle rule, so they still save. | Skip null owners when building the exclusion list; the recycle or exhaust rule then runs as for any other lead. | not executed; high | Leads.OverrideOfUnownedLeadBreaksRecycle | Leads.AfterCall |
| src/controllers/dashboardController.js:66-70 | The three `history.*` conditions are separate array-field conditions, so different history entries may satisfy each of them (including each bound of the date range). | A lead was called by an outsider on an earlier day and then handed on today by a team member through an `Assignment` entry. It counts as "contacted today" although nobody on the team called it. | Count a lead when one history entry is a call, by a team member, today (`$elemMatch`). | not executed; high | Dashboard.HandedOnLeadCountsAsContacted | Dashboard.LeadStats |
