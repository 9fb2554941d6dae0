/** The leave workflow (src/controllers/leaveController.js:44-209) over the
    requests of src/models/LeaveRequest.js: an employee files and cancels
    requests, HR decides them, and an approval writes attendance rows for
    every day of the range. */
module Leave {
  import opened Common
  import opened Text
  import opened Dates
  import opened Attendance

  datatype LeaveStatus = Pending | Approved | Rejected | Cancelled

  function StatusName(s: LeaveStatus): string
  {
    match s
    case Pending => "Pending"
    case Approved => "Approved"
    case Rejected => "Rejected"
    case Cancelled => "Cancelled"
  }

  const PAID_LEAVE: string := "Paid Leave"
  const HALF_DAY: string := "Half Day"

  datatype LeaveRequest = LeaveRequest(
    user: Id,
    startDate: string,
    endDate: string,
    kind: string,
    reason: string,
    status: LeaveStatus,
    decidedBy: Option<Id>,
    decisionRemarks: string,
    decidedAt: Option<int>)

  /** `type || 'Paid Leave'`. */
  function LeaveType(kind: Option<string>): string
  {
    if kind.None? || kind.value == "" then PAID_LEAVE else kind.value
  }

  /** `typeof s === 'string' ? s : ''`. */
  function TextOr(s: Option<string>): string
  {
    if s.Some? then s.value else ""
  }

  /** The checks `createLeaveRequest` makes on the request itself, in order;
      on success, the leave type to store. */
  function CheckNewLeave(startDate: string, endDate: string, kind: Option<string>): (r: Result<string>)
    ensures r.Ok? <==>
      IsValidYMD(startDate) && IsValidYMD(endDate) &&
      (LeaveType(kind) == PAID_LEAVE || LeaveType(kind) == HALF_DAY) &&
      DayIndex(ParseYMD(startDate).value) <= DayIndex(ParseYMD(endDate).value)
    ensures r.Ok? ==> r.value == LeaveType(kind)
    ensures !IsValidYMD(startDate) || !IsValidYMD(endDate) ==>
      r == Err(400, "startDate and endDate must be YYYY-MM-DD")
    ensures kind.None? ==> r.Ok? || r.msg != "Invalid type. Use 'Paid Leave' or 'Half Day'."
  {
    if !IsValidYMD(startDate) || !IsValidYMD(endDate) then Err(400, "startDate and endDate must be YYYY-MM-DD")
    else
      var t := LeaveType(kind);
      if t != PAID_LEAVE && t != HALF_DAY then Err(400, "Invalid type. Use 'Paid Leave' or 'Half Day'.")
      else if DayIndex(ParseYMD(startDate).value) > DayIndex(ParseYMD(endDate).value) then
        Err(400, "startDate cannot be after endDate")
      else Ok(t)
  }

  /** The overlap query: an approved leave of the same user whose range
      meets the new one, with the dates compared as strings. A request
      lying inside an approved leave overlaps it, and so does one that
      covers it. */
  predicate Overlaps(l: LeaveRequest, user: Id, startDate: string, endDate: string)
    ensures (l.user == user && l.status == Approved && LessEq(startDate, endDate) &&
             LessEq(l.startDate, startDate) && LessEq(endDate, l.endDate)) ==> Overlaps(l, user, startDate, endDate)
    ensures (l.user == user && l.status == Approved && LessEq(l.startDate, l.endDate) &&
             LessEq(startDate, l.startDate) && LessEq(l.endDate, endDate)) ==> Overlaps(l, user, startDate, endDate)
  {
    LessEqTrans(l.startDate, startDate, endDate);
    LessEqTrans(startDate, endDate, l.endDate);
    LessEqTrans(l.startDate, l.endDate, endDate);
    LessEqTrans(startDate, l.startDate, l.endDate);
    l.user == user && l.status == Approved && LessEq(l.startDate, endDate) && LessEq(startDate, l.endDate)
  }

  /** The attendance status an approved leave writes for each of its days. */
  function LeaveDayStatus(kind: string): (s: string)
    ensures s == HALF_DAY || s == PAID_LEAVE
    ensures s == HALF_DAY <==> kind == HALF_DAY
  {
    if kind == HALF_DAY then HALF_DAY else PAID_LEAVE
  }

  /** The attendance rows after an approval of `l` at `now`. */
  function ApprovedRows(records: map<(Id, string), AttendanceRecord>, l: LeaveRequest, now: Instant): map<(Id, string), AttendanceRecord>
  {
    AfterLeaveDays(records, l.user, DateRange(l.startDate, l.endDate), LeaveDayStatus(l.kind), now)
  }

  /** An approval writes one row for each day from the start through the end
      date, each with the leave's status, no lateness and exactly one new
      history entry; every other row is left as it was. */
  lemma ApprovalMarksEachDay(records: map<(Id, string), AttendanceRecord>, l: LeaveRequest, now: Instant)
    ensures var range := DateRange(l.startDate, l.endDate);
      |range| == RangeLength(l.startDate, l.endDate) &&
      forall k :: 0 <= k < |range| ==>
        (l.user, range[k]) in ApprovedRows(records, l, now) &&
        ApprovedRows(records, l, now)[(l.user, range[k])] ==
          LeaveDay(Lookup(records, (l.user, range[k])), LeaveDayStatus(l.kind), now)
    ensures forall key: (Id, string) :: (key.0 != l.user || key.1 !in DateRange(l.startDate, l.endDate)) ==>
      Lookup(ApprovedRows(records, l, now), key) == Lookup(records, key)
  {
    DateRangeSpans(l.startDate, l.endDate);
    LeaveDaysEach(records, l.user, DateRange(l.startDate, l.endDate), LeaveDayStatus(l.kind), now);
  }

  /** The leave-request collection; a request's id is its position. */
  class LeaveBook {
    var requests: seq<LeaveRequest>

    constructor()
      ensures requests == []
    {
      requests := [];
    }

    predicate HasApprovedOverlap(user: Id, startDate: string, endDate: string)
      reads this
    {
      exists i :: 0 <= i < |requests| && Overlaps(requests[i], user, startDate, endDate)
    }

    /** `createLeaveRequest`: validate, refuse an overlap with an approved
        leave, then file a pending request. */
    method Create(user: Id, startDate: string, endDate: string, kind: Option<string>, reason: Option<string>)
      returns (r: Result<nat>)
      modifies this
      ensures CheckNewLeave(startDate, endDate, kind).Err? ==>
        r == Err(400, CheckNewLeave(startDate, endDate, kind).msg) && requests == old(requests)
      ensures CheckNewLeave(startDate, endDate, kind).Ok? && old(HasApprovedOverlap(user, startDate, endDate)) ==>
        r == Err(400, "You already have an approved leave overlapping these dates.") && requests == old(requests)
      ensures r.Ok? <==> CheckNewLeave(startDate, endDate, kind).Ok? && !old(HasApprovedOverlap(user, startDate, endDate))
      ensures r.Ok? ==>
        r.value == |old(requests)| &&
        requests == old(requests) + [LeaveRequest(user, startDate, endDate, CheckNewLeave(startDate, endDate, kind).value,
                                                  TextOr(reason), Pending, None, "", None)]
    {
      var check := CheckNewLeave(startDate, endDate, kind);
      if check.Err? {
        return Err(400, check.msg);
      }
      if HasApprovedOverlap(user, startDate, endDate) {
        return Err(400, "You already have an approved leave overlapping these dates.");
      }
      requests := requests + [LeaveRequest(user, startDate, endDate, check.value, TextOr(reason), Pending, None, "", None)];
      r := Ok(|requests| - 1);
    }

    /** `cancelMyLeave`: only the owner, and only while pending. */
    method Cancel(id: nat, user: Id) returns (r: Result<()>)
      modifies this
      ensures id >= |old(requests)| ==> r == Err(404, "Leave not found")
      ensures id < |old(requests)| && old(requests)[id].user != user ==> r == Err(403, "Forbidden")
      ensures id < |old(requests)| && old(requests)[id].user == user && old(requests)[id].status != Pending ==>
        r == Err(400, "Only Pending requests can be cancelled")
      ensures r.Ok? <==> id < |old(requests)| && old(requests)[id].user == user && old(requests)[id].status == Pending
      ensures r.Ok? ==> requests == old(requests)[id := old(requests)[id].(status := Cancelled)]
      ensures r.Err? ==> requests == old(requests)
    {
      if id >= |requests| {
        return Err(404, "Leave not found");
      }
      var leave := requests[id];
      if leave.user != user {
        return Err(403, "Forbidden");
      }
      if leave.status != Pending {
        return Err(400, "Only Pending requests can be cancelled");
      }
      requests := requests[id := leave.(status := Cancelled)];
      r := Ok(());
    }

    /** `hrDecideLeave`: approve or reject a pending request, recording who
        decided, when and why; an approval also marks every day of the range
        in the attendance book. */
    method Decide(id: nat, decision: string, remarks: Option<string>, hr: Id, now: Instant, book: AttendanceBook)
      returns (r: Result<()>)
      modifies this, book
      ensures decision != "Approved" && decision != "Rejected" ==>
        r == Err(400, "decision must be 'Approved' or 'Rejected'")
      ensures (decision == "Approved" || decision == "Rejected") && id >= |old(requests)| ==>
        r == Err(404, "Leave not found")
      ensures (decision == "Approved" || decision == "Rejected") && id < |old(requests)| && old(requests)[id].status != Pending ==>
        r == Err(400, "Only Pending requests can be decided. Current: " + StatusName(old(requests)[id].status))
      ensures r.Ok? <==>
        (decision == "Approved" || decision == "Rejected") && id < |old(requests)| && old(requests)[id].status == Pending
      ensures r.Err? ==> requests == old(requests) && book.records == old(book.records)
      ensures r.Ok? ==> requests == old(requests)[id := old(requests)[id].(
        status := if decision == "Approved" then Approved else Rejected,
        decidedBy := Some(hr), decidedAt := Some(now.ms), decisionRemarks := TextOr(remarks))]
      ensures r.Ok? && decision == "Approved" ==> book.records == ApprovedRows(old(book.records), old(requests)[id], now)
      ensures r.Ok? && decision == "Rejected" ==> book.records == old(book.records)
    {
      if decision != "Approved" && decision != "Rejected" {
        return Err(400, "decision must be 'Approved' or 'Rejected'");
      }
      if id >= |requests| {
        return Err(404, "Leave not found");
      }
      var leave := requests[id];
      if leave.status != Pending {
        return Err(400, "Only Pending requests can be decided. Current: " + StatusName(leave.status));
      }
      leave := leave.(status := if decision == "Approved" then Approved else Rejected,
                      decidedBy := Some(hr), decidedAt := Some(now.ms), decisionRemarks := TextOr(remarks));
      requests := requests[id := leave];
      if decision == "Approved" {
        var dates := EachDateInclusive(leave.startDate, leave.endDate);
        book.MarkLeaveDays(leave.user, dates, LeaveDayStatus(leave.kind), now);
      }
      r := Ok(());
    }
  }
}
