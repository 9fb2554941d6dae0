/** The attendance clock (src/controllers/attendanceController.js:4-142) over
    the day records of src/models/Attendance.js, and the attendance rows the
    leave workflow writes on approval
    (src/controllers/leaveController.js:177-200).

    Times are milliseconds on the server clock. A request's clock reading
    also carries the local minute of the day (`getHours() * 60 +
    getMinutes()`), which the shift rules use. */
module Attendance {
  import opened Common
  import opened Text

  const ONLINE: string := "Online"
  const OFFLINE: string := "Offline"
  const ON_CALL: string := "On-call"
  const BREAK: string := "Break"
  const EVALUATION: string := "Evaluation"
  const LUNCH_TIME: string := "Lunch Time"

  /** The `currentStatus` enum; each has a duration bucket. */
  const STATUSES: set<string> := {ONLINE, OFFLINE, ON_CALL, BREAK, EVALUATION, LUNCH_TIME}

  const MINUTE_MS: int := 60000
  const HOUR_MS: int := 3600000
  /** First login of the day is refused before 09:00. */
  const SHIFT_OPENS: nat := 540
  /** Arriving after 09:30 is late. */
  const START_BENCHMARK: nat := 570
  /** A late arrival is scheduled out at 17:30. */
  const HARD_STOP: nat := 1050

  /** A clock reading: milliseconds, and the local minute of the day. */
  datatype Instant = Instant(ms: int, minuteOfDay: nat)

  predicate ValidInstant(now: Instant)
  {
    now.minuteOfDay < 1440
  }

  /** Local midnight of the reading's day (the zone offset is a whole number
      of minutes). */
  function LocalMidnight(now: Instant): int
  {
    now.ms - now.minuteOfDay * MINUTE_MS - now.ms % MINUTE_MS
  }

  /** One entry of a day's status history; `durationMinutes` is a float and
      is not modelled. */
  datatype StatusSpan = StatusSpan(status: string, startTime: int, endTime: Option<int>)

  /** One (user, date) attendance record. */
  datatype AttendanceRecord = AttendanceRecord(
    currentStatus: string,
    lastStatusChange: int,
    loginTime: Option<int>,
    scheduledLogout: Option<int>,
    isLate: bool,
    lateBy: int,
    durations: map<string, int>,
    history: seq<StatusSpan>)

  /** `durations[s] || 0`. */
  function Bucket(d: map<string, int>, s: string): int
  {
    if s in d then d[s] else 0
  }

  /** All six buckets at zero. */
  function ZeroDurations(): (d: map<string, int>)
    ensures d.Keys == STATUSES
    ensures forall s :: s in d ==> d[s] == 0
  {
    map s | s in STATUSES :: 0
  }

  /** The time recorded across the six buckets. */
  function Total(d: map<string, int>): int
  {
    Bucket(d, ONLINE) + Bucket(d, OFFLINE) + Bucket(d, ON_CALL) +
    Bucket(d, BREAK) + Bucket(d, EVALUATION) + Bucket(d, LUNCH_TIME)
  }

  /** `Math.floor((now - then) / 1000)`: whole seconds, rounded down. */
  function ElapsedSeconds(from: int, to: int): int
  {
    (to - from) / 1000
  }

  predicate Late(now: Instant)
  {
    now.minuteOfDay > START_BENCHMARK
  }

  /** Eight hours after login when on time; 17:30 the same day when late. */
  function ScheduledLogout(now: Instant): int
  {
    if !Late(now) then now.ms + 8 * HOUR_MS else LocalMidnight(now) + HARD_STOP * MINUTE_MS
  }

  /** The record a first `Online` of the day creates. */
  function ClockIn(now: Instant): (r: AttendanceRecord)
    ensures r.currentStatus == ONLINE && r.loginTime == Some(now.ms) && r.lastStatusChange == now.ms
    ensures r.isLate <==> now.minuteOfDay > START_BENCHMARK
    ensures r.isLate ==> r.lateBy == now.minuteOfDay - START_BENCHMARK > 0
    ensures !r.isLate ==> r.lateBy == 0
    ensures r.durations.Keys == STATUSES && Total(r.durations) == 0
    ensures r.history == [StatusSpan(ONLINE, now.ms, None)]
  {
    var late := Late(now);
    AttendanceRecord(
      ONLINE, now.ms, Some(now.ms), Some(ScheduledLogout(now)),
      late, if late then now.minuteOfDay - START_BENCHMARK else 0,
      ZeroDurations(), [StatusSpan(ONLINE, now.ms, None)])
  }

  /** The scheduled shift never exceeds eight hours: it is exactly eight
      hours for an on-time arrival and ends at 17:30 for a late one, which
      is less than eight hours after any arrival past 09:30. A first login
      at or after 17:30 is scheduled out at a time already past. */
  lemma ShiftAtMostEightHours(now: Instant)
    requires ValidInstant(now)
    ensures !Late(now) ==> ScheduledLogout(now) - now.ms == 8 * HOUR_MS
    ensures Late(now) ==> ScheduledLogout(now) - LocalMidnight(now) == HARD_STOP * MINUTE_MS
    ensures Late(now) ==> ScheduledLogout(now) - now.ms < 8 * HOUR_MS
    ensures now.minuteOfDay >= HARD_STOP ==> ScheduledLogout(now) <= now.ms
  {
    var m := now.minuteOfDay;
    assert now.ms - LocalMidnight(now) == m * 60000 + now.ms % 60000;
    if Late(now) {
      assert m * 60000 >= 571 * 60000;
    }
    if m >= HARD_STOP {
      assert m * 60000 >= 1050 * 60000;
    }
  }

  function ClockInMessage(r: AttendanceRecord): string
  {
    if r.isLate then "Clocked In (Late by " + IntToString(r.lateBy) + " mins)" else "Clocked In Successfully"
  }

  /** A status switch: the elapsed whole seconds go to the outgoing status's
      bucket, the open history entry is closed, and a new one is opened. A
      bucket outside the schema's six is not stored. */
  function Switched(rec: AttendanceRecord, newStatus: string, now: Instant): (r: AttendanceRecord)
    ensures r.currentStatus == newStatus && r.lastStatusChange == now.ms
    ensures rec.currentStatus in STATUSES ==>
      Bucket(r.durations, rec.currentStatus) ==
      Bucket(rec.durations, rec.currentStatus) + ElapsedSeconds(rec.lastStatusChange, now.ms)
    ensures forall s :: s != rec.currentStatus ==> Bucket(r.durations, s) == Bucket(rec.durations, s)
    ensures |r.history| == |rec.history| + 1
    ensures r.history[|rec.history|] == StatusSpan(newStatus, now.ms, None)
    ensures forall i :: 0 <= i < |rec.history| - 1 ==> r.history[i] == rec.history[i]
    ensures |rec.history| > 0 ==>
      r.history[|rec.history| - 1] == rec.history[|rec.history| - 1].(endTime := Some(now.ms))
    ensures r.loginTime == rec.loginTime && r.scheduledLogout == rec.scheduledLogout
    ensures r.isLate == rec.isLate && r.lateBy == rec.lateBy
  {
    var old_ := rec.currentStatus;
    var durations := if old_ in STATUSES
      then rec.durations[old_ := Bucket(rec.durations, old_) + ElapsedSeconds(rec.lastStatusChange, now.ms)]
      else rec.durations;
    var h := rec.history;
    var closed := if |h| > 0 then h[|h| - 1 := h[|h| - 1].(endTime := Some(now.ms))] else h;
    rec.(currentStatus := newStatus, lastStatusChange := now.ms, durations := durations,
         history := closed + [StatusSpan(newStatus, now.ms, None)])
  }

  lemma TotalAfterUpdate(d: map<string, int>, s: string, x: int)
    requires s in STATUSES
    ensures Total(d[s := Bucket(d, s) + x]) == Total(d) + x
  {
  }

  /** What one `updateStatus` call does to an existing record. */
  function Step(rec: AttendanceRecord, newStatus: string, now: Instant): AttendanceRecord
  {
    if rec.currentStatus == newStatus || newStatus !in STATUSES then rec
    else Switched(rec, newStatus, now)
  }

  /** A day's record after a clock-in and a series of `updateStatus` calls. */
  function Replay(rec: AttendanceRecord, calls: seq<(string, Instant)>): AttendanceRecord
  {
    if calls == [] then rec
    else
      var last := calls[|calls| - 1];
      Step(Replay(rec, calls[..|calls| - 1]), last.0, last.1)
  }

  /** The buckets account for the time since login: their total in seconds
      is at most the time from login to the last status change, and short of
      it by less than a second per call (each switch drops the fraction of a
      second it rounds away). */
  predicate Accounted(r: AttendanceRecord, login: int, calls: nat)
  {
    r.currentStatus in STATUSES &&
    1000 * Total(r.durations) <= r.lastStatusChange - login <= 1000 * Total(r.durations) + 999 * calls
  }

  lemma StepKeepsAccount(r: AttendanceRecord, login: int, calls: nat, newStatus: string, now: Instant)
    requires Accounted(r, login, calls)
    ensures Accounted(Step(r, newStatus, now), login, calls + 1)
  {
    if r.currentStatus != newStatus && newStatus in STATUSES {
      var e := ElapsedSeconds(r.lastStatusChange, now.ms);
      assert Switched(r, newStatus, now).durations ==
        r.durations[r.currentStatus := Bucket(r.durations, r.currentStatus) + e];
      TotalAfterUpdate(r.durations, r.currentStatus, e);
      assert 1000 * e <= now.ms - r.lastStatusChange <= 1000 * e + 999;
    }
  }

  lemma {:induction false} TimeIsAccountedFor(login: Instant, calls: seq<(string, Instant)>)
    ensures Accounted(Replay(ClockIn(login), calls), login.ms, |calls|)
  {
    if calls != [] {
      var last := calls[|calls| - 1];
      TimeIsAccountedFor(login, calls[..|calls| - 1]);
      StepKeepsAccount(Replay(ClockIn(login), calls[..|calls| - 1]), login.ms, |calls| - 1, last.0, last.1);
    }
  }

  /** What `getStatus` answers. */
  datatype LiveView = LiveView(currentStatus: string, durations: map<string, int>, scheduledLogout: Option<int>)

  /** `getStatus`: with no record the user is `Offline` with no durations;
      otherwise the stored durations, with the time since the last change
      added to the current status's bucket. */
  function Live(rec: Option<AttendanceRecord>, now: Instant): (v: LiveView)
    ensures rec.None? ==> v.currentStatus == OFFLINE && v.durations == map[]
    ensures rec.Some? ==> v.currentStatus == rec.value.currentStatus
    ensures rec.Some? ==>
      Bucket(v.durations, rec.value.currentStatus) ==
      Bucket(rec.value.durations, rec.value.currentStatus) + ElapsedSeconds(rec.value.lastStatusChange, now.ms)
    ensures rec.Some? ==>
      forall s :: s != rec.value.currentStatus ==> Bucket(v.durations, s) == Bucket(rec.value.durations, s)
  {
    if rec.None? then LiveView(OFFLINE, map[], None)
    else
      var r := rec.value;
      LiveView(r.currentStatus,
               r.durations[r.currentStatus := Bucket(r.durations, r.currentStatus) + ElapsedSeconds(r.lastStatusChange, now.ms)],
               r.scheduledLogout)
  }

  /** The live view shows the buckets a switch made at the same moment would
      store. */
  lemma LiveAgreesWithSwitch(rec: AttendanceRecord, newStatus: string, now: Instant, s: string)
    requires rec.currentStatus in STATUSES
    ensures Bucket(Live(Some(rec), now).durations, s) == Bucket(Switched(rec, newStatus, now).durations, s)
  {
  }

  /** The upserted row of an approved leave day: the status is the leave's,
      lateness is cleared and one history entry is appended; a new row gets
      the schema defaults. */
  function LeaveDay(rec: Option<AttendanceRecord>, status: string, now: Instant): (r: AttendanceRecord)
    ensures r.currentStatus == status && !r.isLate && r.lateBy == 0 && r.lastStatusChange == now.ms
    ensures rec.Some? ==> r.history == rec.value.history + [StatusSpan(status, now.ms, None)]
    ensures rec.Some? ==> r.durations == rec.value.durations && r.loginTime == rec.value.loginTime
    ensures rec.None? ==> r.history == [StatusSpan(status, now.ms, None)]
    ensures rec.None? ==> r.durations == ZeroDurations() && r.loginTime.None? && r.scheduledLogout.None?
  {
    var entry := StatusSpan(status, now.ms, None);
    if rec.Some? then
      rec.value.(currentStatus := status, isLate := false, lateBy := 0, lastStatusChange := now.ms,
                 history := rec.value.history + [entry])
    else
      AttendanceRecord(status, now.ms, None, None, false, 0, ZeroDurations(), [entry])
  }

  function Lookup(records: map<(Id, string), AttendanceRecord>, key: (Id, string)): Option<AttendanceRecord>
  {
    if key in records then Some(records[key]) else None
  }

  /** The records after the approval loop has upserted each of `dates` in turn. */
  function AfterLeaveDays(records: map<(Id, string), AttendanceRecord>, user: Id, dates: seq<string>,
                          status: string, now: Instant): map<(Id, string), AttendanceRecord>
  {
    if dates == [] then records
    else
      var prev := AfterLeaveDays(records, user, dates[..|dates| - 1], status, now);
      var key := (user, dates[|dates| - 1]);
      prev[key := LeaveDay(Lookup(prev, key), status, now)]
  }

  /** For a list of distinct dates, every listed day of the user is upserted
      exactly once, and no other record changes. */
  lemma {:induction false} LeaveDaysEach(records: map<(Id, string), AttendanceRecord>, user: Id,
                                         dates: seq<string>, status: string, now: Instant)
    requires forall i, j :: 0 <= i < j < |dates| ==> dates[i] != dates[j]
    ensures forall i :: 0 <= i < |dates| ==>
      (user, dates[i]) in AfterLeaveDays(records, user, dates, status, now) &&
      AfterLeaveDays(records, user, dates, status, now)[(user, dates[i])] ==
        LeaveDay(Lookup(records, (user, dates[i])), status, now)
    ensures forall k: (Id, string) :: (k.0 != user || k.1 !in dates) ==>
      Lookup(AfterLeaveDays(records, user, dates, status, now), k) == Lookup(records, k)
  {
    if dates != [] {
      var init := dates[..|dates| - 1];
      var d := dates[|dates| - 1];
      LeaveDaysEach(records, user, init, status, now);
      assert d !in init;
      forall i | 0 <= i < |dates|
        ensures (user, dates[i]) in AfterLeaveDays(records, user, dates, status, now)
        ensures AfterLeaveDays(records, user, dates, status, now)[(user, dates[i])] ==
          LeaveDay(Lookup(records, (user, dates[i])), status, now)
      {
        if i < |dates| - 1 {
          assert dates[i] == init[i];
        }
      }
    }
  }

  /** The attendance collection: one record per (user, date string). */
  class AttendanceBook {
    var records: map<(Id, string), AttendanceRecord>

    constructor()
      ensures records == map[]
    {
      records := map[];
    }

    /** The (user, date) pairs that have a record, which the gatekeeper
        consults. */
    function ClockedIn(): set<(Id, string)>
      reads this
    {
      records.Keys
    }

    /** `updateStatus`: clock in, or switch the status of today's record. */
    method UpdateStatus(userId: Id, today: string, now: Instant, newStatus: string) returns (r: Result<string>)
      requires ValidInstant(now)
      modifies this
      ensures var key := (userId, today);
        key !in old(records) && newStatus == ONLINE && now.minuteOfDay < SHIFT_OPENS ==>
        r == Err(400, "Shift starts at 9:00 AM. Please wait.") && records == old(records)
      ensures var key := (userId, today);
        key !in old(records) && newStatus != ONLINE ==>
        r == Err(400, "You must start the day by marking 'Online'.") && records == old(records)
      ensures var key := (userId, today);
        key !in old(records) && newStatus == ONLINE && now.minuteOfDay >= SHIFT_OPENS ==>
        records == old(records)[key := ClockIn(now)] && r == Ok(ClockInMessage(ClockIn(now)))
      ensures var key := (userId, today);
        key in old(records) && old(records)[key].currentStatus == newStatus ==>
        r == Ok("Already " + newStatus) && records == old(records)
      ensures var key := (userId, today);
        key in old(records) && old(records)[key].currentStatus != newStatus && newStatus !in STATUSES ==>
        r == Err(500, "Server Error") && records == old(records)
      ensures var key := (userId, today);
        key in old(records) && old(records)[key].currentStatus != newStatus && newStatus in STATUSES ==>
        records == old(records)[key := Switched(old(records)[key], newStatus, now)] &&
        r == Ok("Switched to " + newStatus)
      ensures r.Ok? ==> (userId, today) in records
    {
      var key := (userId, today);
      if newStatus == ONLINE && now.minuteOfDay < SHIFT_OPENS && key !in records {
        return Err(400, "Shift starts at 9:00 AM. Please wait.");
      }
      if key !in records {
        if newStatus != ONLINE {
          return Err(400, "You must start the day by marking 'Online'.");
        }
        var fresh_ := ClockIn(now);
        records := records[key := fresh_];
        return Ok(ClockInMessage(fresh_));
      }
      var rec := records[key];
      if rec.currentStatus == newStatus {
        return Ok("Already " + newStatus);
      }
      if newStatus !in STATUSES {
        return Err(500, "Server Error");
      }
      var durations := rec.durations;
      if rec.currentStatus in STATUSES {
        durations := durations[rec.currentStatus := Bucket(durations, rec.currentStatus) + ElapsedSeconds(rec.lastStatusChange, now.ms)];
      }
      var history := rec.history;
      if |history| > 0 {
        history := history[|history| - 1 := history[|history| - 1].(endTime := Some(now.ms))];
      }
      history := history + [StatusSpan(newStatus, now.ms, None)];
      records := records[key := rec.(currentStatus := newStatus, lastStatusChange := now.ms,
                                     durations := durations, history := history)];
      r := Ok("Switched to " + newStatus);
    }

    /** `getStatus` for the user's record of today. */
    function Status(userId: Id, today: string, now: Instant): (v: LiveView)
      reads this
      ensures (userId, today) !in records ==> v == LiveView(OFFLINE, map[], None)
      ensures (userId, today) in records ==> v.currentStatus == records[(userId, today)].currentStatus
    {
      Live(Lookup(records, (userId, today)), now)
    }

    /** The approval loop: upsert a leave row for each date, in order. */
    method MarkLeaveDays(user: Id, dates: seq<string>, status: string, now: Instant)
      modifies this
      ensures records == AfterLeaveDays(old(records), user, dates, status, now)
    {
      for i := 0 to |dates|
        invariant records == AfterLeaveDays(old(records), user, dates[..i], status, now)
      {
        var key := (user, dates[i]);
        assert dates[..i + 1][..i] == dates[..i];
        records := records[key := LeaveDay(Lookup(records, key), status, now)];
      }
      assert dates[..|dates|] == dates;
    }
  }
}
