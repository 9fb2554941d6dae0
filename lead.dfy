/** The Lead document (src/models/Lead.js) and the per-lead transitions of the
    lead engine (src/controllers/leadController.js): one distribution hand-off,
    one logged call with its recycle rule, and the admin override. */
module Leads {
  import opened Common
  import opened Text
  import opened Users

  /** The schema's status enumeration; every stored status is one of these nine. */
  datatype LeadStatus = New | Contacted | Interested | Closed | Rejected | Archived | Callback | Busy | Ringing

  function StatusName(s: LeadStatus): string
  {
    match s
    case New => "New"
    case Contacted => "Contacted"
    case Interested => "Interested"
    case Closed => "Closed"
    case Rejected => "Rejected"
    case Archived => "Archived"
    case Callback => "Callback"
    case Busy => "Busy"
    case Ringing => "Ringing"
  }

  /** The schema's enum validator: a status string is accepted exactly when it
      names one of the nine values. */
  function ParseStatus(name: string): (r: Option<LeadStatus>)
    ensures r.Some? ==> StatusName(r.value) == name
    ensures r.None? ==> forall s: LeadStatus :: StatusName(s) != name
  {
    if name == "New" then Some(New)
    else if name == "Contacted" then Some(Contacted)
    else if name == "Interested" then Some(Interested)
    else if name == "Closed" then Some(Closed)
    else if name == "Rejected" then Some(Rejected)
    else if name == "Archived" then Some(Archived)
    else if name == "Callback" then Some(Callback)
    else if name == "Busy" then Some(Busy)
    else if name == "Ringing" then Some(Ringing)
    else None
  }

  /** One ownership change in the chain of custody. `assignedTo` is null when
      the admin override records a lead that had no owner. */
  datatype CustodyEntry = CustodyEntry(assignedTo: Option<Id>, assignedBy: Id, assignedDate: int, roleAtTime: string)

  /** One entry of the interaction timeline (times are milliseconds). */
  datatype HistoryEntry = HistoryEntry(
    action: string,
    actor: Id,   // the source field `by`
    date: int,
    outcome: Option<string>,
    details: Option<string>,
    duration: Option<int>,
    messageSent: Option<string>)

  /** The mutable part of a lead; phone number, name, id and batch never change. */
  datatype LeadState = LeadState(
    status: LeadStatus,
    touchCount: nat,
    isArchived: bool,
    archiveReason: Option<string>,
    assignedTo: Option<Id>,
    custodyChain: seq<CustodyEntry>,
    history: seq<HistoryEntry>)

  /** The schema defaults of a newly created lead, given its first owner. */
  function FreshLead(owner: Option<Id>): (s: LeadState)
    ensures s.status == New && s.touchCount == 0 && !s.isArchived && s.archiveReason == None
    ensures s.custodyChain == [] && s.history == []
  {
    LeadState(New, 0, false, None, owner, [], [])
  }

  // ---------------------------------------------------------------------------
  // Distribution hand-off (one lead's update in the bulk write)

  /** The lead passes to `target`: one custody entry naming the distributor and
      its role, one `Assignment` history entry; nothing else changes. */
  function Assigned(s: LeadState, target: Id, distributor: Id, role: string, now: int): (r: LeadState)
    ensures r.assignedTo == Some(target)
    ensures r.custodyChain == s.custodyChain + [CustodyEntry(Some(target), distributor, now, role)]
    ensures |r.history| == |s.history| + 1 && r.history[..|s.history|] == s.history
    ensures r.history[|s.history|].action == "Assignment" && r.history[|s.history|].actor == distributor
    ensures r.status == s.status && r.touchCount == s.touchCount
    ensures r.isArchived == s.isArchived && r.archiveReason == s.archiveReason
  {
    var entry := HistoryEntry("Assignment", distributor, now, None,
                              Some("Passed to " + target + " by " + role), None, None);
    s.(assignedTo := Some(target),
       custodyChain := s.custodyChain + [CustodyEntry(Some(target), distributor, now, role)],
       history := s.history + [entry])
  }

  // ---------------------------------------------------------------------------
  // Logging a call

  /** The request body of a call log, with the caller and the clock. */
  datatype CallLog = CallLog(
    outcome: string,
    notes: Option<string>,
    duration: Option<int>,
    messageSent: Option<string>,
    caller: Id,
    now: int)

  const MAX_TOUCHES: nat := 8

  function OutcomeStatus(outcome: string): (r: LeadStatus)
    ensures r == Interested <==> outcome == "Connected - Interested"
    ensures r != New && r != Archived
    ensures outcome !in {"Connected - Interested", "Busy", "Callback", "Ringing"} ==> r == Contacted
  {
    if outcome == "Connected - Interested" then Interested
    else if outcome == "Busy" then Busy
    else if outcome == "Callback" then Callback
    else if outcome == "Ringing" then Ringing
    else Contacted
  }

  /** Outcomes that retire the number at once. */
  predicate IsKillOutcome(outcome: string)
  {
    outcome == "DND" || outcome == "Wrong Number"
  }

  function CallAttemptAction(touch: nat, outcome: string): string
  {
    "Call Attempt #" + NatToString(touch) + ": " + outcome
  }

  /** The history entry of a call that is the `touch`-th by the current owner. */
  function CallEntry(c: CallLog, touch: nat): HistoryEntry
  {
    var duration := match c.duration case Some(d) => d case None => 0;
    var message := if c.messageSent == Some("") then None else c.messageSent;
    HistoryEntry(CallAttemptAction(touch, c.outcome), c.caller, c.now, None, c.notes, Some(duration), message)
  }

  /** Counters, outcome status and the call's history entry. */
  function Called(s: LeadState, c: CallLog): (r: LeadState)
    ensures r.touchCount == s.touchCount + 1
    ensures r.history == s.history + [CallEntry(c, s.touchCount + 1)]
  {
    var t := s.touchCount + 1;
    s.(touchCount := t, status := OutcomeStatus(c.outcome), history := s.history + [CallEntry(c, t)])
  }

  function Killed(s: LeadState, outcome: string): LeadState
  {
    s.(status := Archived, isArchived := true,
       archiveReason := Some("Permanently Dead: " + outcome + " (Marked by Agent)"),
       assignedTo := None)
  }

  function Exhausted(s: LeadState): LeadState
  {
    s.(status := Archived, isArchived := true,
       archiveReason := Some("Exhausted: Attempted by all available employees."),
       assignedTo := None)
  }

  /** The owners recorded in the custody chain, skipping the null owners an
      override of an unowned lead records. */
  function PreviousOwners(chain: seq<CustodyEntry>): (owners: seq<Id>)
    ensures forall i :: 0 <= i < |chain| && chain[i].assignedTo.Some? ==> chain[i].assignedTo.value in owners
    ensures forall o :: o in owners ==> exists i :: 0 <= i < |chain| && chain[i].assignedTo == Some(o)
  {
    if chain == [] then []
    else
      var init := PreviousOwners(chain[..|chain| - 1]);
      match chain[|chain| - 1].assignedTo
      case Some(o) => init + [o]
      case None => init
  }

  /** The exclusion list: every previous owner, plus the caller. */
  function Excluded(chain: seq<CustodyEntry>, caller: Id): seq<Id>
  {
    var owners := PreviousOwners(chain);
    if caller in owners then owners else owners + [caller]
  }

  /** The directory query for Employees outside the exclusion list, in directory order. */
  function FreshAgents(directory: seq<User>, excluded: seq<Id>): (candidates: seq<User>)
    ensures forall i :: 0 <= i < |candidates| ==> candidates[i] in directory && candidates[i].role == EMPLOYEE && candidates[i].id !in excluded
    ensures forall i :: 0 <= i < |directory| && directory[i].role == EMPLOYEE && directory[i].id !in excluded ==> directory[i] in candidates
  {
    FilterComplete(directory, (u: User) => u.role == EMPLOYEE && u.id !in excluded);
    Filter(directory, (u: User) => u.role == EMPLOYEE && u.id !in excluded)
  }

  function RecycleEntry(c: CallLog, agent: User): HistoryEntry
  {
    HistoryEntry("System Recycle", c.caller, c.now, None,
                 Some("Max touches reached. Recycled to " + agent.name + " (Fresh Agent)."), None, None)
  }

  /** Hand-off to a fresh agent: a custody entry for the outgoing caller, a new
      owner, status New, touch budget reset, and a `System Recycle` entry. */
  function Recycled(s: LeadState, c: CallLog, agent: User): LeadState
  {
    s.(custodyChain := s.custodyChain + [CustodyEntry(Some(c.caller), c.caller, c.now, EMPLOYEE)],
       assignedTo := Some(agent.id),
       status := New,
       touchCount := 0,
       history := s.history + [RecycleEntry(c, agent)])
  }

  /** The recycle rule once the budget is used up: fresh agent number
      `pick % |candidates|` if there is one, otherwise the lead is archived. */
  function RecycleOrExhaust(t: LeadState, c: CallLog, directory: seq<User>, pick: nat): (r: LeadState)
    ensures |r.history| == |t.history| + 1 || r.history == t.history
    ensures |r.history| >= |t.history| && r.history[..|t.history|] == t.history
    ensures |r.custodyChain| >= |t.custodyChain| && r.custodyChain[..|t.custodyChain|] == t.custodyChain
    ensures (r.status == New && r.touchCount == 0 && r.assignedTo.Some?) ||
            (r.status == Archived && r.isArchived && r.touchCount == t.touchCount && r.assignedTo.None?)
    ensures t.isArchived ==> r.isArchived
  {
    var candidates := FreshAgents(directory, Excluded(t.custodyChain, c.caller));
    if |candidates| > 0 then Recycled(t, c, candidates[pick % |candidates|]) else Exhausted(t)
  }

  /** The call reaches the recycle rule: not an immediate kill, the budget of
      eight touches is used up and the lead is not Interested. */
  predicate BudgetExhausted(s: LeadState, c: CallLog)
  {
    !IsKillOutcome(c.outcome) && s.touchCount + 1 >= MAX_TOUCHES && OutcomeStatus(c.outcome) != Interested
  }

  /** The whole call-log transition. `pick` stands for the random draw: the
      recycled lead goes to fresh agent number `pick % |candidates|`. */
  function AfterCall(s: LeadState, c: CallLog, directory: seq<User>, pick: nat): (r: LeadState)
    ensures r.touchCount == s.touchCount + 1 || (BudgetExhausted(s, c) && r.touchCount == 0)
    ensures |r.history| >= |s.history| + 1
    ensures r.history[..|s.history| + 1] == s.history + [CallEntry(c, s.touchCount + 1)]
    ensures |r.custodyChain| >= |s.custodyChain| && r.custodyChain[..|s.custodyChain|] == s.custodyChain
    // the touch budget holds afterwards, and archiving is never undone by a call
    ensures r.status != Interested && r.status != Archived ==> r.touchCount < MAX_TOUCHES
    ensures s.isArchived ==> r.isArchived
  {
    var t := Called(s, c);
    if IsKillOutcome(c.outcome) then Killed(t, c.outcome)
    else if t.touchCount >= MAX_TOUCHES && t.status != Interested then RecycleOrExhaust(t, c, directory, pick)
    else t
  }

  /** A call that neither kills nor exhausts the budget only counts the touch,
      maps the outcome to the status and logs the attempt. */
  lemma AfterCallOrdinary(s: LeadState, c: CallLog, directory: seq<User>, pick: nat)
    requires !IsKillOutcome(c.outcome) && !BudgetExhausted(s, c)
    ensures AfterCall(s, c, directory, pick) ==
      s.(touchCount := s.touchCount + 1, status := OutcomeStatus(c.outcome),
         history := s.history + [CallEntry(c, s.touchCount + 1)])
  {
  }

  /** `DND` and `Wrong Number` retire the lead at once, whatever its budget. */
  lemma AfterCallKill(s: LeadState, c: CallLog, directory: seq<User>, pick: nat)
    requires IsKillOutcome(c.outcome)
    ensures var r := AfterCall(s, c, directory, pick);
      r.status == Archived && r.isArchived && r.assignedTo == None &&
      r.custodyChain == s.custodyChain && r.touchCount == s.touchCount + 1
  {
  }

  /** With the budget used up, the lead goes to an Employee who never held it
      and is not the caller, or, when there is none, is archived as exhausted. */
  lemma AfterCallRecycle(s: LeadState, c: CallLog, directory: seq<User>, pick: nat)
    requires BudgetExhausted(s, c)
    ensures var r := AfterCall(s, c, directory, pick);
      var candidates := FreshAgents(directory, Excluded(s.custodyChain, c.caller));
      if candidates == [] then
        r.status == Archived && r.isArchived && r.assignedTo == None && r.custodyChain == s.custodyChain
      else
        exists a :: a in candidates && r.assignedTo == Some(a.id) &&
          a.role == EMPLOYEE && a.id != c.caller && a.id !in PreviousOwners(s.custodyChain) &&
          r.status == New && r.touchCount == 0 && r.isArchived == s.isArchived &&
          r.custodyChain == s.custodyChain + [CustodyEntry(Some(c.caller), c.caller, c.now, EMPLOYEE)] &&
          r.history == s.history + [CallEntry(c, s.touchCount + 1), RecycleEntry(c, a)]
  {
    var t := Called(s, c);
    assert t.custodyChain == s.custodyChain;
    var candidates := FreshAgents(directory, Excluded(s.custodyChain, c.caller));
    if candidates != [] {
      var a := candidates[pick % |candidates|];
      assert a.id !in Excluded(s.custodyChain, c.caller);
      assert AfterCall(s, c, directory, pick) == Recycled(t, c, a);
    }
  }

  // ---------------------------------------------------------------------------
  // The recycle rule as the source writes it

  /** `custodyChain.map(entry => entry.assignedTo.toString())`: None when some
      entry has a null owner, where `toString` throws a TypeError. */
  function PreviousOwnersAsWritten(chain: seq<CustodyEntry>): (r: Option<seq<Id>>)
    ensures r.Some? <==> forall i :: 0 <= i < |chain| ==> chain[i].assignedTo.Some?
  {
    if chain == [] then Some([])
    else
      match PreviousOwnersAsWritten(chain[..|chain| - 1])
      case None => None
      case Some(init) =>
        match chain[|chain| - 1].assignedTo
        case Some(o) => Some(init + [o])
        case None => None
  }

  /** The call-log transition as written: None stands for the TypeError, after
      which the request answers 500 and the lead is not saved. */
  function AfterCallAsWritten(s: LeadState, c: CallLog, directory: seq<User>, pick: nat): (r: Option<LeadState>)
    ensures r.None? <==> BudgetExhausted(s, c) && PreviousOwnersAsWritten(s.custodyChain).None?
    ensures !BudgetExhausted(s, c) ==> r == Some(AfterCall(s, c, directory, pick))
  {
    var t := Called(s, c);
    if IsKillOutcome(c.outcome) then Some(Killed(t, c.outcome))
    else if t.touchCount >= MAX_TOUCHES && t.status != Interested then
      match PreviousOwnersAsWritten(t.custodyChain)
      case None => None
      case Some(owners) =>
        var excluded := if c.caller in owners then owners else owners + [c.caller];
        var candidates := FreshAgents(directory, excluded);
        if |candidates| > 0 then Some(Recycled(t, c, candidates[pick % |candidates|])) else Some(Exhausted(t))
    else Some(t)
  }

  lemma {:induction false} PreviousOwnersAgree(chain: seq<CustodyEntry>)
    requires forall i :: 0 <= i < |chain| ==> chain[i].assignedTo.Some?
    ensures PreviousOwnersAsWritten(chain) == Some(PreviousOwners(chain))
  {
    if chain != [] {
      PreviousOwnersAgree(chain[..|chain| - 1]);
    }
  }

  /** Where every custody entry names an owner, the written rule and the
      corrected one agree. */
  lemma AfterCallAsWrittenAgrees(s: LeadState, c: CallLog, directory: seq<User>, pick: nat)
    requires forall i :: 0 <= i < |s.custodyChain| ==> s.custodyChain[i].assignedTo.Some?
    ensures AfterCallAsWritten(s, c, directory, pick) == Some(AfterCall(s, c, directory, pick))
  {
    var t := Called(s, c);
    assert t.custodyChain == s.custodyChain;
    PreviousOwnersAgree(t.custodyChain);
  }

  // ---------------------------------------------------------------------------
  // Admin override

  /** A custody entry for the previous owner (possibly null) and an `Admin
      Override` entry, then a new owner with a reset touch budget and the archive
      flags cleared — the one transition that un-archives a lead. */
  function Overridden(s: LeadState, admin: Id, newOwner: Option<Id>, now: int): (r: LeadState)
    ensures r.custodyChain == s.custodyChain + [CustodyEntry(s.assignedTo, admin, now, "Admin Override")]
    ensures |r.history| == |s.history| + 1 && r.history[..|s.history|] == s.history
    ensures r.history[|s.history|].action == "Admin Override" && r.history[|s.history|].actor == admin
    ensures r.assignedTo == newOwner && r.status == New && r.touchCount == 0
    ensures !r.isArchived && r.archiveReason == None
  {
    s.(custodyChain := s.custodyChain + [CustodyEntry(s.assignedTo, admin, now, "Admin Override")],
       history := s.history + [HistoryEntry("Admin Override", admin, now, None,
                                            Some("Admin forced reassignment to new user."), None, None)],
       assignedTo := newOwner, status := New, touchCount := 0, isArchived := false, archiveReason := None)
  }

  /** The defect of the written recycle rule: once a lead without owner (an
      archived one) is overridden, its chain holds a null owner for good, and
      every later call that reaches the recycle rule throws instead of
      recycling or archiving. The corrected rule always gives a lead within
      budget. */
  lemma OverrideOfUnownedLeadBreaksRecycle(s: LeadState, admin: Id, newOwner: Option<Id>, now: int,
                                           later: LeadState, c: CallLog, directory: seq<User>, pick: nat)
    requires s.assignedTo == None
    requires |later.custodyChain| >= |s.custodyChain| + 1
    requires later.custodyChain[..|s.custodyChain| + 1] == Overridden(s, admin, newOwner, now).custodyChain
    requires BudgetExhausted(later, c)
    ensures AfterCallAsWritten(later, c, directory, pick) == None
    ensures var r := AfterCall(later, c, directory, pick);
      r.status == Archived || r.touchCount == 0
  {
    var k := |s.custodyChain|;
    assert later.custodyChain[k] == later.custodyChain[..k + 1][k];
    assert later.custodyChain[k].assignedTo == None;
    var t := Called(later, c);
    assert t.custodyChain == later.custodyChain;
    assert PreviousOwnersAsWritten(t.custodyChain).None?;
  }

  /** A lead archived as exhausted or dead has no owner, so an override of it
      records a null owner: the situation of the lemma above. */
  lemma ArchivedLeadsHaveNoOwner(s: LeadState, c: CallLog, directory: seq<User>, pick: nat)
    requires !s.isArchived
    requires AfterCall(s, c, directory, pick).isArchived
    ensures AfterCall(s, c, directory, pick).assignedTo == None
  {
  }

  // ---------------------------------------------------------------------------
  // The mutable document

  /** A stored lead. Identity, phone number, name and batch are fixed at
      creation; the rest is updated in place by the controllers. */
  class Lead {
    const id: nat
    const phoneNumber: string
    const name: string
    const batchId: Option<nat>
    var status: LeadStatus
    var touchCount: nat
    var isArchived: bool
    var archiveReason: Option<string>
    var assignedTo: Option<Id>
    var custodyChain: seq<CustodyEntry>
    var history: seq<HistoryEntry>

    ghost function State(): LeadState
      reads this
    {
      LeadState(status, touchCount, isArchived, archiveReason, assignedTo, custodyChain, history)
    }

    constructor (id: nat, phoneNumber: string, name: string, owner: Option<Id>, batchId: Option<nat>)
      ensures this.id == id && this.phoneNumber == phoneNumber && this.name == name && this.batchId == batchId
      ensures State() == FreshLead(owner)
    {
      this.id := id;
      this.phoneNumber := phoneNumber;
      this.name := name;
      this.batchId := batchId;
      status := New;
      touchCount := 0;
      isArchived := false;
      archiveReason := None;
      assignedTo := owner;
      custodyChain := [];
      history := [];
    }

    /** One lead's `updateOne` in the distribution bulk write. */
    method RecordAssignment(target: Id, distributor: Id, role: string, now: int)
      modifies this
      ensures State() == Assigned(old(State()), target, distributor, role, now)
    {
      assignedTo := Some(target);
      custodyChain := custodyChain + [CustodyEntry(Some(target), distributor, now, role)];
      history := history + [HistoryEntry("Assignment", distributor, now, None,
                                         Some("Passed to " + target + " by " + role), None, None)];
    }

    /** `logCall` on a found lead (src/controllers/leadController.js:280-342),
        with the recycle rule reading only the non-null owners. */
    method LogCall(c: CallLog, directory: seq<User>, pick: nat)
      modifies this
      ensures State() == AfterCall(old(State()), c, directory, pick)
    {
      RecordCall(c);
      if IsKillOutcome(c.outcome) {
        MarkDead(c.outcome);
      } else if touchCount >= MAX_TOUCHES && status != Interested {
        Recycle(c, directory, pick);
      }
    }

    /** Counters, outcome status and the call's history entry. */
    method RecordCall(c: CallLog)
      modifies this
      ensures State() == Called(old(State()), c)
    {
      touchCount := touchCount + 1;
      status := OutcomeStatus(c.outcome);
      history := history + [CallEntry(c, touchCount)];
    }

    /** The immediate archive of a DND or Wrong Number outcome. */
    method MarkDead(outcome: string)
      modifies this
      ensures State() == Killed(old(State()), outcome)
    {
      status := Archived;
      isArchived := true;
      archiveReason := Some("Permanently Dead: " + outcome + " (Marked by Agent)");
      assignedTo := None;
    }

    /** The recycle rule, with the exclusion list read from the custody chain. */
    method Recycle(c: CallLog, directory: seq<User>, pick: nat)
      modifies this
      ensures State() == RecycleOrExhaust(old(State()), c, directory, pick)
    {
      var excluded := Excluded(custodyChain, c.caller);
      var candidates := FreshAgents(directory, excluded);
      if |candidates| > 0 {
        var agent := candidates[pick % |candidates|];
        custodyChain := custodyChain + [CustodyEntry(Some(c.caller), c.caller, c.now, EMPLOYEE)];
        assignedTo := Some(agent.id);
        status := New;
        touchCount := 0;
        history := history + [RecycleEntry(c, agent)];
      } else {
        status := Archived;
        isArchived := true;
        archiveReason := Some("Exhausted: Attempted by all available employees.");
        assignedTo := None;
      }
    }

    /** `adminReassign` on a found lead (src/controllers/leadController.js:393-411). */
    method AdminReassign(admin: Id, newOwner: Option<Id>, now: int)
      modifies this
      ensures State() == Overridden(old(State()), admin, newOwner, now)
    {
      custodyChain := custodyChain + [CustodyEntry(assignedTo, admin, now, "Admin Override")];
      history := history + [HistoryEntry("Admin Override", admin, now, None,
                                         Some("Admin forced reassignment to new user."), None, None)];
      assignedTo := newOwner;
      status := New;
      touchCount := 0;
      isArchived := false;
      archiveReason := None;
    }
  }
}
