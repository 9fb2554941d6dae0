/** Support tickets (src/controllers/ticketController.js over
    src/models/Ticket.js): raising a ticket routes it to Admin or to the
    branch managers, each role sees its own slice of the tickets, and only
    Admin or a branch manager may resolve one. */
module Tickets {
  import opened Common
  import opened Users

  const CATEGORIES: set<string> := {"Complaint", "IT Issue", "Harassment", "Suggestion", "Other"}
  const PRIORITIES: set<string> := {"Low", "Medium", "High"}

  datatype TicketStatus = Open | Resolved

  datatype Ticket = Ticket(
    createdBy: Id,
    recipient: string,
    category: string,
    priority: string,
    subject: string,
    description: string,
    status: TicketStatus,
    resolutionDetails: Option<string>,
    resolvedBy: Option<Id>,
    resolvedDate: Option<int>)

  /** The routing chain of `createTicket`: a high-priority ticket, or one
      raised by a branch manager or by Admin, goes to Admin; every other
      ticket goes to the branch managers. */
  function Recipient(priority: Option<string>, role: string): (r: string)
    ensures r == ADMIN || r == BRANCH_MANAGER
    ensures r == ADMIN <==> priority == Some("High") || role == BRANCH_MANAGER || role == ADMIN
  {
    if priority == Some("High") then ADMIN
    else if role == BRANCH_MANAGER then ADMIN
    else if role == ADMIN then ADMIN
    else BRANCH_MANAGER
  }

  /** A schema default: an absent field takes the default. */
  function OrDefault(v: Option<string>, default: string): string
  {
    if v.Some? then v.value else default
  }

  /** A required string field: present and non-empty. */
  predicate Given(v: Option<string>)
  {
    v.Some? && v.value != ""
  }

  /** The ticket `createTicket` saves, or the 500 the failed schema
      validation turns into. */
  function NewTicket(creator: Id, role: string, category: Option<string>, priority: Option<string>,
                     subject: Option<string>, description: Option<string>): (r: Result<Ticket>)
    ensures r.Ok? <==>
      OrDefault(category, "Other") in CATEGORIES && OrDefault(priority, "Medium") in PRIORITIES &&
      Given(subject) && Given(description)
    ensures r.Err? ==> r == Err(500, "Server Error")
    ensures r.Ok? ==>
      r.value.createdBy == creator && r.value.recipient == Recipient(priority, role) &&
      r.value.status == Open && r.value.subject == subject.value && r.value.description == description.value &&
      r.value.resolvedBy.None?
  {
    var c := OrDefault(category, "Other");
    var p := OrDefault(priority, "Medium");
    if c in CATEGORIES && p in PRIORITIES && Given(subject) && Given(description) then
      Ok(Ticket(creator, Recipient(priority, role), c, p, subject.value, description.value, Open, None, None, None))
    else
      Err(500, "Server Error")
  }

  /** Who sees a ticket in `getTickets`. */
  predicate CanSee(t: Ticket, userId: Id, role: string)
  {
    if role == ADMIN then true
    else if role == BRANCH_MANAGER then t.recipient == BRANCH_MANAGER || t.createdBy == userId
    else t.createdBy == userId
  }

  /** `getTickets`: the stored tickets the requester may see, newest first.
      The store keeps tickets in the order they were raised, so newest
      first is the reverse of store order. */
  function VisibleTickets(tickets: seq<Ticket>, userId: Id, role: string): (r: seq<Ticket>)
    ensures |r| == Count(tickets, t => CanSee(t, userId, role))
    ensures forall i :: 0 <= i < |r| ==> r[i] in tickets && CanSee(r[i], userId, role)
  {
    Reverse(Filter(tickets, t => CanSee(t, userId, role)))
  }

  /** Admin sees every ticket; a branch manager sees exactly the tickets
      routed to the branch managers and the ones they raised; any other
      role sees exactly the tickets it raised. */
  lemma VisibilityByRole(tickets: seq<Ticket>, userId: Id, role: string)
    ensures role == ADMIN ==> VisibleTickets(tickets, userId, role) == Reverse(tickets)
    ensures role == BRANCH_MANAGER ==> forall t ::
      t in VisibleTickets(tickets, userId, role) <==> t in tickets && (t.recipient == BRANCH_MANAGER || t.createdBy == userId)
    ensures role != ADMIN && role != BRANCH_MANAGER ==> forall t ::
      t in VisibleTickets(tickets, userId, role) <==> t in tickets && t.createdBy == userId
  {
    var seen := Filter(tickets, t => CanSee(t, userId, role));
    FilterComplete(tickets, t => CanSee(t, userId, role));
    ReverseKeepsMembers(seen);
    if role == ADMIN {
      FilterAll(tickets, t => CanSee(t, userId, role));
    }
  }

  lemma {:induction false} FilterAll<T>(s: seq<T>, p: T -> bool)
    requires forall i :: 0 <= i < |s| ==> p(s[i])
    ensures Filter(s, p) == s
  {
    if s != [] {
      FilterAll(s[..|s| - 1], p);
      assert s[..|s| - 1] + [s[|s| - 1]] == s;
    }
  }

  /** A freshly raised ticket shows up, at the head, in its creator's list
      and in the list of every user whose role is its recipient. */
  lemma RaisedTicketIsSeen(tickets: seq<Ticket>, t: Ticket, userId: Id, role: string)
    requires t.createdBy == userId || t.recipient == role
    requires t.recipient == ADMIN || t.recipient == BRANCH_MANAGER
    ensures VisibleTickets(tickets + [t], userId, role) == [t] + VisibleTickets(tickets, userId, role)
  {
    var seen := Filter(tickets, u => CanSee(u, userId, role));
    FilterAppend(tickets, [t], u => CanSee(u, userId, role));
    assert Filter([t], u => CanSee(u, userId, role)) == Filter([], u => CanSee(u, userId, role)) + [t];
    assert (seen + [t])[..|seen|] == seen;
  }

  /** Replacing one element by another the predicate treats alike does not
      change the count. */
  lemma {:induction false} CountUpdate<T>(s: seq<T>, i: nat, x: T, p: T -> bool)
    requires i < |s| && p(x) == p(s[i])
    ensures Count(s[i := x], p) == Count(s, p)
  {
    var n := |s| - 1;
    if i < n {
      CountUpdate(s[..n], i, x, p);
      assert s[i := x][..n] == s[..n][i := x];
    } else {
      assert s[i := x][..n] == s[..n];
    }
  }

  /** The resolution `resolveTicket` writes. */
  function ResolvedTicket(t: Ticket, details: string, resolver: Id, now: int): Ticket
  {
    t.(status := Resolved, resolutionDetails := Some(details), resolvedBy := Some(resolver), resolvedDate := Some(now))
  }

  /** Resolving a ticket changes nobody's number of visible tickets: the
      recipient and the creator stay as they were. */
  lemma ResolveKeepsVisibility(tickets: seq<Ticket>, id: nat, details: string, resolver: Id, now: int, userId: Id, role: string)
    requires id < |tickets|
    ensures |VisibleTickets(tickets[id := ResolvedTicket(tickets[id], details, resolver, now)], userId, role)| ==
            |VisibleTickets(tickets, userId, role)|
  {
    CountUpdate(tickets, id, ResolvedTicket(tickets[id], details, resolver, now), t => CanSee(t, userId, role));
  }

  /** The ticket collection; a ticket's id is its position. */
  class TicketDesk {
    var tickets: seq<Ticket>

    constructor()
      ensures tickets == []
    {
      tickets := [];
    }

    /** `createTicket`. */
    method Create(creator: Id, role: string, category: Option<string>, priority: Option<string>,
                  subject: Option<string>, description: Option<string>) returns (r: Result<string>)
      modifies this
      ensures r.Ok? <==> NewTicket(creator, role, category, priority, subject, description).Ok?
      ensures r.Ok? ==>
        r.value == "Ticket Raised Successfully." &&
        tickets == old(tickets) + [NewTicket(creator, role, category, priority, subject, description).value]
      ensures r.Err? ==> r == Err(500, "Server Error") && tickets == old(tickets)
    {
      var t := NewTicket(creator, role, category, priority, subject, description);
      if t.Err? {
        return Err(500, "Server Error");
      }
      tickets := tickets + [t.value];
      r := Ok("Ticket Raised Successfully.");
    }

    /** `resolveTicket`: the details are checked before the role; an id
        that names no ticket updates nothing and still answers success. */
    method Resolve(id: nat, role: string, resolver: Id, details: Option<string>, now: int) returns (r: Result<string>)
      modifies this
      ensures !Given(details) ==> r == Err(400, "Please provide resolution details.")
      ensures Given(details) && role != ADMIN && role != BRANCH_MANAGER ==> r == Err(403, "Access Denied")
      ensures r.Ok? <==> Given(details) && (role == ADMIN || role == BRANCH_MANAGER)
      ensures r.Ok? ==> r.value == "Ticket Resolved"
      ensures r.Ok? && id < |old(tickets)| ==>
        tickets == old(tickets)[id := ResolvedTicket(old(tickets)[id], details.value, resolver, now)]
      ensures r.Err? || id >= |old(tickets)| ==> tickets == old(tickets)
    {
      if !Given(details) {
        return Err(400, "Please provide resolution details.");
      }
      if role != ADMIN && role != BRANCH_MANAGER {
        return Err(403, "Access Denied");
      }
      if id < |tickets| {
        tickets := tickets[id := ResolvedTicket(tickets[id], details.value, resolver, now)];
      }
      r := Ok("Ticket Resolved");
    }
  }
}
