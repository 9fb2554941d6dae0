/** The lead store and the handlers of src/controllers/leadController.js that
    work on it: upload with de-duplication, waterfall distribution, call
    logging, admin override and the safe batch delete. */
module LeadEngine {
  import opened Common
  import opened Text
  import opened Users
  import opened Phone
  import opened Leads

  /** An upload batch record. */
  datatype Batch = Batch(fileName: string, uploadedBy: Id, totalCount: nat)

  /** A lead built from one spreadsheet row, before insertion. */
  datatype Candidate = Candidate(phone: string, name: string, raw: Cell)

  datatype UploadReport = UploadReport(inserted: nat, skipped: nat)

  /** One line of a distribution request. */
  datatype Assignment = Assignment(userId: Id, count: int)

  datatype DeleteReport = DeleteReport(deletedCount: nat, retainedCount: nat)

  // ---------------------------------------------------------------------------
  // Upload: which rows become leads

  /** `rawName || "Unknown"`. */
  function NameOf(c: Cell): string
  {
    if Falsy(c) then "Unknown" else CellText(c)
  }

  /** The lead a row yields: only cells 0 (phone) and 1 (name) are read; an
      empty row or a phone that does not clean yields nothing. */
  function RowCandidate(row: seq<Cell>): (r: Option<Candidate>)
    ensures r.Some? ==> |row| > 0 && CleanPhoneNumber(row[0]) == Some(r.value.phone)
    ensures |row| > 0 && CleanPhoneNumber(row[0]).Some? ==> r.Some?
  {
    if |row| == 0 then None
    else
      match CleanPhoneNumber(row[0])
      case None => None
      case Some(p) => Some(Candidate(p, NameOf(if |row| > 1 then row[1] else Blank), row[0]))
  }

  function PhonesOf(cs: seq<Candidate>): set<string>
  {
    set i | 0 <= i < |cs| :: cs[i].phone
  }

  /** Row `i` is the first row whose number cleans to `phone`. */
  predicate FirstRowFor(rows: seq<seq<Cell>>, i: int, phone: string)
  {
    0 <= i < |rows| && RowCandidate(rows[i]).Some? && RowCandidate(rows[i]).value.phone == phone &&
    forall j :: 0 <= j < i ==> RowCandidate(rows[j]).None? || RowCandidate(rows[j]).value.phone != phone
  }

  /** The leads an upload accepts: one per cleaned number, taken from the
      first row that carries it, in row order. No number is accepted twice. */
  function Accepted(rows: seq<seq<Cell>>): (cs: seq<Candidate>)
    ensures forall i, j :: 0 <= i < j < |cs| ==> cs[i].phone != cs[j].phone
  {
    if rows == [] then []
    else
      var init := Accepted(rows[..|rows| - 1]);
      match RowCandidate(rows[|rows| - 1])
      case None => init
      case Some(c) =>
        if c.phone in PhonesOf(init) then init
        else
          assert forall k :: 0 <= k < |init| ==> init[k].phone != c.phone;
          init + [c]
  }

  lemma PhonesOfAppend(cs: seq<Candidate>, c: Candidate)
    ensures PhonesOf(cs + [c]) == PhonesOf(cs) + {c.phone}
  {
    assert forall k :: 0 <= k < |cs| ==> (cs + [c])[k] == cs[k];
    assert (cs + [c])[|cs|] == c;
  }

  /** One more row only ever adds to the accepted numbers. */
  lemma AcceptedGrows(rows: seq<seq<Cell>>)
    requires rows != []
    ensures PhonesOf(Accepted(rows[..|rows| - 1])) <= PhonesOf(Accepted(rows))
    ensures RowCandidate(rows[|rows| - 1]).Some? ==>
      RowCandidate(rows[|rows| - 1]).value.phone in PhonesOf(Accepted(rows))
  {
    var init := Accepted(rows[..|rows| - 1]);
    match RowCandidate(rows[|rows| - 1])
    case None =>
    case Some(c) =>
      if c.phone !in PhonesOf(init) {
        PhonesOfAppend(init, c);
      }
  }

  /** No usable row is lost: every number a row cleans to is accepted. */
  lemma {:induction false} AcceptedComplete(rows: seq<seq<Cell>>)
    ensures forall i :: 0 <= i < |rows| && RowCandidate(rows[i]).Some? ==>
      RowCandidate(rows[i]).value.phone in PhonesOf(Accepted(rows))
  {
    if rows != [] {
      var prefix := rows[..|rows| - 1];
      AcceptedComplete(prefix);
      AcceptedGrows(rows);
      assert forall i :: 0 <= i < |rows| - 1 ==> prefix[i] == rows[i];
    }
  }

  /** Each accepted lead is exactly what the first row with its number yields
      (a later duplicate never overrides the name). */
  lemma {:induction false} AcceptedFromFirstRow(rows: seq<seq<Cell>>, k: nat)
    requires k < |Accepted(rows)|
    ensures exists i :: FirstRowFor(rows, i, Accepted(rows)[k].phone) && RowCandidate(rows[i]) == Some(Accepted(rows)[k])
  {
    var prefix := rows[..|rows| - 1];
    var init := Accepted(prefix);
    assert forall i :: 0 <= i < |rows| - 1 ==> prefix[i] == rows[i];
    if k < |init| {
      AcceptedFromFirstRow(prefix, k);
      var i :| FirstRowFor(prefix, i, init[k].phone) && RowCandidate(prefix[i]) == Some(init[k]);
      assert Accepted(rows)[k] == init[k];
      assert FirstRowFor(rows, i, init[k].phone);
    } else {
      var c := RowCandidate(rows[|rows| - 1]).value;
      assert Accepted(rows) == init + [c];
      AcceptedComplete(prefix);
      assert FirstRowFor(rows, |rows| - 1, c.phone);
    }
  }

  /** The candidates whose number is not already stored: the ones the unordered
      bulk insert persists. */
  function NotStored(cs: seq<Candidate>, stored: seq<Lead>): seq<Candidate>
  {
    Filter(cs, (c: Candidate) => !HasPhone(stored, c.phone))
  }

  // ---------------------------------------------------------------------------
  // Distribution arithmetic

  predicate NonNegativeCounts(assignments: seq<Assignment>)
  {
    forall i :: 0 <= i < |assignments| ==> assignments[i].count >= 0
  }

  /** Σ_{i<j} count_i: where slice j starts in the pool. */
  function Start(assignments: seq<Assignment>, j: nat): int
    requires j <= |assignments|
  {
    if j == 0 then 0 else Start(assignments, j - 1) + assignments[j - 1].count
  }

  /** `totalRequested`. */
  function Total(assignments: seq<Assignment>): int
  {
    Start(assignments, |assignments|)
  }

  /** With non-negative counts a later slice never starts before an earlier one. */
  lemma {:induction false} StartMonotone(assignments: seq<Assignment>, i: nat, j: nat)
    requires NonNegativeCounts(assignments)
    requires i <= j <= |assignments|
    ensures 0 <= Start(assignments, i) <= Start(assignments, j)
    decreases j
  {
    if i < j {
      StartMonotone(assignments, i, j - 1);
    } else if i > 0 {
      StartMonotone(assignments, i - 1, i - 1);
    }
  }

  /** The slices are consecutive, in list order, and none reaches past the total. */
  lemma SliceBounds(assignments: seq<Assignment>, i: nat, j: nat)
    requires NonNegativeCounts(assignments)
    requires i <= j <= |assignments|
    ensures 0 <= Start(assignments, i) <= Start(assignments, j) <= Total(assignments)
  {
    StartMonotone(assignments, i, j);
    StartMonotone(assignments, j, |assignments|);
  }

  /** Disjointness of the slices: a pool position belongs to at most one slice. */
  lemma SlicesDisjoint(assignments: seq<Assignment>, j1: nat, j2: nat, k: int)
    requires NonNegativeCounts(assignments)
    requires j1 < j2 < |assignments|
    requires Start(assignments, j1) <= k < Start(assignments, j1 + 1)
    ensures !(Start(assignments, j2) <= k < Start(assignments, j2 + 1))
  {
    StartMonotone(assignments, j1 + 1, j2);
  }

  /** Reference reading of the waterfall: the user that pool position `k`
      goes to, walking the list from the front and skipping each count. */
  function SliceOwner(assignments: seq<Assignment>, k: int): Option<Id>
  {
    if assignments == [] || k < 0 then None
    else if k < assignments[0].count then Some(assignments[0].userId)
    else SliceOwner(assignments[1..], k - assignments[0].count)
  }

  lemma {:induction false} StartFront(assignments: seq<Assignment>, j: nat)
    requires j < |assignments|
    ensures Start(assignments, j + 1) == assignments[0].count + Start(assignments[1..], j)
  {
    if j > 0 {
      StartFront(assignments, j - 1);
    }
  }

  /** Assignment j receives exactly the positions [Σ_{i<j} c_i, Σ_{i≤j} c_i). */
  lemma {:induction false} SliceOwnerOfSlice(assignments: seq<Assignment>, j: nat, k: int)
    requires NonNegativeCounts(assignments)
    requires j < |assignments| && Start(assignments, j) <= k < Start(assignments, j + 1)
    ensures SliceOwner(assignments, k) == Some(assignments[j].userId)
  {
    StartMonotone(assignments, 0, j);
    if j > 0 {
      StartFront(assignments, j - 1);
      StartFront(assignments, j);
      StartMonotone(assignments[1..], 0, j - 1);
      SliceOwnerOfSlice(assignments[1..], j - 1, k - assignments[0].count);
    }
  }

  /** Positions at or past the total go to nobody. */
  lemma {:induction false} SliceOwnerBeyondTotal(assignments: seq<Assignment>, k: int)
    requires NonNegativeCounts(assignments)
    requires k >= Total(assignments)
    ensures SliceOwner(assignments, k) == None
  {
    if assignments != [] {
      StartFront(assignments, |assignments| - 1);
      StartMonotone(assignments[1..], 0, |assignments| - 1);
      SliceOwnerBeyondTotal(assignments[1..], k - assignments[0].count);
    }
  }

  /** What the distribution does to one pool lead, given the user its position goes to. */
  function Distributed(before: LeadState, owner: Option<Id>, distributor: Id, role: string, now: int): LeadState
  {
    match owner
    case None => before
    case Some(target) => Assigned(before, target, distributor, role, now)
  }

  /** One `bulkWrite` of the distribution: every lead of the slice passes to `target`. */
  method AssignSlice(pool: seq<Lead>, from: nat, to: nat, target: Id, distributor: Id, role: string, now: int)
    requires from <= to <= |pool|
    requires forall i, j :: 0 <= i < j < |pool| ==> pool[i] != pool[j]
    modifies set k | from <= k < to :: pool[k]
    ensures forall k :: from <= k < to ==> pool[k].State() == Assigned(old(pool[k].State()), target, distributor, role, now)
  {
    for t := from to to
      invariant forall k :: from <= k < t ==> pool[k].State() == Assigned(old(pool[k].State()), target, distributor, role, now)
      invariant forall k :: t <= k < to ==> pool[k].State() == old(pool[k].State())
    {
      pool[t].RecordAssignment(target, distributor, role, now);
    }
  }

  /** The slicing loop of the distribution: assignment j moves the pool
      positions [Start(j), Start(j + 1)) to its user, list order, zero counts
      skipped; the rest of the pool is untouched. */
  method Waterfall(available: seq<Lead>, list: seq<Assignment>, distributor: Id, role: string, now: int)
    returns (distributedTotal: nat)
    requires NonNegativeCounts(list) && Total(list) <= |available|
    requires forall i, j :: 0 <= i < j < |available| ==> available[i] != available[j]
    modifies set k | 0 <= k < |available| :: available[k]
    ensures distributedTotal == Total(list)
    ensures forall k :: 0 <= k < |available| ==>
      available[k].State() == Distributed(old(available[k].State()), SliceOwner(list, k), distributor, role, now)
  {
    var currentIndex := 0;
    distributedTotal := 0;
    SliceBounds(list, 0, |list|);
    for j := 0 to |list|
      invariant currentIndex == distributedTotal == Start(list, j) <= Total(list)
      invariant forall k :: 0 <= k < |available| ==>
        available[k].State() == Distributed(old(available[k].State()), if k < currentIndex then SliceOwner(list, k) else None, distributor, role, now)
    {
      SliceBounds(list, j + 1, |list|);
      var count := list[j].count;
      if count > 0 {
        forall k | currentIndex <= k < currentIndex + count
          ensures SliceOwner(list, k) == Some(list[j].userId)
        {
          SliceOwnerOfSlice(list, j, k);
        }
        AssignSlice(available, currentIndex, currentIndex + count, list[j].userId, distributor, role, now);
        currentIndex := currentIndex + count;
        distributedTotal := distributedTotal + count;
      }
    }
    forall k | Total(list) <= k < |available|
      ensures SliceOwner(list, k) == None
    {
      SliceOwnerBeyondTotal(list, k);
    }
  }

  /** The distributor's pool: its leads in status New, in store order. */
  function PoolOf(ls: seq<Lead>, distributor: Id): (pool: seq<Lead>)
    reads ls
    ensures forall k :: 0 <= k < |pool| ==> pool[k] in ls
    ensures forall k :: 0 <= k < |pool| ==> pool[k].assignedTo == Some(distributor) && pool[k].status == New
    ensures forall i :: 0 <= i < |ls| && ls[i].assignedTo == Some(distributor) && ls[i].status == New ==> ls[i] in pool
    ensures (forall i, j :: 0 <= i < j < |ls| ==> ls[i] != ls[j]) ==>
      forall i, j :: 0 <= i < j < |pool| ==> pool[i] != pool[j]
  {
    if ls == [] then []
    else
      var init := PoolOf(ls[..|ls| - 1], distributor);
      var l := ls[|ls| - 1];
      assert forall i :: 0 <= i < |ls| - 1 ==> ls[..|ls| - 1][i] == ls[i];
      if l.assignedTo == Some(distributor) && l.status == New then init + [l] else init
  }

  // ---------------------------------------------------------------------------
  // Safe delete

  /** A lead the safe delete removes: from the batch, still New and never called. */
  predicate Deletable(l: Lead, batchId: nat)
    reads l
  {
    l.batchId == Some(batchId) && l.status == New && l.touchCount == 0
  }

  /** Ids and phone numbers are pairwise distinct. */
  predicate DistinctLeads(ls: seq<Lead>)
  {
    forall i, j :: 0 <= i < j < |ls| ==> ls[i].id != ls[j].id && ls[i].phoneNumber != ls[j].phoneNumber
  }

  /** The leads the safe delete keeps, in store order. */
  function KeepAfterDelete(ls: seq<Lead>, batchId: nat): (kept: seq<Lead>)
    reads ls
    ensures forall k :: 0 <= k < |kept| ==> kept[k] in ls && !Deletable(kept[k], batchId)
    ensures forall i :: 0 <= i < |ls| && !Deletable(ls[i], batchId) ==> ls[i] in kept
    ensures |kept| <= |ls|
    ensures DistinctLeads(ls) ==> DistinctLeads(kept)
  {
    if ls == [] then []
    else
      var init := KeepAfterDelete(ls[..|ls| - 1], batchId);
      var l := ls[|ls| - 1];
      assert forall i :: 0 <= i < |ls| - 1 ==> ls[..|ls| - 1][i] == ls[i];
      if Deletable(l, batchId) then init else init + [l]
  }

  function CountInBatch(ls: seq<Lead>, batchId: nat): nat
  {
    if ls == [] then 0
    else CountInBatch(ls[..|ls| - 1], batchId) + (if ls[|ls| - 1].batchId == Some(batchId) then 1 else 0)
  }

  /** The permission rule of the delete: a LeadManager may delete only its own
      uploads, and never an Admin's; every other role may delete any batch. */
  predicate MayDeleteBatch(userRole: string, userId: Id, uploadedBy: Id, directory: seq<User>)
  {
    userRole != LEAD_MANAGER ||
    ((forall u :: u in directory && u.id == uploadedBy ==> u.role != ADMIN) && uploadedBy == userId)
  }

  lemma LeadManagerDeletesOnlyOwnNonAdminUploads(userId: Id, uploadedBy: Id, directory: seq<User>, uploader: User)
    requires MayDeleteBatch(LEAD_MANAGER, userId, uploadedBy, directory)
    requires uploader in directory && uploader.id == uploadedBy
    ensures uploadedBy == userId && uploader.role != ADMIN
  {
  }

  // ---------------------------------------------------------------------------
  // The store

  lemma UpdateThenRemove(m: map<nat, Batch>, k: nat, v: Batch)
    requires k !in m
    ensures m[k := v] - {k} == m
  {
  }

  lemma UpdateTwice(m: map<nat, Batch>, k: nat, v: Batch, w: Batch)
    ensures m[k := v][k := w] == m[k := w]
  {
  }

  /** Some lead of `ls` has number `phone` (a lead's number never changes,
      so this reads no state). */
  predicate HasPhone(ls: seq<Lead>, phone: string)
  {
    exists i :: 0 <= i < |ls| && ls[i].phoneNumber == phone
  }

  /** One step of the bulk insert: the candidate at `k` is new to the store
      after the earlier inserts exactly when it was new before them, because
      the earlier inserts carry other numbers. */
  lemma InsertStep(stored: seq<Lead>, created: seq<Lead>, cands: seq<Candidate>, k: nat)
    requires k < |cands|
    requires forall i, j :: 0 <= i < j < |cands| ==> cands[i].phone != cands[j].phone
    requires |created| == |NotStored(cands[..k], stored)|
    requires forall m :: 0 <= m < |created| ==> created[m].phoneNumber == NotStored(cands[..k], stored)[m].phone
    ensures HasPhone(stored + created, cands[k].phone) <==> HasPhone(stored, cands[k].phone)
    ensures NotStored(cands[..k + 1], stored) ==
      NotStored(cands[..k], stored) + (if HasPhone(stored, cands[k].phone) then [] else [cands[k]])
  {
    var c := cands[k];
    var added := NotStored(cands[..k], stored);
    assert cands[..k + 1] == cands[..k] + [c];
    FilterAppend(cands[..k], [c], (c: Candidate) => !HasPhone(stored, c.phone));
    forall m | 0 <= m < |created|
      ensures created[m].phoneNumber != c.phone
    {
      assert added[m] in cands[..k];
    }
    forall i | |stored| <= i < |stored + created|
      ensures (stored + created)[i].phoneNumber != c.phone
    {
      assert (stored + created)[i] == created[i - |stored|];
    }
    if HasPhone(stored + created, c.phone) {
      var i :| 0 <= i < |stored + created| && (stored + created)[i].phoneNumber == c.phone;
      assert (stored + created)[i] == stored[i];
    }
    if HasPhone(stored, c.phone) {
      var i :| 0 <= i < |stored| && stored[i].phoneNumber == c.phone;
      assert (stored + created)[i] == stored[i];
    }
  }

  class LeadStore {
    var leads: seq<Lead>
    var batches: map<nat, Batch>
    var nextLeadId: nat
    var nextBatchId: nat

    /** Ids are unique and below the id counters; phone numbers are unique. */
    ghost predicate Valid()
      reads this
    {
      DistinctLeads(leads) &&
      (forall i :: 0 <= i < |leads| ==> leads[i].id < nextLeadId) &&
      (forall b :: b in batches ==> b < nextBatchId)
    }

    /** The touch budget over the whole store: a lead that is neither
        Interested nor Archived has had fewer than eight calls by its owner. */
    ghost predicate WithinBudget()
      reads this, leads
    {
      forall i :: 0 <= i < |leads| ==>
        (leads[i].status != Interested && leads[i].status != Archived ==> leads[i].touchCount < MAX_TOUCHES)
    }

    /** A lead as the upload makes it from a candidate. */
    ghost predicate Made(l: Lead, c: Candidate, owner: Id, batch: nat)
      reads l
    {
      l.phoneNumber == c.phone && l.name == c.name && l.batchId == Some(batch) &&
      l.State() == FreshLead(Some(owner))
    }

    /** `created[m]` is the lead made from `cands[m]`, for every m. */
    ghost predicate AllMade(created: seq<Lead>, cands: seq<Candidate>, owner: Id, batch: nat)
      reads created
    {
      |created| == |cands| && forall m :: 0 <= m < |created| ==> Made(created[m], cands[m], owner, batch)
    }

    lemma AllMadeAppend(created: seq<Lead>, cands: seq<Candidate>, l: Lead, c: Candidate, owner: Id, batch: nat)
      requires AllMade(created, cands, owner, batch) && Made(l, c, owner, batch)
      ensures AllMade(created + [l], cands + [c], owner, batch)
    {
    }

    constructor ()
      ensures Valid() && WithinBudget() && leads == [] && batches == map[]
    {
      leads := [];
      batches := map[];
      nextLeadId := 0;
      nextBatchId := 0;
    }

    function PhoneStored(phone: string): bool
      reads this
    {
      HasPhone(leads, phone)
    }

    /** Records a new batch under the next batch id. */
    method OpenBatch(b: Batch) returns (batch: nat)
      requires Valid() && WithinBudget()
      modifies this
      ensures Valid() && WithinBudget()
      ensures leads == old(leads) && batch == old(nextBatchId) && batch !in old(batches)
      ensures batches == old(batches)[batch := b]
    {
      batch := nextBatchId;
      nextBatchId := nextBatchId + 1;
      batches := batches[batch := b];
    }

    /** Removes a batch record that `OpenBatch` added. */
    method DropBatch(batch: nat)
      requires Valid() && WithinBudget()
      modifies this
      ensures Valid() && WithinBudget()
      ensures leads == old(leads) && batches == old(batches) - {batch}
    {
      batches := batches - {batch};
    }

    /** Overwrites an existing batch record. */
    method SetBatch(batch: nat, b: Batch)
      requires Valid() && WithinBudget() && batch in batches
      modifies this
      ensures Valid() && WithinBudget()
      ensures leads == old(leads) && batches == old(batches)[batch := b]
    {
      batches := batches[batch := b];
    }

    /** One document of the unordered bulk insert: stored as a fresh lead
        under the next lead id unless its number is taken, in which case the
        unique index rejects it and nothing changes. */
    method InsertOne(c: Candidate, owner: Id, batch: nat) returns (inserted: bool, ghost lead: Lead?)
      requires Valid() && WithinBudget()
      modifies this
      ensures Valid() && WithinBudget()
      ensures batches == old(batches)
      ensures inserted <==> !HasPhone(old(leads), c.phone)
      ensures inserted ==> lead != null && leads == old(leads) + [lead] && fresh(lead) && Made(lead, c, owner, batch)
      ensures !inserted ==> leads == old(leads)
    {
      if PhoneStored(c.phone) {
        return false, null;
      }
      var l := new Lead(nextLeadId, c.phone, c.name, Some(owner), Some(batch));
      nextLeadId := nextLeadId + 1;
      leads := leads + [l];
      inserted, lead := true, l;
    }

    /** Where the bulk insert stands after the first `k` candidates: the ones
        whose numbers were not in `stored` have become `created`, in order. */
    ghost predicate InsertedSoFar(cands: seq<Candidate>, k: nat, stored: seq<Lead>, added: seq<Candidate>,
                                  created: seq<Lead>, owner: Id, batch: nat)
      reads this, created
    {
      k <= |cands| && added == NotStored(cands[..k], stored) && leads == stored + created &&
      AllMade(created, added, owner, batch) &&
      forall m :: 0 <= m < |created| ==> created[m].phoneNumber == added[m].phone
    }

    /** The state of the bulk insert loop after `k` candidates, as one
        invariant: the store invariants hold, the batch records are
        untouched and the leads created so far are counted. */
    ghost predicate Looped(cands: seq<Candidate>, k: nat, stored: seq<Lead>, added: seq<Candidate>,
                           created: seq<Lead>, inserted: nat, owner: Id, batch: nat, batches0: map<nat, Batch>)
      reads this, leads, created
    {
      Valid() && WithinBudget() && batches == batches0 &&
      InsertedSoFar(cands, k, stored, added, created, owner, batch) && inserted == |created|
    }

    /** The body of the bulk insert loop, for candidate `k`. */
    method InsertNext(cands: seq<Candidate>, k: nat, owner: Id, batch: nat, ghost stored: seq<Lead>,
                      ghost added: seq<Candidate>, ghost created: seq<Lead>, inserted: nat, ghost batches0: map<nat, Batch>)
      returns (inserted': nat, ghost added': seq<Candidate>, ghost created': seq<Lead>, ghost lead: Lead?)
      requires forall i, j :: 0 <= i < j < |cands| ==> cands[i].phone != cands[j].phone
      requires k < |cands| && Looped(cands, k, stored, added, created, inserted, owner, batch, batches0)
      modifies this
      ensures Looped(cands, k + 1, stored, added', created', inserted', owner, batch, batches0)
      ensures created' == created || (lead != null && fresh(lead) && created' == created + [lead])
    {
      var c := cands[k];
      InsertStep(stored, created, cands, k);
      var ok;
      ok, lead := InsertOne(c, owner, batch);
      if ok {
        AllMadeAppend(created, added, lead, c, owner, batch);
        inserted', added', created' := inserted + 1, added + [c], created + [lead];
      } else {
        inserted', added', created' := inserted, added, created;
      }
    }

    /** The unordered bulk insert: every candidate whose number is not yet
        stored becomes a fresh lead of `batch` owned by the uploader, in order;
        a duplicate fails alone and is skipped. */
    method InsertCandidates(cands: seq<Candidate>, uploader: Id, batch: nat)
      returns (inserted: nat, ghost created: seq<Lead>)
      requires Valid() && WithinBudget()
      requires forall i, j :: 0 <= i < j < |cands| ==> cands[i].phone != cands[j].phone
      modifies this
      ensures Valid() && WithinBudget()
      ensures batches == old(batches)
      ensures leads == old(leads) + created && inserted == |created|
      ensures fresh(created)
      ensures AllMade(created, NotStored(cands, old(leads)), uploader, batch)
    {
      ghost var stored := leads;
      ghost var added: seq<Candidate> := [];
      created := [];
      inserted := 0;
      for k := 0 to |cands|
        invariant Looped(cands, k, stored, added, created, inserted, uploader, batch, old(batches))
        invariant fresh(created)
      {
        ghost var lead;
        inserted, added, created, lead := InsertNext(cands, k, uploader, batch, stored, added, created, inserted, old(batches));
      }
      assert cands[..|cands|] == cands;
    }

    /** `uploadLeads` (src/controllers/leadController.js:31-106). `fileName` is
        None when no file came with the request; `rows` is the first sheet. */
    method UploadLeads(fileName: Option<string>, uploader: Id, rows: seq<seq<Cell>>)
      returns (r: Result<UploadReport>, ghost created: seq<Lead>)
      requires Valid() && WithinBudget()
      modifies this
      ensures Valid() && WithinBudget()
      ensures fileName.None? ==> r == Err(400, "No file uploaded")
      ensures r.Err? ==> leads == old(leads) && batches == old(batches)
      ensures fileName.Some? ==> (r.Err? <==> Accepted(rows) == [])
      ensures r.Ok? ==> UploadedAs(old(leads), old(batches), old(nextBatchId), fileName.value, uploader, rows, created, r.value)
    {
      if fileName.None? {
        return Err(400, "No file uploaded"), [];
      }
      r, created := UploadSheet(fileName.value, uploader, rows);
    }

    /** The outcome of a successful upload: the leads of `Accepted(rows)` whose
        numbers were not stored are appended as fresh leads of the new batch,
        owned by the uploader; the batch records how many were inserted and the
        report accounts for every accepted row. */
    ghost predicate UploadedAs(leads0: seq<Lead>, batches0: map<nat, Batch>, batch: nat,
                               fileName: string, uploader: Id, rows: seq<seq<Cell>>,
                               created: seq<Lead>, report: UploadReport)
      reads this, created
    {
      leads == leads0 + created &&
      AllMade(created, NotStored(Accepted(rows), leads0), uploader, batch) &&
      batches == batches0[batch := Batch(fileName, uploader, |created|)] &&
      report.inserted == |created| && report.inserted + report.skipped == |Accepted(rows)|
    }

    /** The upload once a file is present. */
    method UploadSheet(fileName: string, uploader: Id, rows: seq<seq<Cell>>)
      returns (r: Result<UploadReport>, ghost created: seq<Lead>)
      requires Valid() && WithinBudget()
      modifies this
      ensures Valid() && WithinBudget()
      ensures r.Err? ==> leads == old(leads) && batches == old(batches)
      ensures r.Err? <==> Accepted(rows) == []
      ensures r.Ok? ==> fresh(created)
      ensures r.Ok? ==> UploadedAs(old(leads), old(batches), old(nextBatchId), fileName, uploader, rows, created, r.value)
    {
      // the batch record, counted at zero until the insert is known
      var batch := OpenBatch(Batch(fileName, uploader, 0));

      var validLeads := ScanRows(rows);
      if |validLeads| == 0 {
        DropBatch(batch);
        UpdateThenRemove(old(batches), batch, Batch(fileName, uploader, 0));
        return Err(400, "No valid phone numbers found. Ensure Column A has numbers."), [];
      }

      var inserted;
      inserted, created := InsertCandidates(validLeads, uploader, batch);
      SetBatch(batch, Batch(fileName, uploader, inserted));
      UpdateTwice(old(batches), batch, Batch(fileName, uploader, 0), Batch(fileName, uploader, inserted));
      r := Ok(UploadReport(inserted, |validLeads| - inserted));
    }

    /** `Lead.findById`: the position of the lead with id `id`, if any. */
    method FindLead(id: nat) returns (r: Option<nat>)
      ensures r.Some? ==> r.value < |leads| && leads[r.value].id == id
      ensures r.None? ==> forall i :: 0 <= i < |leads| ==> leads[i].id != id
    {
      for i := 0 to |leads|
        invariant forall i' :: 0 <= i' < i ==> leads[i'].id != id
      {
        if leads[i].id == id {
          return Some(i);
        }
      }
      return None;
    }

    /** `distributeLeads` (src/controllers/leadController.js:139-214). The
        ghost result `pool` is the distributor's New pool when the call came in. */
    method Distribute(distributor: Id, role: string, assignments: Option<seq<Assignment>>, now: int)
      returns (r: Result<nat>, ghost pool: seq<Lead>)
      requires Valid() && WithinBudget()
      requires assignments.Some? ==> NonNegativeCounts(assignments.value)
      modifies leads
      ensures Valid() && WithinBudget()
      ensures pool == old(PoolOf(leads, distributor))
      ensures r.Err? <==> assignments.None? || assignments.value == [] || |pool| < Total(assignments.value)
      ensures r.Err? ==> r.status == 400 && forall i :: 0 <= i < |leads| ==> leads[i].State() == old(leads[i].State())
      ensures r.Ok? ==> r.value == Total(assignments.value)
      ensures r.Ok? ==> forall k :: 0 <= k < |pool| ==>
        pool[k].State() == Distributed(old(pool[k].State()), SliceOwner(assignments.value, k), distributor, role, now)
      ensures forall i :: 0 <= i < |leads| && leads[i] !in pool ==> leads[i].State() == old(leads[i].State())
    {
      var available := PoolOf(leads, distributor);
      pool := available;
      if assignments.None? || |assignments.value| == 0 {
        return Err(400, "No distribution data provided."), pool;
      }
      var list := assignments.value;
      var totalRequested := Total(list);
      if |available| < totalRequested {
        return Err(400, "Insufficient leads. You have " + NatToString(|available|) +
                        ", but tried to distribute " + IntToString(totalRequested) + "."), pool;
      }

      var distributedTotal := Waterfall(available, list, distributor, role, now);
      assert WithinBudget() by {
        forall i | 0 <= i < |leads| && leads[i] in available
          ensures leads[i].status == old(leads[i].status) && leads[i].touchCount == old(leads[i].touchCount)
        {
          var k :| 0 <= k < |available| && available[k] == leads[i];
        }
      }
      r := Ok(distributedTotal);
    }

    /** `logCall` (src/controllers/leadController.js:271-351): 404 when no lead
        has the id; otherwise that lead, and only it, takes the call. */
    method LogCall(leadId: nat, c: CallLog, directory: seq<User>, pick: nat) returns (r: Result<()>)
      requires Valid() && WithinBudget()
      modifies leads
      ensures Valid() && WithinBudget()
      ensures r.Ok? <==> exists i :: 0 <= i < |leads| && leads[i].id == leadId
      ensures r.Err? ==> r == Err(404, "Lead not found")
      ensures forall i :: 0 <= i < |leads| ==>
        leads[i].State() == if leads[i].id == leadId then AfterCall(old(leads[i].State()), c, directory, pick) else old(leads[i].State())
    {
      var found := FindLead(leadId);
      if found.None? {
        return Err(404, "Lead not found");
      }
      var lead := leads[found.value];
      assert forall i :: 0 <= i < |leads| && leads[i] == lead ==> i == found.value;
      lead.LogCall(c, directory, pick);
      r := Ok(());
    }

    /** `adminReassign` (src/controllers/leadController.js:383-417): 404 when no
        lead has the id; otherwise that lead, and only it, is overridden. */
    method AdminReassign(leadId: nat, admin: Id, newOwner: Option<Id>, now: int) returns (r: Result<()>)
      requires Valid() && WithinBudget()
      modifies leads
      ensures Valid() && WithinBudget()
      ensures r.Ok? <==> exists i :: 0 <= i < |leads| && leads[i].id == leadId
      ensures r.Err? ==> r == Err(404, "Lead not found")
      ensures forall i :: 0 <= i < |leads| ==>
        leads[i].State() == if leads[i].id == leadId then Overridden(old(leads[i].State()), admin, newOwner, now) else old(leads[i].State())
    {
      var found := FindLead(leadId);
      if found.None? {
        return Err(404, "Lead not found");
      }
      var lead := leads[found.value];
      assert forall i :: 0 <= i < |leads| && leads[i] == lead ==> i == found.value;
      lead.AdminReassign(admin, newOwner, now);
      r := Ok(());
    }

    /** `deleteBatch` (src/controllers/leadController.js:421-456). */
    method DeleteBatch(batchId: nat, userId: Id, userRole: string, directory: seq<User>)
      returns (r: Result<DeleteReport>)
      requires Valid() && WithinBudget()
      modifies this
      ensures Valid() && WithinBudget()
      ensures batchId !in old(batches) ==> r == Err(404, "File not found")
      ensures r.Err? ==> leads == old(leads) && batches == old(batches)
      ensures batchId in old(batches) ==>
        (r.Err? <==> !MayDeleteBatch(userRole, userId, old(batches)[batchId].uploadedBy, directory))
      ensures r.Ok? ==> leads == old(KeepAfterDelete(leads, batchId)) && batches == old(batches) - {batchId}
      ensures r.Ok? ==> r.value == DeleteReport(|old(leads)| - |leads|, CountInBatch(leads, batchId))
    {
      if batchId !in batches {
        return Err(404, "File not found");
      }
      var batch := batches[batchId];
      if userRole == LEAD_MANAGER {
        if exists u :: u in directory && u.id == batch.uploadedBy && u.role == ADMIN {
          return Err(403, "Access Denied: You cannot delete Admin uploads.");
        }
        if batch.uploadedBy != userId {
          return Err(403, "Access Denied: You can only delete your own files.");
        }
      }
      var kept := KeepAfterDelete(leads, batchId);
      var deletedCount := |leads| - |kept|;
      leads := kept;
      var remainingLeads := CountInBatch(leads, batchId);
      batches := batches - {batchId};
      r := Ok(DeleteReport(deletedCount, remainingLeads));
    }
  }

  /** The row loop of the upload: each cleaned number is kept the first time
      it is seen. */
  method ScanRows(rows: seq<seq<Cell>>) returns (validLeads: seq<Candidate>)
    ensures validLeads == Accepted(rows)
  {
    validLeads := [];
    var seen: set<string> := {};
    for i := 0 to |rows|
      invariant validLeads == Accepted(rows[..i])
      invariant seen == PhonesOf(validLeads)
    {
      assert rows[..i + 1][..i] == rows[..i];
      var row := rows[i];
      if |row| == 0 {
        continue;
      }
      var rawPhone := row[0];
      var rawName := if |row| > 1 then row[1] else Blank;
      var cleanPhone := CleanPhoneNumber(rawPhone);
      if cleanPhone.Some? && cleanPhone.value !in seen {
        PhonesOfAppend(validLeads, Candidate(cleanPhone.value, NameOf(rawName), rawPhone));
        seen := seen + {cleanPhone.value};
        validLeads := validLeads + [Candidate(cleanPhone.value, NameOf(rawName), rawPhone)];
      }
    }
    assert rows[..|rows|] == rows;
  }
}
