/**
 What each memory operation leaves, told in full: the record it writes or why it refuses, and
 what then waits in the queue for the memory's two index slots.
 */
module MemoryOutcomes {
  import opened Wrappers
  import opened MemoryModel
  import opened Outbox

  // ----- the queue after an event -----

  /** The slot's one entry asks for `action` on behalf of event `n`, or the slot has no entry. */
  ghost predicate Waits(queue: seq<Entry>, r: Record, t: Target, action: Option<Action>, n: nat) {
    forall e :: e in queue && e.memory == r.id && e.target == t
      <==> action.Some? && e == Entry(t, action.value, r.id, Key(r.scope, r.id), n, Pending, 0)
  }

  /** A relation, a project memory, a profile or a correction goes into the graph index, and so does a preference of some fields. */
  predicate OfGraph(r: Record) {
    match r.type_
    case UserPreference =>
      (match r.field
       case Some(Hobby) | Some(Hobbies) | Some(Interest) | Some(Interests) | Some(Likes) | Some(PreferredName) => true
       case _ => false)
    case ToolUsagePreference | SafetyBoundary => false
    case _ => true
  }

  /** What waits for a record's slots: nothing before approval, deletions unless it is active, enabled and harmless, and else upserts. */
  ghost predicate AsksFor(queue: seq<Entry>, r: Record, n: nat) {
    if r.status == PendingApproval then Waits(queue, r, Milvus, None, n) && Waits(queue, r, Neo4j, None, n)
    else if r.status == Active && r.enabled && !r.sensitive then
      && Waits(queue, r, Milvus, Some(DoUpsert), n)
      && Waits(queue, r, Neo4j, if OfGraph(r) then Some(DoUpsert) else None, n)
    else Waits(queue, r, Milvus, Some(DoDelete), n) && Waits(queue, r, Neo4j, Some(DoDelete), n)
  }

  /** Milvus before Neo4j, and by memory within each. */
  predicate NoLater(a: Entry, b: Entry) {
    (a.target == Neo4j ==> b.target == Neo4j) && (a.target == b.target ==> a.memory <= b.memory)
  }

  ghost predicate InOrder(queue: seq<Entry>) {
    forall i, j :: 0 <= i < j < |queue| ==> NoLater(queue[i], queue[j])
  }

  lemma {:induction false} InsertInOrder(xs: seq<Entry>, e: Entry)
    requires InOrder(xs)
    ensures InOrder(InsertEntry(xs, e))
  {
    if xs != [] {
      var n := |xs| - 1;
      InsertInOrder(xs[..n], e);
      assert forall x :: x in xs[..n] ==> NoLater(x, xs[n]);
      assert NoLater(xs[n], e) || NoLater(e, xs[n]);
      assert NoLater(xs[n], e) ==> forall x :: x in xs ==> NoLater(x, e);
    }
  }

  lemma {:induction false} SortInOrder(xs: seq<Entry>)
    ensures InOrder(SortQueue(xs))
  {
    if xs != [] {
      SortInOrder(xs[..|xs| - 1]);
      InsertInOrder(SortQueue(xs[..|xs| - 1]), xs[|xs| - 1]);
    }
  }

  lemma ActionsAsked(r: Record)
    ensures SyncAction(r, Milvus) == if r.status == PendingApproval then Skip
                                     else if r.status == Active && r.enabled && !r.sensitive then DoUpsert else DoDelete
    ensures SyncAction(r, Neo4j) == if r.status == PendingApproval then Skip
                                    else if !(r.status == Active && r.enabled && !r.sensitive) then DoDelete
                                    else if OfGraph(r) then DoUpsert else Skip
  {
    var t := r.type_;
    assert t.UserProfile? || t.UserPreference? || t.ProjectFact? || t.ProjectRule?
           || t.ToolUsagePreference? || t.Correction? || t.SafetyBoundary? || t.RelationshipFact?;
  }

  /** An event asks for its record's index changes, keeps what other memories wait for, and leaves the queue in order. */
  lemma EventQueues(queue: seq<Entry>, r: Record, n: nat)
    requires OnePerSlot(queue)
    ensures AsksFor(Enqueued(queue, r, n), r, n) && InOrder(Enqueued(queue, r, n))
    ensures forall e: Entry :: e.memory != r.id ==> (e in Enqueued(queue, r, n) <==> e in queue)
  {
    EnqueuedExact(queue, r, n);
    SortInOrder(WithoutMemory(queue, r.id) + NewEntry(r, Milvus, n) + NewEntry(r, Neo4j, n));
    ActionsAsked(r);
    hide SyncAction, OfGraph, OnePerSlot;
  }

  // ----- what an operation leaves -----

  /** The record is written, listed under its scope and no longer under the one it left, and its event appended. */
  ghost predicate Wrote(h: Hub, h': Hub, r: Record, left: Option<Scope>) {
    && h'.records == h.records[Key(r.scope, r.id) := r]
    && h'.globals == (if r.scope == Global then h.globals + {r.id} else if left == Some(Global) then h.globals - {r.id} else h.globals)
    && h'.workspaces == (if r.scope == Workspace then h.workspaces + {r.id}
                         else if left == Some(Workspace) then h.workspaces - {r.id} else h.workspaces)
    && h'.external == h.external && h'.latest == h.latest[r.id := r] && h'.lastSeq == h.lastSeq + 1
    && AsksFor(h'.queue, r, h'.lastSeq) && InOrder(h'.queue)
    && forall e: Entry :: e.memory != r.id ==> (e in h'.queue <==> e in h.queue)
  }

  lemma PersistedWrites(h: Hub, r: Record, from: Option<Scope>)
    requires OnePerSlot(h.queue)
    ensures Wrote(h, Persisted(h, r, from), r, from)
  {
    hide Enqueued, AsksFor, InOrder, OnePerSlot, Touches;
    EventQueues(h.queue, r, h.lastSeq + 1);
  }

  /** Operation `op` ends as `outcome`: a refusal changes nothing, and a record is written. */
  ghost predicate Ends(h: Hub, op: Op, now: int, outcome: Result<Record, MemoryError>, left: Option<Scope>)
    requires !op.Process?
  {
    && Decided(h, op, now) == outcome
    && match outcome
       case Err(_) => Apply(h, op, now) == h
       case Ok(r) => Wrote(h, Apply(h, op, now), r, left)
  }

  lemma DecidedEnds(h: Hub, op: Op, now: int)
    requires !op.Process? && OnePerSlot(h.queue)
    ensures Ends(h, op, now, Decided(h, op, now), FoundIn(h, op))
  {
    hide Decided, Persisted, Wrote, OnePerSlot, FoundIn;
    if Decided(h, op, now).Ok? {
      PersistedWrites(h, Decided(h, op, now).value, FoundIn(h, op));
    }
  }

  /** A memory's scope: profiles are global, project memories belong to their workspace, others are where asked. */
  function ScopeFor(t: MemoryType, requested: Option<Scope>): Scope {
    match t
    case UserProfile => Global
    case ProjectFact | ProjectRule => Workspace
    case _ => if requested == Some(Workspace) then Workspace else Global
  }

  /** An upsert refuses a memory once disabled, deleted or rejected, and sensitive profiles and preferences. */
  function UpsertAnswer(h: Hub, id: MemoryId, q: UpsertRequest, denied: bool, now: int): Result<Record, MemoryError> {
    var scope := ScopeFor(q.type_, q.scope);
    var before := if Key(scope, id) in h.records then Some(h.records[Key(scope, id)]) else None;
    if denied || (before.Some? && (before.value.status == Disabled || before.value.status == Deleted
                                   || before.value.status == Rejected || !before.value.enabled))
    then Err(PreviouslyDisabled)
    else if q.sensitive && (q.type_ == UserProfile || q.type_ == UserPreference) then Err(SensitiveRejected)
    else Ok(Record(id, scope, q.type_, q.field, q.value, q.summary, q.content, Active, q.enabled, q.sensitive, now,
                   if before.Some? then before.value.revision + 1 else 1))
  }

  lemma UpsertIsAnswered(h: Hub, id: MemoryId, q: UpsertRequest, denied: bool, now: int)
    ensures Upserted(h, id, q, denied, now) == UpsertAnswer(h, id, q, denied, now)
  {
    assert NormalizeScope(q.type_, q.scope) == ScopeFor(q.type_, q.scope);
  }

  lemma UpsertOutcome(h: Hub, id: MemoryId, q: UpsertRequest, denied: bool, now: int)
    requires OnePerSlot(h.queue)
    ensures Ends(h, Upsert(id, q, denied), now, UpsertAnswer(h, id, q, denied, now), None)
  {
    hide Ends, OnePerSlot, Upserted, UpsertAnswer;
    UpsertIsAnswered(h, id, q, denied, now);
    DecidedEnds(h, Upsert(id, q, denied), now);
  }

  /** A proposal is refused as an upsert is; its record waits for approval, not enabled. */
  lemma ProposeOutcome(h: Hub, id: MemoryId, q: UpsertRequest, denied: bool, now: int)
    requires OnePerSlot(h.queue)
    ensures match UpsertAnswer(h, id, q, denied, now)
      case Err(e) => Ends(h, Propose(id, q, denied), now, Err(e), None)
      case Ok(r) => Ends(h, Propose(id, q, denied), now,
                         Ok(r.(status := PendingApproval, enabled := false, revision := r.revision + 1)), None)
  {
    hide Ends, OnePerSlot, Upserted, UpsertAnswer;
    UpsertIsAnswered(h, id, q, denied, now);
    DecidedEnds(h, Propose(id, q, denied), now);
  }

  /** The record a memory id is found as: the later of its listed records, and the global one of two as late. */
  ghost predicate FoundAs(h: Hub, id: MemoryId, found: Option<Record>) {
    var inGlobal := id in h.globals && Key(Global, id) in h.records;
    var inWorkspace := id in h.workspaces && Key(Workspace, id) in h.records;
    match found
    case None => !inGlobal && !inWorkspace
    case Some(r) =>
      || (inGlobal && r == h.records[Key(Global, id)] && (inWorkspace ==> h.records[Key(Workspace, id)].updatedAt <= r.updatedAt))
      || (inWorkspace && r == h.records[Key(Workspace, id)] && (inGlobal ==> h.records[Key(Global, id)].updatedAt < r.updatedAt))
  }

  lemma FindIsFound(h: Hub, id: MemoryId, found: Option<Record>)
    ensures FoundAs(h, id, found) <==> found == Find(h, id)
  {
  }

  /** Only a pending project fact or rule can be reviewed; approval makes it active, and enabled unless sensitive, rejection neither. */
  lemma ReviewOutcome(h: Hub, id: MemoryId, approve: bool, now: int, found: Option<Record>)
    requires OnePerSlot(h.queue) && FoundAs(h, id, found)
    ensures var op := if approve then Approve(id) else Reject(id);
      match found
      case None => Ends(h, op, now, Err(MemoryNotFound), None)
      case Some(r) =>
        if r.type_ != ProjectFact && r.type_ != ProjectRule then Ends(h, op, now, Err(NotReviewable), None)
        else if r.status != PendingApproval then Ends(h, op, now, Err(NotPending), None)
        else Ends(h, op, now,
                  Ok(Record(r.id, r.scope, r.type_, r.field, r.value, r.summary, r.content,
                            if approve then Active else Rejected, if approve then !r.sensitive else false, r.sensitive,
                            now, r.revision + 1)), None)
  {
    hide Ends, OnePerSlot, Find, FoundAs;
    FindIsFound(h, id, found);
    if approve {
      DecidedEnds(h, Approve(id), now);
    } else {
      DecidedEnds(h, Reject(id), now);
    }
  }

  /**
   After the approval of a candidate that is not sensitive both its slots wait for an upsert,
   after its rejection both wait for a deletion, and after the approval of a sensitive one too.
   */
  lemma ReviewQueues(h: Hub, id: MemoryId, approve: bool, now: int, r: Record)
    requires OnePerSlot(h.queue) && FoundAs(h, id, Some(r))
    requires (r.type_ == ProjectFact || r.type_ == ProjectRule) && r.status == PendingApproval
    ensures var h' := Apply(h, if approve then Approve(id) else Reject(id), now);
      var action := Some(if approve && !r.sensitive then DoUpsert else DoDelete);
      Waits(h'.queue, r, Milvus, action, h.lastSeq + 1) && Waits(h'.queue, r, Neo4j, action, h.lastSeq + 1)
  {
    hide Decided, FoundAs, OnePerSlot;
    ReviewOutcome(h, id, approve, now, Some(r));
    hide Apply;
  }

  /** A deletion leaves the record as it was but deleted, and not enabled. */
  lemma DeleteOutcome(h: Hub, id: MemoryId, now: int, found: Option<Record>)
    requires OnePerSlot(h.queue) && FoundAs(h, id, found)
    ensures Ends(h, Delete(id), now,
                 match found
                 case None => Err(MemoryNotFound)
                 case Some(r) => Ok(Record(r.id, r.scope, r.type_, r.field, r.value, r.summary, r.content, Deleted, false,
                                           r.sensitive, now, r.revision + 1)), None)
  {
    hide Ends, OnePerSlot, Find, FoundAs;
    FindIsFound(h, id, found);
    DecidedEnds(h, Delete(id), now);
  }

  /** What a patch makes of a record: the fields it names change, and a status decides whether the memory is enabled. */
  ghost predicate PatchedAs(r: Record, p: PatchRequest, r': Record, now: int) {
    && r'.id == r.id && r'.type_ == r.type_ && r'.sensitive == r.sensitive && r'.updatedAt == now && r'.revision == r.revision + 1
    && (match p.summary case Some(x) => r'.summary == x case None => r'.summary == r.summary)
    && (match p.content case Some(x) => r'.content == x case None => r'.content == r.content)
    && (match p.field case Some(x) => r'.field == x case None => r'.field == r.field)
    && (match p.value case Some(x) => r'.value == x case None => r'.value == r.value)
    && (match p.scope case Some(x) => r'.scope == ScopeFor(r.type_, x) case None => r'.scope == r.scope)
    && (match p.status
        case Some(ToDisabled) => r'.status == Disabled && !r'.enabled
        case Some(ToActive) =>
          r'.status == Active
          && (match p.enabled case Some(x) => r'.enabled == x case None => r'.enabled == (r.enabled || !r.sensitive))
        case None =>
          r'.status == r.status && (match p.enabled case Some(x) => r'.enabled == x case None => r'.enabled == r.enabled))
  }

  lemma PatchIsTold(r: Record, p: PatchRequest, now: int)
    ensures PatchedAs(r, p, PatchOf(r, p, now), now)
  {
  }

  lemma PatchOutcome(h: Hub, id: MemoryId, p: PatchRequest, now: int, found: Option<Record>)
    requires OnePerSlot(h.queue) && FoundAs(h, id, found)
    ensures match found
      case None => Ends(h, Patch(id, p), now, Err(MemoryNotFound), None)
      case Some(r) =>
        (&& Decided(h, Patch(id, p), now).Ok?
         && var r' := Decided(h, Patch(id, p), now).value;
            PatchedAs(r, p, r', now) && Ends(h, Patch(id, p), now, Ok(r'), Some(r.scope)))
  {
    hide Ends, OnePerSlot, Find, FoundAs;
    FindIsFound(h, id, found);
    DecidedEnds(h, Patch(id, p), now);
    if found.Some? {
      PatchIsTold(found.value, p, now);
    }
    hide PatchOf, PatchedAs;
  }

  // ----- one entry worked -----

  /** A success does to the slot what the entry asks and drops the entry; a failure sends it to the back, waiting or given up. */
  lemma TurnOutcome(h: Hub, a: Attempt)
    requires h.queue != []
    ensures var e, h' := h.queue[0], Turn(h, a);
      if a == Succeeds && (e.action == DoUpsert ==> e.key in h.records) then
        && h'.queue == h.queue[1..]
        && h'.external == match e.action
                          case DoUpsert => h.external[(e.memory, e.target) := h.records[e.key]]
                          case DoDelete => h.external - {(e.memory, e.target)}
                          case Skip => h.external
      else
        && h'.queue == h.queue[1..] + [Entry(e.target, e.action, e.memory, e.key, e.seq_,
             if a.Fails? && !a.retryable then GivenUp else WaitingRetry, e.attempts + 1)]
        && forall slot :: slot != (e.memory, e.target) ==>
             (slot in h'.external <==> slot in h.external) && (slot in h.external ==> h'.external[slot] == h.external[slot])
  {
  }
}
