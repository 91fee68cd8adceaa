/**
 Long-term memory and the outbox that keeps two external indexes in step with it.

 Every memory operation writes a canonical record and appends a sync event; the event
 replaces that memory's entries in a queue of pending index changes, and processing
 works the queue off. All of it is for one user in one workspace.
 */
module MemoryModel {
  import opened Wrappers

  type MemoryId = int

  datatype MemoryType =
    | UserProfile | UserPreference | ProjectFact | ProjectRule
    | ToolUsagePreference | Correction | SafetyBoundary | RelationshipFact

  datatype Scope = Global | Workspace

  datatype Status = Active | Disabled | Deleted | PendingApproval | Rejected

  /** A case-folded field name. */
  datatype Field = Hobby | Hobbies | Interest | Interests | Likes | PreferredName | OtherField(name: nat)

  datatype Key = Key(scope: Scope, id: MemoryId)

  datatype Record = Record(
    id: MemoryId, scope: Scope, type_: MemoryType, field: Option<Field>,
    value: Option<int>, summary: int, content: int,
    status: Status, enabled: bool, sensitive: bool, updatedAt: int, revision: nat)

  function KeyOf(r: Record): Key {
    Key(r.scope, r.id)
  }

  datatype Target = Milvus | Neo4j

  datatype Action = DoUpsert | DoDelete | Skip

  datatype EntryStatus = Pending | WaitingRetry | GivenUp

  datatype Entry = Entry(target: Target, action: Action, memory: MemoryId, key: Key, seq_: nat,
                         status: EntryStatus, attempts: nat)

  type Slot = (MemoryId, Target)

  function SlotOf(e: Entry): Slot {
    (e.memory, e.target)
  }

  /** `latest` is the record each memory's latest sync event named; `touched` the slots any event asked to change. */
  datatype Hub = Hub(
    records: map<Key, Record>,
    globals: set<MemoryId>,
    workspaces: set<MemoryId>,
    queue: seq<Entry>,
    lastSeq: nat,
    external: map<Slot, Record>,
    latest: map<MemoryId, Record>,
    touched: set<Slot>)

  const EMPTY_HUB := Hub(map[], {}, {}, [], 0, map[], map[], {})

  // ----- which index changes a record asks for -----

  predicate InMilvus(t: MemoryType) {
    t in {UserProfile, UserPreference, ProjectFact, ProjectRule, ToolUsagePreference, Correction, SafetyBoundary, RelationshipFact}
  }

  predicate InNeo4j(r: Record) {
    || r.type_ in {UserProfile, ProjectFact, ProjectRule, Correction, RelationshipFact}
    || (r.type_.UserPreference? && r.field.Some? && !r.field.value.OtherField?)
  }

  predicate ForIndex(r: Record) {
    r.status.Active? && r.enabled && !r.sensitive
  }

  function SyncAction(r: Record, t: Target): Action {
    if r.status.PendingApproval? then Skip
    else if !ForIndex(r) then DoDelete
    else if t.Milvus? then (if InMilvus(r.type_) then DoUpsert else Skip)
    else if InNeo4j(r) then DoUpsert else Skip
  }

  // ----- the queue -----

  function WithoutMemory(queue: seq<Entry>, id: MemoryId): (r: seq<Entry>)
    ensures forall e :: e in r <==> e in queue && e.memory != id
  {
    if queue == [] then []
    else
      var n := |queue| - 1;
      if queue[n].memory == id then WithoutMemory(queue[..n], id) else WithoutMemory(queue[..n], id) + [queue[n]]
  }

  function NewEntry(r: Record, t: Target, eventSeq: nat): seq<Entry> {
    if SyncAction(r, t).Skip? then []
    else [Entry(t, SyncAction(r, t), r.id, KeyOf(r), eventSeq, Pending, 0)]
  }

  predicate QueuesBefore(a: Entry, b: Entry) {
    (a.target.Milvus? && b.target.Neo4j?) || (a.target == b.target && a.memory <= b.memory)
  }

  function InsertEntry(xs: seq<Entry>, e: Entry): (r: seq<Entry>)
    ensures forall x :: x in r <==> x in xs || x == e
  {
    if xs == [] then [e]
    else
      var n := |xs| - 1;
      if QueuesBefore(xs[n], e) then xs + [e]
      else
        assert xs == xs[..n] + [xs[n]];
        InsertEntry(xs[..n], e) + [xs[n]]
  }

  function SortQueue(xs: seq<Entry>): (r: seq<Entry>)
    ensures forall x :: x in r <==> x in xs
  {
    if xs == [] then []
    else
      var n := |xs| - 1;
      assert xs == xs[..n] + [xs[n]];
      InsertEntry(SortQueue(xs[..n]), xs[n])
  }

  /** An event's entries replace those of its memory. */
  function Enqueued(queue: seq<Entry>, r: Record, eventSeq: nat): seq<Entry> {
    SortQueue(WithoutMemory(queue, r.id) + NewEntry(r, Milvus, eventSeq) + NewEntry(r, Neo4j, eventSeq))
  }

  // ----- memory operations -----

  datatype MemoryError =
    | PreviouslyDisabled | SensitiveRejected | MemoryNotFound | NotReviewable | NotPending

  datatype UpsertRequest = UpsertRequest(
    scope: Option<Scope>, type_: MemoryType, field: Option<Field>, value: Option<int>,
    summary: int, content: int, enabled: bool, sensitive: bool)

  datatype PatchStatus = ToActive | ToDisabled

  datatype PatchRequest = PatchRequest(
    summary: Option<int>, content: Option<int>, field: Option<Option<Field>>, value: Option<Option<int>>,
    scope: Option<Option<Scope>>, enabled: Option<bool>, status: Option<PatchStatus>)

  function NormalizeScope(t: MemoryType, requested: Option<Scope>): Scope {
    if t.UserProfile? then Global
    else if t.ProjectFact? || t.ProjectRule? then Workspace
    else if requested.Some? then requested.value else Global
  }

  predicate BlocksUpsert(r: Record) {
    r.status.Disabled? || r.status.Deleted? || r.status.Rejected? || !r.enabled
  }

  /** `denied` says whether the request matches a disabled pattern. */
  function Upserted(h: Hub, id: MemoryId, q: UpsertRequest, denied: bool, now: int): Result<Record, MemoryError> {
    var key := Key(NormalizeScope(q.type_, q.scope), id);
    if (key in h.records && BlocksUpsert(h.records[key])) || denied then Err(PreviouslyDisabled)
    else if q.sensitive && (q.type_.UserProfile? || q.type_.UserPreference?) then Err(SensitiveRejected)
    else Ok(Record(id, key.scope, q.type_, q.field, q.value, q.summary, q.content, Active, q.enabled, q.sensitive, now,
                   if key in h.records then h.records[key].revision + 1 else 1))
  }

  function Proposed(h: Hub, id: MemoryId, q: UpsertRequest, denied: bool, now: int): Result<Record, MemoryError> {
    match Upserted(h, id, q, denied, now)
    case Err(e) => Err(e)
    case Ok(r) => Ok(r.(status := PendingApproval, enabled := false, revision := r.revision + 1))
  }

  /** The record a memory id stands for: of its index entries, the most recently updated. */
  function Find(h: Hub, id: MemoryId): Option<Record> {
    var g, w := Key(Global, id), Key(Workspace, id);
    var inGlobal, inWorkspace := id in h.globals && g in h.records, id in h.workspaces && w in h.records;
    if inGlobal && inWorkspace then
      Some(if h.records[g].updatedAt >= h.records[w].updatedAt then h.records[g] else h.records[w])
    else if inGlobal then Some(h.records[g])
    else if inWorkspace then Some(h.records[w]) else None
  }

  function Or<T>(o: Option<T>, default_: T): T {
    if o.Some? then o.value else default_
  }

  function PatchedEnabled(r: Record, p: PatchRequest): bool {
    if p.status == Some(ToDisabled) then false
    else if p.status == Some(ToActive) && p.enabled.None? && !r.sensitive then true
    else Or(p.enabled, r.enabled)
  }

  function PatchOf(r: Record, p: PatchRequest, now: int): Record {
    r.(summary := Or(p.summary, r.summary), content := Or(p.content, r.content),
       field := Or(p.field, r.field), value := Or(p.value, r.value),
       scope := if p.scope.Some? then NormalizeScope(r.type_, p.scope.value) else r.scope,
       enabled := PatchedEnabled(r, p),
       status := (match p.status
                  case None => r.status
                  case Some(ToActive) => Active
                  case Some(ToDisabled) => Disabled),
       updatedAt := now, revision := r.revision + 1)
  }

  function Patched(h: Hub, id: MemoryId, p: PatchRequest, now: int): Result<Record, MemoryError> {
    match Find(h, id)
    case None => Err(MemoryNotFound)
    case Some(r) => Ok(PatchOf(r, p, now))
  }

  function Candidate(h: Hub, id: MemoryId): Result<Record, MemoryError> {
    match Find(h, id)
    case None => Err(MemoryNotFound)
    case Some(r) =>
      if !r.type_.ProjectFact? && !r.type_.ProjectRule? then Err(NotReviewable)
      else if !r.status.PendingApproval? then Err(NotPending)
      else Ok(r)
  }

  function Reviewed(h: Hub, id: MemoryId, approve: bool, now: int): Result<Record, MemoryError> {
    match Candidate(h, id)
    case Err(e) => Err(e)
    case Ok(r) => Ok(r.(status := if approve then Active else Rejected, enabled := approve && !r.sensitive,
                        updatedAt := now, revision := r.revision + 1))
  }

  function Removed(h: Hub, id: MemoryId, now: int): Result<Record, MemoryError> {
    match Find(h, id)
    case None => Err(MemoryNotFound)
    case Some(r) => Ok(r.(status := Deleted, enabled := false, updatedAt := now, revision := r.revision + 1))
  }

  function Listed(members: set<MemoryId>, id: MemoryId, here: bool, moved: bool): set<MemoryId> {
    if here then members + {id} else if moved then members - {id} else members
  }

  function Touches(r: Record, t: Target): set<Slot> {
    if SyncAction(r, t).Skip? then {} else {(r.id, t)}
  }

  /** A record written and indexed, and its sync event appended; `from` is the scope a patch found it in. */
  function Persisted(h: Hub, r: Record, from: Option<Scope>): Hub {
    var moved := from.Some? && from.value != r.scope;
    h.(records := h.records[KeyOf(r) := r],
       globals := Listed(h.globals, r.id, r.scope.Global?, moved),
       workspaces := Listed(h.workspaces, r.id, r.scope.Workspace?, moved),
       queue := Enqueued(h.queue, r, h.lastSeq + 1),
       lastSeq := h.lastSeq + 1,
       latest := h.latest[r.id := r],
       touched := h.touched + Touches(r, Milvus) + Touches(r, Neo4j))
  }

  // ----- processing -----

  /** One attempt at an entry: on failure the slot it works on may be left in any state. */
  datatype Attempt = Succeeds | Fails(retryable: bool, left: Option<Option<Record>>)

  function SetSlot(external: map<Slot, Record>, slot: Slot, content: Option<Record>): map<Slot, Record> {
    if content.Some? then external[slot := content.value] else external - {slot}
  }

  /** An upsert reads the record from its object key; a missing record fails the attempt. */
  predicate Acked(records: map<Key, Record>, e: Entry, a: Attempt) {
    a.Succeeds? && (e.action.DoUpsert? ==> e.key in records)
  }

  function AfterAttempt(records: map<Key, Record>, external: map<Slot, Record>, e: Entry, a: Attempt): map<Slot, Record> {
    if Acked(records, e, a) then
      (if e.action.DoDelete? then SetSlot(external, SlotOf(e), None)
       else if e.action.DoUpsert? then SetSlot(external, SlotOf(e), Some(records[e.key]))
       else external)
    else if a.Fails? && a.left.Some? then SetSlot(external, SlotOf(e), a.left.value)
    else external
  }

  function Retried(e: Entry, a: Attempt): Entry {
    e.(status := if a.Fails? && !a.retryable then GivenUp else WaitingRetry, attempts := e.attempts + 1)
  }

  /** The entry at the front is attempted and leaves the queue, or goes to its back. */
  function Turn(h: Hub, a: Attempt): Hub
    requires h.queue != []
  {
    var e := h.queue[0];
    h.(external := AfterAttempt(h.records, h.external, e, a),
       queue := h.queue[1..] + (if Acked(h.records, e, a) then [] else [Retried(e, a)]))
  }

  function Turns(h: Hub, attempts: seq<Attempt>, n: nat): Hub
    requires n <= |h.queue| && n <= |attempts|
    ensures |Turns(h, attempts, n).queue| >= |h.queue| - n
  {
    if n == 0 then h else Turn(Turns(h, attempts, n - 1), attempts[n - 1])
  }

  function Clamp(limit: int): (r: nat)
    ensures 1 <= r <= 100 && (1 <= limit <= 100 ==> r == limit) && (limit < 1 ==> r == 1) && (limit > 100 ==> r == 100)
  {
    if limit < 1 then 1 else if limit > 100 then 100 else limit
  }

  function Selected(h: Hub, limit: int): (n: nat)
    ensures n <= |h.queue|
  {
    if Clamp(limit) < |h.queue| then Clamp(limit) else |h.queue|
  }

  // ----- runs -----

  datatype Op =
    | Upsert(id: MemoryId, request: UpsertRequest, denied: bool)
    | Propose(id: MemoryId, request: UpsertRequest, denied: bool)
    | Patch(id: MemoryId, patch: PatchRequest)
    | Approve(id: MemoryId)
    | Reject(id: MemoryId)
    | Delete(id: MemoryId)
    | Process(limit: int, attempts: seq<Attempt>)

  function Decided(h: Hub, op: Op, now: int): Result<Record, MemoryError>
    requires !op.Process?
  {
    match op
    case Upsert(id, q, denied) => Upserted(h, id, q, denied, now)
    case Propose(id, q, denied) => Proposed(h, id, q, denied, now)
    case Patch(id, p) => Patched(h, id, p, now)
    case Approve(id) => Reviewed(h, id, true, now)
    case Reject(id) => Reviewed(h, id, false, now)
    case Delete(id) => Removed(h, id, now)
  }

  function FoundIn(h: Hub, op: Op): Option<Scope> {
    if op.Patch? && Find(h, op.id).Some? then Some(Find(h, op.id).value.scope) else None
  }

  predicate Enabled(h: Hub, op: Op) {
    op.Process? ==> |op.attempts| >= Selected(h, op.limit)
  }

  function Apply(h: Hub, op: Op, now: int): Hub
    requires Enabled(h, op)
  {
    if op.Process? then Turns(h, op.attempts, Selected(h, op.limit))
    else
      match Decided(h, op, now)
      case Err(_) => h
      case Ok(r) => Persisted(h, r, FoundIn(h, op))
  }

  ghost predicate Run(hs: seq<Hub>, ops: seq<Op>, clock: seq<int>) {
    && |hs| == |ops| + 1 && |clock| == |ops| && hs[0] == EMPTY_HUB
    && forall i {:trigger ops[i]} :: 0 <= i < |ops| ==> Enabled(hs[i], ops[i]) && hs[i + 1] == Apply(hs[i], ops[i], clock[i])
  }
}
