/**
 The data and the net effect of every job operation of one workspace.

 A manifest, an event log, a leaf state and an index entry are kept per job. Each
 `After...` function gives the whole store that one operation leaves behind; the
 imperative operations in `JobService` are proved to produce exactly these stores,
 and `JobProtocol` proves what every run of them keeps.
 */
module JobModel {
  import opened Wrappers

  type JobId = int
  type Token = int

  datatype Status =
    | Created | Queued | Running | WaitingRetry | Recovering | UnknownOutcome
    | Succeeded | PartialSuccess | Failed | Cancelled

  predicate Terminal(s: Status) {
    s.Succeeded? || s.PartialSuccess? || s.Failed? || s.Cancelled?
  }

  predicate Claimable(s: Status) {
    s.Created? || s.Queued? || s.WaitingRetry? || s.Recovering?
  }

  datatype Priority = High | Normal | Low

  function Rank(p: Priority): nat {
    match p
    case High => 0
    case Normal => 1
    case Low => 2
  }

  datatype EventKind =
    | JobCreated | JobQueued | JobStarted
    | JobSucceeded | JobPartialSuccess | JobFailed | JobCancelled
    | JobRecoveryStarted | JobUnknownOutcome | JobRecoveryCompleted | JobRecovering

  datatype Event = Event(seq_: nat, kind: EventKind, at: int)

  /** The status a terminal event stands for. */
  function TerminalStatus(k: EventKind): Option<Status> {
    match k
    case JobSucceeded => Some(Succeeded)
    case JobPartialSuccess => Some(PartialSuccess)
    case JobFailed => Some(Failed)
    case JobCancelled => Some(Cancelled)
    case _ => None
  }

  datatype Lease = Lease(instance: nat, token: Token, expiresAt: int)

  datatype Request = Request(jobType: nat, priority: Priority, scope: nat, idem: nat, hash: nat)

  datatype Manifest = Manifest(
    id: JobId, jobType: nat, priority: Priority, scope: nat, idem: nat, hash: nat,
    status: Status, owner: Option<Lease>, lastSeq: nat,
    createdAt: int, updatedAt: int, startedAt: Option<int>, finishedAt: Option<int>,
    retryOf: Option<JobId>, revision: nat)

  datatype Leaf = Leaf(status: Status, lastSeq: nat, revision: nat)

  /** One entry of the workspace index: the public part of a manifest. */
  datatype Summary = Summary(
    id: JobId, jobType: nat, priority: Priority, scope: nat, idem: nat, hash: nat,
    status: Status, lastSeq: nat, createdAt: int, updatedAt: int)

  function SummaryOf(m: Manifest): Summary {
    Summary(m.id, m.jobType, m.priority, m.scope, m.idem, m.hash,
            m.status, m.lastSeq, m.createdAt, m.updatedAt)
  }

  datatype Store = Store(
    manifests: map<JobId, Manifest>,
    logs: map<JobId, seq<Event>>,
    leaves: map<JobId, Leaf>,
    index: seq<Summary>,
    indexExists: bool,
    indexRevision: nat)

  const EMPTY_STORE := Store(map[], map[], map[], [], false, 0)

  function LogOf(s: Store, id: JobId): seq<Event> {
    if id in s.logs then s.logs[id] else []
  }

  function LeafRevision(s: Store, id: JobId): nat {
    if id in s.leaves then s.leaves[id].revision else 0
  }

  // ----- the workspace index -----

  function Without(index: seq<Summary>, id: JobId): (r: seq<Summary>)
    ensures forall x :: x in r <==> x in index && x.id != id
  {
    if index == [] then []
    else if index[|index| - 1].id == id then Without(index[..|index| - 1], id)
    else Without(index[..|index| - 1], id) + [index[|index| - 1]]
  }

  /** `a` may stand before `b` in an index sorted newest first. */
  predicate NotOlder(a: Summary, b: Summary) {
    a.updatedAt > b.updatedAt || (a.updatedAt == b.updatedAt && a.createdAt >= b.createdAt)
  }

  function InsertNewestFirst(xs: seq<Summary>, e: Summary): (r: seq<Summary>)
    ensures forall x :: x in r <==> x in xs || x == e
  {
    if xs == [] then [e]
    else
      var n := |xs| - 1;
      if NotOlder(xs[n], e) then xs + [e]
      else
        assert xs == xs[..n] + [xs[n]];
        InsertNewestFirst(xs[..n], e) + [xs[n]]
  }

  /** A stable sort, newest first. */
  function SortNewestFirst(xs: seq<Summary>): (r: seq<Summary>)
    ensures forall x :: x in r <==> x in xs
  {
    if xs == [] then []
    else
      var n := |xs| - 1;
      assert xs == xs[..n] + [xs[n]];
      InsertNewestFirst(SortNewestFirst(xs[..n]), xs[n])
  }

  function Upsert(index: seq<Summary>, e: Summary): seq<Summary> {
    SortNewestFirst(Without(index, e.id) + [e])
  }

  ghost predicate DistinctIds(index: seq<Summary>) {
    forall i, j :: 0 <= i < j < |index| ==> index[i].id != index[j].id
  }

  ghost predicate NewestFirst(index: seq<Summary>) {
    forall i, j :: 0 <= i < j < |index| ==> NotOlder(index[i], index[j])
  }

  lemma WithoutDistinct(index: seq<Summary>, id: JobId)
    requires DistinctIds(index)
    ensures DistinctIds(Without(index, id))
  {
    if index != [] {
      WithoutDistinct(index[..|index| - 1], id);
    }
  }

  lemma InsertDistinct(xs: seq<Summary>, e: Summary)
    requires DistinctIds(xs) && forall x :: x in xs ==> x.id != e.id
    ensures DistinctIds(InsertNewestFirst(xs, e))
  {
    if xs != [] {
      var n := |xs| - 1;
      InsertDistinct(xs[..n], e);
      assert forall x :: x in xs[..n] ==> x in xs && x.id != xs[n].id;
    }
  }

  lemma InsertSorted(xs: seq<Summary>, e: Summary)
    requires NewestFirst(xs)
    ensures NewestFirst(InsertNewestFirst(xs, e))
  {
    if xs != [] {
      var n := |xs| - 1;
      InsertSorted(xs[..n], e);
      assert forall x :: x in xs[..n] ==> NotOlder(x, xs[n]);
    }
  }

  lemma SortDistinct(xs: seq<Summary>)
    requires DistinctIds(xs)
    ensures DistinctIds(SortNewestFirst(xs))
    ensures NewestFirst(SortNewestFirst(xs))
  {
    if xs != [] {
      var n := |xs| - 1;
      SortDistinct(xs[..n]);
      assert forall x :: x in xs[..n] ==> x.id != xs[n].id;
      InsertDistinct(SortNewestFirst(xs[..n]), xs[n]);
      InsertSorted(SortNewestFirst(xs[..n]), xs[n]);
    }
  }

  /** An upsert replaces the entry of one job, keeps every other entry, and leaves the index sorted. */
  lemma UpsertEffect(index: seq<Summary>, e: Summary)
    requires DistinctIds(index)
    ensures DistinctIds(Upsert(index, e))
    ensures NewestFirst(Upsert(index, e))
    ensures forall x :: x in Upsert(index, e) <==> x == e || (x in index && x.id != e.id)
  {
    WithoutDistinct(index, e.id);
    SortDistinct(Without(index, e.id) + [e]);
  }

  function FindByIdem(index: seq<Summary>, idem: nat): (r: Option<Summary>)
    ensures r.Some? ==> r.value in index && r.value.idem == idem
    ensures r.None? ==> forall x :: x in index ==> x.idem != idem
  {
    if index == [] then None
    else if index[0].idem == idem then Some(index[0])
    else FindByIdem(index[1..], idem)
  }

  function FindActive(index: seq<Summary>, scope: nat, exclude: Option<JobId>): (r: Option<Summary>)
    ensures r.Some? ==> r.value in index && r.value.scope == scope && !Terminal(r.value.status)
                        && Some(r.value.id) != exclude
    ensures r.None? ==> forall x :: x in index && x.scope == scope && Some(x.id) != exclude ==> Terminal(x.status)
  {
    if index == [] then None
    else if index[0].scope == scope && Some(index[0].id) != exclude && !Terminal(index[0].status) then Some(index[0])
    else FindActive(index[1..], scope, exclude)
  }

  // ----- leases -----

  predicate OwnerLive(m: Manifest, now: int) {
    m.owner.Some? && m.owner.value.expiresAt > now
  }

  predicate LeaseHeld(m: Manifest, token: Token, instance: nat, now: int) {
    && !Terminal(m.status)
    && m.owner.Some?
    && m.owner.value.instance == instance
    && m.owner.value.token == token
    && m.owner.value.expiresAt > now
  }

  predicate MutationAllowed(m: Manifest, token: Option<Token>, instance: nat, now: int) {
    m.owner.None? || (token.Some? && LeaseHeld(m, token.value, instance, now))
  }

  // ----- the net effect of each operation -----

  function Logged(log: seq<Event>, kind: EventKind, now: int): seq<Event> {
    log + [Event(|log| + 1, kind, now)]
  }

  /** Writes of one job that end with the manifest, leaf and index all rewritten. */
  function Commit(s: Store, m: Manifest, log: seq<Event>): Store {
    Store(s.manifests[m.id := m], s.logs[m.id := log],
          s.leaves[m.id := Leaf(m.status, m.lastSeq, LeafRevision(s, m.id) + 1)],
          Upsert(s.index, SummaryOf(m)), true, s.indexRevision + 1)
  }

  function NewManifest(id: JobId, r: Request, now: int): Manifest {
    Manifest(id, r.jobType, r.priority, r.scope, r.idem, r.hash,
             Queued, None, 2, now, now, None, None, None, 4)
  }

  /** Everything a create writes before its index write. */
  function AfterCreateBegin(s: Store, id: JobId, r: Request, now: int): Store {
    s.(manifests := s.manifests[id := NewManifest(id, r, now)],
       logs := s.logs[id := [Event(1, JobCreated, now), Event(2, JobQueued, now)]],
       leaves := s.leaves[id := Leaf(Queued, 2, LeafRevision(s, id) + 2)])
  }

  predicate IndexWriteAccepted(s: Store, expected: nat) {
    !s.indexExists || s.indexRevision == expected
  }

  function AfterIndexWrite(s: Store, m: Manifest): Store {
    s.(index := Upsert(s.index, SummaryOf(m)), indexExists := true, indexRevision := s.indexRevision + 1)
  }

  function AfterCancel(s: Store, id: JobId, now: int): Store
    requires id in s.manifests
  {
    var m, log := s.manifests[id], LogOf(s, id);
    Commit(s, m.(status := Cancelled, owner := None, lastSeq := |log| + 1, finishedAt := Some(now),
                 updatedAt := now, revision := m.revision + 2),
           Logged(log, JobCancelled, now))
  }

  /** A cancel that stops after its event append: only the log and the manifest's counters move. */
  function AfterCancelCrash(s: Store, id: JobId, now: int): Store
    requires id in s.manifests
  {
    var m, log := s.manifests[id], LogOf(s, id);
    s.(manifests := s.manifests[id := m.(lastSeq := |log| + 1, updatedAt := now, revision := m.revision + 1)],
       logs := s.logs[id := Logged(log, JobCancelled, now)])
  }

  /** `read` is the manifest the claim read; `claimedAt` is when it built the lease. */
  function AfterClaim(s: Store, read: Manifest, lease: Lease, claimedAt: int, now: int): Store {
    var log := LogOf(s, read.id);
    Commit(s, read.(status := Running, owner := Some(lease), lastSeq := |log| + 1,
                    startedAt := if read.startedAt.Some? then read.startedAt else Some(claimedAt),
                    updatedAt := now, revision := read.revision + 2),
           Logged(log, JobStarted, now))
  }

  function Renewed(owner: Option<Lease>, expiresAt: int): Option<Lease> {
    if owner.None? then None else Some(owner.value.(expiresAt := expiresAt))
  }

  function AfterMarkRunning(s: Store, id: JobId, token: Option<Token>, ttl: nat, now: int): Store
    requires id in s.manifests
  {
    var m, log := s.manifests[id], LogOf(s, id);
    Commit(s, m.(status := Running, owner := if token.Some? then Renewed(m.owner, now + ttl) else m.owner,
                 lastSeq := |log| + 1,
                 startedAt := if m.startedAt.Some? then m.startedAt else Some(now),
                 updatedAt := now, revision := m.revision + 2),
           Logged(log, JobStarted, now))
  }

  datatype Outcome = OutSucceeded | OutPartialSuccess | OutFailed

  function OutcomeStatus(o: Outcome): (s: Status)
    ensures Terminal(s)
  {
    match o
    case OutSucceeded => Succeeded
    case OutPartialSuccess => PartialSuccess
    case OutFailed => Failed
  }

  function OutcomeKind(o: Outcome): (k: EventKind)
    ensures TerminalStatus(k) == Some(OutcomeStatus(o))
  {
    match o
    case OutSucceeded => JobSucceeded
    case OutPartialSuccess => JobPartialSuccess
    case OutFailed => JobFailed
  }

  /** `read` is the manifest the finish read; `checkedAt` is when it was read. */
  function AfterFinish(s: Store, read: Manifest, o: Outcome, checkedAt: int, now: int): Store {
    var log := LogOf(s, read.id);
    Commit(s, read.(status := OutcomeStatus(o), owner := None, lastSeq := |log| + 1,
                    finishedAt := Some(checkedAt), updatedAt := now, revision := read.revision + 2),
           Logged(log, OutcomeKind(o), now))
  }

  /** A finish that stops after its manifest write: no event, and leaf and index as they were. */
  function AfterFinishCrash(s: Store, read: Manifest, o: Outcome, checkedAt: int): Store {
    s.(manifests := s.manifests[read.id := read.(status := OutcomeStatus(o), owner := None, finishedAt := Some(checkedAt),
                                                 updatedAt := checkedAt, revision := read.revision + 1)])
  }

  function AfterRetryLink(s: Store, id: JobId, of_: JobId): Store
    requires id in s.manifests
  {
    var m := s.manifests[id];
    var m' := m.(retryOf := Some(of_), revision := m.revision + 1);
    AfterIndexWrite(s.(manifests := s.manifests[id := m']), m')
  }

  predicate Stale(m: Manifest, staleAfter: nat, now: int) {
    && m.status.Running?
    && !OwnerLive(m, now)
    && now - m.updatedAt >= (if staleAfter < 1 then 1 else staleAfter)
  }

  function AfterStale(s: Store, id: JobId, now: int): Store
    requires id in s.manifests
  {
    var m, log := s.manifests[id], LogOf(s, id);
    Commit(s, m.(status := UnknownOutcome, owner := None, lastSeq := |log| + 2,
                 updatedAt := now, revision := m.revision + 3),
           Logged(Logged(log, JobRecoveryStarted, now), JobUnknownOutcome, now))
  }

  /** The newest terminal event of a numbered log, which decides a recovery. */
  function LastTerminal(log: seq<Event>): (r: Option<Event>)
    ensures r.Some? ==> r.value in log && TerminalStatus(r.value.kind).Some?
    ensures r.None? <==> forall e :: e in log ==> TerminalStatus(e.kind).None?
  {
    if log == [] then None
    else if TerminalStatus(log[|log| - 1].kind).Some? then Some(log[|log| - 1])
    else
      assert log == log[..|log| - 1] + [log[|log| - 1]];
      LastTerminal(log[..|log| - 1])
  }

  function LastTerminalStatus(log: seq<Event>): Option<Status> {
    var e := LastTerminal(log);
    if e.None? then None else TerminalStatus(e.value.kind)
  }

  function AfterRecoverUnknown(s: Store, id: JobId, now: int): Store
    requires id in s.manifests
  {
    var m, log := s.manifests[id], LogOf(s, id);
    var last := LastTerminal(log);
    if last.Some? then
      Commit(s, m.(status := TerminalStatus(last.value.kind).value, owner := None, lastSeq := |log| + 1,
                   finishedAt := Some(last.value.at), updatedAt := now, revision := m.revision + 2),
             Logged(log, JobRecoveryCompleted, now))
    else
      Commit(s, m.(status := Recovering, owner := None, lastSeq := |log| + 1,
                   updatedAt := now, revision := m.revision + 2),
             Logged(log, JobRecovering, now))
  }
}
