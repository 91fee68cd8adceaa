/**
 The job service of one workspace, step by step: each operation reads a manifest,
 appends events, and rewrites the manifest, the leaf state and the workspace index.
 Every operation is proved to leave exactly the store its `After...` function in
 `JobModel` describes.
 */
module JobService {
  import opened Wrappers
  import opened JobModel
  import opened JobProtocol
  import opened EventIndex

  datatype JobError =
    | JobNotFound
    | IdempotencyConflict
    | ScopeConflict(existing: JobId)
    | ConcurrencyConflict
    | NotRetryable(status: Status)

  datatype Prepared = Existing(id: JobId) | Refused(error: JobError) | Ready(pending: PendingCreate)

  /** The refusal or idempotent answer a create gets from the index alone. */
  function CreateAnswer(index: seq<Summary>, r: Request): Option<Result<JobId, JobError>> {
    var same := FindByIdem(index, r.idem);
    if same.Some? then Some(if same.value.hash == r.hash then Ok(same.value.id) else Err(IdempotencyConflict))
    else
      var active := FindActive(index, r.scope, None);
      if active.Some? then Some(Err(ScopeConflict(active.value.id))) else None
  }

  function AfterCreate(s: Store, id: JobId, r: Request, now: int): Store {
    AfterIndexWrite(AfterCreateBegin(s, id, r, now), NewManifest(id, r, now))
  }

  /** Another create, with nothing between its writes, or none. */
  function Rivalled(s: Store, id: JobId, rival: Option<Request>, now: int): Store {
    if rival.None? || CreateAnswer(s.index, rival.value).Some? then s else AfterCreate(s, id, rival.value, now)
  }

  /** One attempt at a create: the store it leaves, and its result unless another writer came before its index write. */
  function CreateAttempt(s: Store, id: JobId, r: Request, rivalId: JobId, rival: Option<Request>, now: int)
    : (Store, Option<Result<JobId, JobError>>)
  {
    var answer := CreateAnswer(s.index, r);
    if answer.Some? then (s, answer)
    else
      var s1 := Rivalled(AfterCreateBegin(s, id, r, now), rivalId, rival, now);
      if IndexWriteAccepted(s1, s.indexRevision) then (AfterIndexWrite(s1, NewManifest(id, r, now)), Some(Ok(id)))
      else (s1, None)
  }

  /** A create makes two attempts; `ids` are the ids drawn, by it and by its rivals. */
  function CreateOutcome(s: Store, r: Request, ids: seq<JobId>, rivals: seq<Option<Request>>, now: int): (Store, Result<JobId, JobError>)
    requires |ids| == 4 && |rivals| == 2
  {
    var a := CreateAttempt(s, ids[0], r, ids[1], rivals[0], now);
    if a.1.Some? then (a.0, a.1.value)
    else
      var b := CreateAttempt(a.0, ids[2], r, ids[3], rivals[1], now);
      (b.0, if b.1.Some? then b.1.value else Err(ConcurrencyConflict))
  }

  /** What the index answers once another create has landed in a gap. */
  lemma RivalAnswers(index: seq<Summary>, index': seq<Summary>, r: Request, rivalId: JobId, rival: Request, now: int)
    requires CreateAnswer(index, r).None?
    requires forall x :: x in index' <==> x == SummaryOf(NewManifest(rivalId, rival, now)) || (x in index && x.id != rivalId)
    ensures match CreateAnswer(index', r)
      case None => rival.idem != r.idem && rival.scope != r.scope
      case Some(answer) =>
        if rival.idem == r.idem then answer == if rival.hash == r.hash then Ok(rivalId) else Err(IdempotencyConflict)
        else rival.scope == r.scope && answer == Err(ScopeConflict(rivalId))
  {
    var e := SummaryOf(NewManifest(rivalId, rival, now));
    assert e in index' && !Terminal(e.status);
  }

  /**
   An attempt fails exactly when another create lands before its index write. The next attempt
   then finds the rival's job if that has the same idempotency key or the same scope.
   */
  lemma LostAttemptFindsRival(s: Store, id: JobId, r: Request, rivalId: JobId, rival: Option<Request>, now: int)
    requires DistinctIds(s.index)
    ensures var a := CreateAttempt(s, id, r, rivalId, rival, now);
      && (a.1.None? <==> CreateAnswer(s.index, r).None? && rival.Some? && CreateAnswer(s.index, rival.value).None?)
      && (a.1.None? ==> match CreateAnswer(a.0.index, r)
            case None => rival.value.idem != r.idem && rival.value.scope != r.scope
            case Some(answer) =>
              if rival.value.idem == r.idem then answer == if rival.value.hash == r.hash then Ok(rivalId) else Err(IdempotencyConflict)
              else rival.value.scope == r.scope && answer == Err(ScopeConflict(rivalId)))
  {
    hide CreateAnswer, Upsert, DistinctIds, NewestFirst;
    if rival.Some? && CreateAnswer(s.index, r).None? && CreateAnswer(s.index, rival.value).None? {
      var m := NewManifest(rivalId, rival.value, now);
      UpsertEffect(s.index, SummaryOf(m));
      RivalAnswers(s.index, Upsert(s.index, SummaryOf(m)), r, rivalId, rival.value, now);
    }
  }

  /** A queued manifest of the request's own type, priority, scope, key and hash, new at `now`. */
  predicate QueuedFor(m: Manifest, id: JobId, r: Request, now: int, retryOf: Option<JobId>) {
    && m.id == id && m.jobType == r.jobType && m.priority == r.priority && m.scope == r.scope
    && m.idem == r.idem && m.hash == r.hash
    && m.status == Queued && m.owner == None && m.lastSeq == 2 && m.createdAt == now && m.updatedAt == now
    && m.startedAt == None && m.finishedAt == None && m.retryOf == retryOf
  }

  /** Job `id` is stored as the request asks, in manifest, log and leaf, and published by one index entry. */
  ghost predicate QueuedAsAsked(s: Store, id: JobId, r: Request, now: int, retryOf: Option<JobId>) {
    && id in s.manifests && QueuedFor(s.manifests[id], id, r, now, retryOf)
    && LogOf(s, id) == [Event(1, JobCreated, now), Event(2, JobQueued, now)]
    && id in s.leaves && s.leaves[id].status == Queued && s.leaves[id].lastSeq == 2
    && forall x :: x in s.index && x.id == id
         <==> x == Summary(id, r.jobType, r.priority, r.scope, r.idem, r.hash, Queued, 2, now, now)
  }

  /** The index answers a create neither by its key nor by its scope. */
  ghost predicate RoomFor(index: seq<Summary>, r: Request) {
    forall x :: x in index ==> x.idem != r.idem && (x.scope == r.scope ==> Terminal(x.status))
  }

  /** Apart from the jobs `added`, which are new, everything stays as it was. */
  ghost predicate OnlyAdds(s: Store, s': Store, added: set<JobId>) {
    && (forall id :: id !in added ==> (id in s'.manifests <==> id in s.manifests))
    && (forall id :: id in s.manifests ==>
          id !in added && s'.manifests[id] == s.manifests[id] && LogOf(s', id) == LogOf(s, id))
    && (forall id :: id in s.manifests && id in s.leaves ==> id in s'.leaves && s'.leaves[id] == s.leaves[id])
    && (forall x: Summary :: x.id !in added ==> (x in s'.index <==> x in s.index))
  }

  ghost predicate Unused(s: Store, id: JobId) {
    id !in s.manifests && forall x :: x in s.index ==> x.id != id
  }

  lemma AnswerIfNoRoom(index: seq<Summary>, r: Request)
    ensures CreateAnswer(index, r).None? <==> RoomFor(index, r)
  {
  }

  lemma CreateQueues(s: Store, id: JobId, r: Request, now: int)
    requires Unused(s, id)
    ensures QueuedAsAsked(AfterCreate(s, id, r, now), id, r, now, None) && OnlyAdds(s, AfterCreate(s, id, r, now), {id})
  {
    hide LeafRevision, SortNewestFirst, Without;
  }

  /** The create's first half alone: everything is as asked but the index, which is as it was. */
  lemma BeginQueues(s: Store, id: JobId, r: Request, now: int)
    requires Unused(s, id)
    ensures var s' := AfterCreateBegin(s, id, r, now);
      && id in s'.manifests && QueuedFor(s'.manifests[id], id, r, now, None) && s'.index == s.index && OnlyAdds(s, s', {id})
  {
    hide LeafRevision;
  }

  lemma OnlyAddsTwice(s: Store, s1: Store, s2: Store, id: JobId, other: JobId)
    requires OnlyAdds(s, s1, {id}) && OnlyAdds(s1, s2, {other}) && other !in s.manifests
    ensures OnlyAdds(s, s2, {id, other})
  {
  }

  /** How an attempt ends: it is lost exactly if the rival's create lands. */
  lemma AttemptEnds(s: Store, id: JobId, r: Request, rivalId: JobId, rival: Option<Request>, now: int)
    requires CreateAnswer(s.index, r).None?
    ensures CreateAttempt(s, id, r, rivalId, rival, now) ==
      if rival.None? || CreateAnswer(s.index, rival.value).Some? then (AfterCreate(s, id, r, now), Some(Ok(id)))
      else (AfterCreate(AfterCreateBegin(s, id, r, now), rivalId, rival.value, now), None)
  {
    hide CreateAnswer, Upsert, NewManifest, LeafRevision;
  }

  /** One attempt of a create that the index does not answer, whatever comes in its gap. */
  lemma AttemptQueues(s: Store, id: JobId, r: Request, rivalId: JobId, rival: Option<Request>, now: int)
    requires Unused(s, id) && Unused(s, rivalId) && id != rivalId && RoomFor(s.index, r)
    ensures var a := CreateAttempt(s, id, r, rivalId, rival, now);
      && OnlyAdds(s, a.0, {id, rivalId})
      && (match a.1
          case Some(result) => result == Ok(id) && QueuedAsAsked(a.0, id, r, now, None)
          case None =>
            (&& rival.Some? && QueuedAsAsked(a.0, rivalId, rival.value, now, None)
             && id in a.0.manifests && QueuedFor(a.0.manifests[id], id, r, now, None)
             && forall x :: x in a.0.index ==> x.id != id))
  {
    AnswerIfNoRoom(s.index, r);
    AttemptEnds(s, id, r, rivalId, rival, now);
    BeginQueues(s, id, r, now);
    var s1 := AfterCreateBegin(s, id, r, now);
    CreateQueues(s, id, r, now);
    if rival.Some? {
      CreateQueues(s1, rivalId, rival.value, now);
      OnlyAddsTwice(s, s1, AfterCreate(s1, rivalId, rival.value, now), id, rivalId);
    }
    hide QueuedFor, CreateAnswer, Upsert, AfterCreate, AfterCreateBegin, NewManifest, CreateAttempt, QueuedAsAsked;
    if rival.Some? && CreateAnswer(s.index, rival.value).None? {
      assert id in s1.manifests && OnlyAdds(s1, AfterCreate(s1, rivalId, rival.value, now), {rivalId});
    }
  }

  /**
   A create that the index does not answer and that succeeds leaves its job queued as its own
   request asks, or, after losing its first attempt, takes a rival's job of the same key and
   hash, queued as the rival's request asks. No other job changes.
   */
  lemma CreatedJobIsAsked(s: Store, r: Request, ids: seq<JobId>, rivals: seq<Option<Request>>, now: int)
    requires |ids| == 4 && |rivals| == 2 && RoomFor(s.index, r)
    requires (forall i, j :: 0 <= i < j < 4 ==> ids[i] != ids[j]) && forall k :: 0 <= k < 4 ==> Unused(s, ids[k])
    ensures var o := CreateOutcome(s, r, ids, rivals, now);
      && OnlyAdds(s, o.0, {ids[0], ids[1], ids[2], ids[3]})
      && (o.1.Ok? ==>
            || ((o.1.value == ids[0] || o.1.value == ids[2]) && QueuedAsAsked(o.0, o.1.value, r, now, None))
            || (o.1.value == ids[1] && rivals[0].Some? && rivals[0].value.idem == r.idem && rivals[0].value.hash == r.hash
                && QueuedAsAsked(o.0, ids[1], rivals[0].value, now, None)))
      && (rivals[0].None? ==> o.1 == Ok(ids[0]))
  {
    hide CreateAttempt, QueuedFor, QueuedAsAsked;
    AttemptQueues(s, ids[0], r, ids[1], rivals[0], now);
    var a := CreateAttempt(s, ids[0], r, ids[1], rivals[0], now);
    if a.1.None? {
      SecondAttempt(s, a.0, r, ids, rivals, now);
    }
  }

  lemma SecondAttempt(s: Store, s1: Store, r: Request, ids: seq<JobId>, rivals: seq<Option<Request>>, now: int)
    requires |ids| == 4 && |rivals| == 2 && RoomFor(s.index, r)
    requires (forall i, j :: 0 <= i < j < 4 ==> ids[i] != ids[j]) && forall k :: 0 <= k < 4 ==> Unused(s, ids[k])
    requires OnlyAdds(s, s1, {ids[0], ids[1]}) && rivals[0].Some? && QueuedAsAsked(s1, ids[1], rivals[0].value, now, None)
    requires forall x :: x in s1.index ==> x.id != ids[0]
    ensures var b := CreateAttempt(s1, ids[2], r, ids[3], rivals[1], now);
      && OnlyAdds(s, b.0, {ids[0], ids[1], ids[2], ids[3]})
      && (b.1.Some? && b.1.value.Ok? ==>
            || (b.1.value.value == ids[2] && QueuedAsAsked(b.0, ids[2], r, now, None))
            || (b.1.value.value == ids[1] && rivals[0].value.idem == r.idem && rivals[0].value.hash == r.hash
                && QueuedAsAsked(b.0, ids[1], rivals[0].value, now, None)))
  {
    AnswerIfNoRoom(s1.index, r);
    if RoomFor(s1.index, r) {
      AttemptQueues(s1, ids[2], r, ids[3], rivals[1], now);
      hide CreateAttempt, QueuedFor, QueuedAsAsked;
    } else {
      assert CreateAttempt(s1, ids[2], r, ids[3], rivals[1], now) == (s1, CreateAnswer(s1.index, r));
      hide CreateAttempt, QueuedFor;
      var same := FindByIdem(s1.index, r.idem);
      if same.Some? {
        assert same.value.id == ids[1];
      }
    }
  }

  /** A link marks the job as a retry of the other and changes nothing else but revisions. */
  lemma RetryLinkMarks(s: Store, id: JobId, of_: JobId)
    requires id in s.manifests && s.manifests[id].id == id
    ensures var s', m := AfterRetryLink(s, id, of_), s.manifests[id];
      && s'.manifests == s.manifests[id := m.(retryOf := Some(of_), revision := m.revision + 1)]
      && s'.logs == s.logs && s'.leaves == s.leaves
      && (forall x :: x in s'.index <==>
            (x.id != id && x in s.index)
            || x == Summary(id, m.jobType, m.priority, m.scope, m.idem, m.hash, m.status, m.lastSeq, m.createdAt, m.updatedAt))
  {
  }

  /** A retry's job is queued for the retried job's type and priority, as a retry of it. */
  lemma RetryQueues(s: Store, id: JobId, r: Request, now: int, of_: JobId)
    requires Unused(s, id)
    ensures QueuedAsAsked(AfterRetryLink(AfterCreate(s, id, r, now), id, of_), id, r, now, Some(of_))
  {
    hide AfterCreate, AfterRetryLink;
    CreateQueues(s, id, r, now);
    RetryLinkMarks(AfterCreate(s, id, r, now), id, of_);
  }

  // ----- claim candidates -----

  predicate TypeAllowed(types: set<nat>, t: nat) {
    types == {} || t in types
  }

  predicate IsCandidate(e: Summary, types: set<nat>) {
    Claimable(e.status) && TypeAllowed(types, e.jobType)
  }

  /** `a` may be claimed no later than `b`: smaller priority rank, then earlier creation. */
  predicate ClaimsBefore(a: Summary, b: Summary) {
    Rank(a.priority) < Rank(b.priority) || (Rank(a.priority) == Rank(b.priority) && a.createdAt <= b.createdAt)
  }

  function FilterCandidates(index: seq<Summary>, types: set<nat>): (r: seq<Summary>)
    ensures forall e :: e in r <==> e in index && IsCandidate(e, types)
  {
    if index == [] then []
    else if IsCandidate(index[|index| - 1], types) then FilterCandidates(index[..|index| - 1], types) + [index[|index| - 1]]
    else FilterCandidates(index[..|index| - 1], types)
  }

  function InsertByClaimOrder(xs: seq<Summary>, e: Summary): (r: seq<Summary>)
    ensures forall x :: x in r <==> x in xs || x == e
  {
    if xs == [] then [e]
    else
      var n := |xs| - 1;
      if ClaimsBefore(xs[n], e) then xs + [e]
      else
        assert xs == xs[..n] + [xs[n]];
        InsertByClaimOrder(xs[..n], e) + [xs[n]]
  }

  /** A stable sort by claim order. */
  function SortByClaimOrder(xs: seq<Summary>): (r: seq<Summary>)
    ensures forall x :: x in r <==> x in xs
  {
    if xs == [] then []
    else
      var n := |xs| - 1;
      assert xs == xs[..n] + [xs[n]];
      InsertByClaimOrder(SortByClaimOrder(xs[..n]), xs[n])
  }

  ghost predicate InClaimOrder(xs: seq<Summary>) {
    forall i, j :: 0 <= i <= j < |xs| ==> ClaimsBefore(xs[i], xs[j])
  }

  lemma InsertInClaimOrder(xs: seq<Summary>, e: Summary)
    requires InClaimOrder(xs)
    ensures InClaimOrder(InsertByClaimOrder(xs, e))
  {
    if xs != [] {
      var n := |xs| - 1;
      InsertInClaimOrder(xs[..n], e);
      assert forall x :: x in xs[..n] ==> ClaimsBefore(x, xs[n]);
    }
  }

  lemma SortIsInClaimOrder(xs: seq<Summary>)
    ensures InClaimOrder(SortByClaimOrder(xs))
  {
    if xs != [] {
      SortIsInClaimOrder(xs[..|xs| - 1]);
      InsertInClaimOrder(SortByClaimOrder(xs[..|xs| - 1]), xs[|xs| - 1]);
    }
  }

  /** Whether a claim at `now` may take the job of index entry `e`. */
  predicate Eligible(s: Store, e: Summary, types: set<nat>, now: int)
    ensures Eligible(s, e, types, now) ==> e.id in s.manifests
  {
    && e in s.index && IsCandidate(e, types)
    && e.id in s.manifests
    && Claimable(s.manifests[e.id].status)
    && !OwnerLive(s.manifests[e.id], now)
    && FindActive(s.index, s.manifests[e.id].scope, Some(e.id)).None?
  }

  /** `e` is eligible and no eligible entry comes before it in claim order. */
  ghost predicate BestClaim(s: Store, e: Summary, types: set<nat>, now: int) {
    Eligible(s, e, types, now) && forall x :: Eligible(s, x, types, now) ==> ClaimsBefore(e, x)
  }

  ghost predicate NoneEligible(s: Store, types: set<nat>, now: int) {
    forall e :: !Eligible(s, e, types, now)
  }

  /** The first of `candidates[k..]` that may be claimed. */
  function FirstEligible(s: Store, candidates: seq<Summary>, k: nat, types: set<nat>, now: int): Option<Summary>
    requires k <= |candidates|
    ensures FirstEligible(s, candidates, k, types, now).Some? ==>
              FirstEligible(s, candidates, k, types, now).value.id in s.manifests
    decreases |candidates| - k
  {
    if k == |candidates| then None
    else if Eligible(s, candidates[k], types, now) then Some(candidates[k])
    else FirstEligible(s, candidates, k + 1, types, now)
  }

  /** The entry a claim takes. */
  function NextClaim(s: Store, types: set<nat>, now: int): Option<Summary> {
    FirstEligible(s, SortByClaimOrder(FilterCandidates(s.index, types)), 0, types, now)
  }

  lemma {:induction false} FirstEligibleIsLeast(s: Store, candidates: seq<Summary>, k: nat, types: set<nat>, now: int)
    requires k <= |candidates| && InClaimOrder(candidates)
    ensures match FirstEligible(s, candidates, k, types, now)
      case None => forall i :: k <= i < |candidates| ==> !Eligible(s, candidates[i], types, now)
      case Some(e) =>
        (&& Eligible(s, e, types, now)
         && forall i :: k <= i < |candidates| && Eligible(s, candidates[i], types, now) ==> ClaimsBefore(e, candidates[i]))
    decreases |candidates| - k
  {
    if k < |candidates| && !Eligible(s, candidates[k], types, now) {
      FirstEligibleIsLeast(s, candidates, k + 1, types, now);
    }
  }

  /** A claim takes the eligible job least in (priority rank, creation time), or none exactly when none is eligible. */
  lemma NextClaimIsBest(s: Store, types: set<nat>, now: int)
    ensures NextClaim(s, types, now).None? <==> NoneEligible(s, types, now)
    ensures NextClaim(s, types, now).Some? ==> BestClaim(s, NextClaim(s, types, now).value, types, now)
  {
    var candidates := SortByClaimOrder(FilterCandidates(s.index, types));
    SortIsInClaimOrder(FilterCandidates(s.index, types));
    FirstEligibleIsLeast(s, candidates, 0, types, now);
    assert forall x :: Eligible(s, x, types, now) ==> x in candidates;
  }

  function AfterTaking(s: Store, e: Option<Summary>, lease: Lease, now: int): Store
    requires e.Some? ==> e.value.id in s.manifests
  {
    if e.None? then s else AfterClaim(s, s.manifests[e.value.id], lease, now, now)
  }

  function AfterClaimNext(s: Store, types: set<nat>, lease: Lease, now: int): Store {
    AfterTaking(s, NextClaim(s, types, now), lease, now)
  }

  // ----- the stale sweep -----

  function SweepStale(s: Store, keys: seq<JobId>, staleAfter: nat, now: int): Store {
    if keys == [] then s
    else
      var n := |keys| - 1;
      var s1 := SweepStale(s, keys[..n], staleAfter, now);
      if keys[n] in s1.manifests && Stale(s1.manifests[keys[n]], staleAfter, now) then AfterStale(s1, keys[n], now) else s1
  }

  function LogRecords(log: seq<Event>): seq<Record> {
    seq(|log|, i requires 0 <= i < |log| => Record(log[i].seq_, log[i].seq_))
  }

  lemma NumberedLogRebuilds(log: seq<Event>)
    requires Numbered(log)
    ensures FirstOccurrences(Flatten([LogRecords(log)])) == LogRecords(log) && Contiguous(LogRecords(log))
  {
    var records := LogRecords(log);
    assert [records][..0] == [];
    assert Flatten([records]) == records;
    NumberedLogKeepsAll(records, |records|);
  }

  lemma LastTerminalOfPrefix(log: seq<Event>, k: nat)
    requires k < |log|
    ensures LastTerminal(log[..k + 1]) ==
            if TerminalStatus(log[k].kind).Some? then Some(log[k]) else LastTerminal(log[..k])
  {
    assert log[..k + 1][..k] == log[..k];
  }

  // ----- the writes the operations are made of -----

  /** Every log is numbered and its event index up to date; every index entry has a manifest. */
  ghost predicate StoreValid(s: Store, eventSeqs: map<JobId, nat>) {
    && s.logs.Keys == eventSeqs.Keys
    && s.logs.Keys <= s.manifests.Keys
    && (forall id :: id in s.logs ==> eventSeqs[id] == |s.logs[id]| && Numbered(s.logs[id]))
    && (forall id :: id in s.manifests ==> s.manifests[id].id == id)
    && (forall e :: e in s.index ==> e.id in s.manifests)
  }

  function ManifestWritten(s: Store, m: Manifest): Store {
    s.(manifests := s.manifests[m.id := m])
  }

  function EventAppended(s: Store, id: JobId, kind: EventKind, now: int): Store
    requires id in s.manifests
  {
    var m, log := s.manifests[id], LogOf(s, id);
    s.(manifests := s.manifests[id := m.(lastSeq := |log| + 1, updatedAt := now, revision := m.revision + 1)],
       logs := s.logs[id := Logged(log, kind, now)])
  }

  function LeafWritten(s: Store, m: Manifest, status: Status): Store {
    s.(leaves := s.leaves[m.id := Leaf(status, m.lastSeq, LeafRevision(s, m.id) + 1)])
  }

  lemma WriteTwice<K, V>(m: map<K, V>, k: K, a: V, b: V)
    ensures m[k := a][k := b] == m[k := b]
  {
  }

  /** An event append followed by manifest, leaf and index writes rewrites the job as a whole. */
  lemma AppendThenWrites(s: Store, id: JobId, kind: EventKind, now: int, m: Manifest)
    requires id in s.manifests && m.id == id
    ensures AfterIndexWrite(LeafWritten(ManifestWritten(EventAppended(s, id, kind, now), m), m, m.status), m)
            == Commit(s, m, Logged(LogOf(s, id), kind, now))
  {
    hide Upsert, Logged;
    WriteTwice(s.manifests, id, EventAppended(s, id, kind, now).manifests[id], m);
  }

  /** A rewrite of a job depends on no record of the job it replaces but the leaf's revision. */
  lemma CommitForgets(s: Store, s1: Store, m: Manifest, log: seq<Event>)
    requires s1.leaves == s.leaves && s1.index == s.index && s1.indexRevision == s.indexRevision
    requires s1.manifests[m.id := m] == s.manifests[m.id := m] && s1.logs[m.id := log] == s.logs[m.id := log]
    ensures Commit(s1, m, log) == Commit(s, m, log)
  {
  }

  lemma TwoAppendsThenWrites(s: Store, id: JobId, k1: EventKind, k2: EventKind, now: int, m: Manifest)
    requires id in s.manifests && m.id == id
    ensures AfterIndexWrite(LeafWritten(ManifestWritten(EventAppended(EventAppended(s, id, k1, now), id, k2, now), m), m, m.status), m)
            == Commit(s, m, Logged(Logged(LogOf(s, id), k1, now), k2, now))
  {
    var s1 := EventAppended(s, id, k1, now);
    AppendThenWrites(s1, id, k2, now, m);
    WriteTwice(s.manifests, id, s1.manifests[id], m);
    var log := Logged(Logged(LogOf(s, id), k1, now), k2, now);
    WriteTwice(s.logs, id, s1.logs[id], log);
    assert LogOf(s1, id) == Logged(LogOf(s, id), k1, now);
    CommitForgets(s, s1, m, log);
  }

  /** So does a manifest write followed by an event append, leaf and index writes. */
  lemma WriteThenAppend(s: Store, next: Manifest, kind: EventKind, now: int)
    ensures var s1 := EventAppended(ManifestWritten(s, next), next.id, kind, now);
      var m := s1.manifests[next.id];
      && m == next.(lastSeq := |LogOf(s, next.id)| + 1, updatedAt := now, revision := next.revision + 1)
      && (m.id == next.id ==> AfterIndexWrite(LeafWritten(s1, m, m.status), m)
                              == Commit(s, m, Logged(LogOf(s, next.id), kind, now)))
  {
    hide Upsert;
  }

  lemma CreateWrites(s: Store, first: Manifest, now: int)
    requires first.id !in s.manifests && first.id !in s.logs && first.id !in s.leaves
    requires first.lastSeq == 0 && first.revision == 1
    ensures var id := first.id;
      var s1 := LeafWritten(ManifestWritten(s, first), first, Created);
      var s2 := EventAppended(EventAppended(s1, id, JobCreated, now), id, JobQueued, now);
      var m := first.(status := Queued, lastSeq := 2, updatedAt := now, revision := 4);
      && s2.manifests[id] == first.(lastSeq := 2, updatedAt := now, revision := 3)
      && LeafWritten(ManifestWritten(s2, m), m, Queued)
         == s.(manifests := s.manifests[id := m],
               logs := s.logs[id := [Event(1, JobCreated, now), Event(2, JobQueued, now)]],
               leaves := s.leaves[id := Leaf(Queued, 2, 2)])
  {
    var id := first.id;
    assert LogOf(s, id) == [];
    var log1 := Logged([], JobCreated, now);
    assert log1 == [Event(1, JobCreated, now)];
    assert Logged(log1, JobQueued, now) == [Event(1, JobCreated, now), Event(2, JobQueued, now)];
  }

  /** The four ids a create and its rivals may draw. */
  ghost predicate FreshIds(ids: seq<JobId>, manifests: map<JobId, Manifest>, leaves: map<JobId, Leaf>) {
    && |ids| == 4 && (forall i, j :: 0 <= i < j < 4 ==> ids[i] != ids[j])
    && forall k :: 0 <= k < 4 ==> ids[k] !in manifests && ids[k] !in leaves
  }

  /** A create alone answers from the index or leaves the new job queued and indexed. */
  lemma CreateUnrivalled(s: Store, r: Request, ids: seq<JobId>, now: int)
    requires |ids| == 4
    ensures CreateOutcome(s, r, ids, [None, None], now) ==
            var answer := CreateAnswer(s.index, r);
            if answer.Some? then (s, answer.value) else (AfterCreate(s, ids[0], r, now), Ok(ids[0]))
    ensures CreateAnswer(s.index, r).None? && Unused(s, ids[0]) ==>
      QueuedAsAsked(CreateOutcome(s, r, ids, [None, None], now).0, ids[0], r, now, None)
  {
    if Unused(s, ids[0]) {
      CreateQueues(s, ids[0], r, now);
    }
    hide QueuedAsAsked;
  }

  lemma FreshIsUnused(s: Store, ids: seq<JobId>)
    requires FreshIds(ids, s.manifests, s.leaves) && forall e :: e in s.index ==> e.id in s.manifests
    ensures forall k :: 0 <= k < 4 ==> Unused(s, ids[k])
  {
  }

  lemma AnswerIsIndexed(s: Store, r: Request)
    requires forall e :: e in s.index ==> e.id in s.manifests
    ensures CreateAnswer(s.index, r).Some? && CreateAnswer(s.index, r).value.Ok? ==> CreateAnswer(s.index, r).value.value in s.manifests
  {
  }

  class JobService {
    const instance: nat
    const ttl: nat
    var clock: int
    var manifests: map<JobId, Manifest>
    var logs: map<JobId, seq<Event>>
    var eventSeqs: map<JobId, nat>  // last_event_seq of each job's event index
    var leaves: map<JobId, Leaf>
    var index: seq<Summary>
    var indexExists: bool
    var indexRevision: nat

    ghost function Snapshot(): Store
      reads this
    {
      Store(manifests, logs, leaves, index, indexExists, indexRevision)
    }

    ghost predicate Valid()
      reads this
    {
      ttl >= 1 && StoreValid(Snapshot(), eventSeqs)
    }

    constructor (instance: nat, ttlSeconds: int, now: int)
      ensures Valid() && Snapshot() == EMPTY_STORE && clock == now
      ensures this.instance == instance && ttl == (if ttlSeconds < 1 then 1 else ttlSeconds)
    {
      this.instance := instance;
      ttl := if ttlSeconds < 1 then 1 else ttlSeconds;
      clock := now;
      manifests, logs, eventSeqs, leaves := map[], map[], map[], map[];
      index, indexExists, indexRevision := [], false, 0;
    }

    method AdvanceClock(d: nat)
      modifies `clock
      ensures clock == old(clock) + d
    {
      clock := clock + d;
    }

    // ----- reads and writes of the store -----

    method RebuildEventIndex(id: JobId) returns (lastSeq: nat)
      requires id in logs && Numbered(logs[id])
      modifies `eventSeqs
      ensures lastSeq == |logs[id]| && eventSeqs == old(eventSeqs)[id := lastSeq]
    {
      NumberedLogRebuilds(logs[id]);
      var r := Rebuild([LogRecords(logs[id])]);
      lastSeq := r.value.lastSeq;
      eventSeqs := eventSeqs[id := lastSeq];
    }

    method AppendEvent(id: JobId, kind: EventKind)
      requires Valid() && id in manifests
      modifies `manifests, `logs, `eventSeqs
      ensures Valid() && Snapshot() == EventAppended(old(Snapshot()), id, kind, clock)
    {
      var last := if id in eventSeqs then eventSeqs[id] else 0;
      var log := if id in logs then logs[id] else [];
      logs := logs[id := log + [Event(last + 1, kind, clock)]];
      assert logs[id] == Logged(log, kind, clock);
      var lastSeq := RebuildEventIndex(id);
      var m := manifests[id];
      manifests := manifests[id := m.(lastSeq := lastSeq, updatedAt := clock, revision := m.revision + 1)];
    }

    method WriteManifest(m: Manifest, expectedRevision: Option<nat>) returns (ok: bool)
      requires Valid() && (expectedRevision.Some? ==> m.id in manifests)
      modifies `manifests
      ensures Valid()
      ensures ok <==> expectedRevision.None? || old(manifests)[m.id].revision == expectedRevision.value
      ensures Snapshot() == if ok then ManifestWritten(old(Snapshot()), m) else old(Snapshot())
    {
      if expectedRevision.Some? && manifests[m.id].revision != expectedRevision.value {
        return false;
      }
      manifests := manifests[m.id := m];
      return true;
    }

    method WriteLeafState(m: Manifest, status: Status)
      requires Valid()
      modifies `leaves
      ensures Valid() && Snapshot() == LeafWritten(old(Snapshot()), m, status)
    {
      var previous := if m.id in leaves then leaves[m.id].revision else 0;
      leaves := leaves[m.id := Leaf(status, m.lastSeq, previous + 1)];
    }

    method UpsertJobIndex(m: Manifest, expectedRevision: Option<nat>) returns (ok: bool)
      requires Valid() && m.id in manifests
      modifies `index, `indexExists, `indexRevision
      ensures Valid()
      ensures ok <==> expectedRevision.None? || IndexWriteAccepted(old(Snapshot()), expectedRevision.value)
      ensures Snapshot() == if ok then AfterIndexWrite(old(Snapshot()), m) else old(Snapshot())
    {
      var jobs := Without(index, m.id);
      jobs := jobs + [SummaryOf(m)];
      jobs := SortNewestFirst(jobs);
      if expectedRevision.Some? && indexExists && indexRevision != expectedRevision.value {
        return false;
      }
      index, indexExists, indexRevision := jobs, true, indexRevision + 1;
      return true;
    }

    /** The three writes most operations end with. */
    method WriteAll(m: Manifest)
      requires Valid()
      modifies `manifests, `leaves, `index, `indexExists, `indexRevision
      ensures Valid()
      ensures Snapshot() == AfterIndexWrite(LeafWritten(ManifestWritten(old(Snapshot()), m), m, m.status), m)
    {
      var _ := WriteManifest(m, None);
      WriteLeafState(m, m.status);
      var _ := UpsertJobIndex(m, None);
    }

    /** What a claim, a finish and a recovery do after their manifest write. */
    method AppendAndPublish(id: JobId, kind: EventKind)
      requires Valid() && id in manifests
      modifies `manifests, `logs, `eventSeqs, `leaves, `index, `indexExists, `indexRevision
      ensures Valid() && id in manifests
      ensures var s1 := EventAppended(old(Snapshot()), id, kind, clock);
        Snapshot() == AfterIndexWrite(LeafWritten(s1, s1.manifests[id], s1.manifests[id].status), s1.manifests[id])
    {
      hide AfterIndexWrite, LeafWritten;
      AppendEvent(id, kind);
      var latest := manifests[id];
      WriteLeafState(latest, latest.status);
      var _ := UpsertJobIndex(latest, None);
    }

    // ----- create -----

    /** The first half of a create: the index checks, and everything written before the index. */
    method PrepareCreate(r: Request, newId: JobId) returns (p: Prepared)
      requires Valid() && newId !in manifests && newId !in leaves
      modifies `manifests, `logs, `eventSeqs, `leaves
      ensures Valid()
      ensures CreateAnswer(old(index), r) ==
              match p
              case Existing(id) => Some(Ok(id))
              case Refused(e) => Some(Err(e))
              case Ready(_) => None
      ensures p.Ready? ==> p.pending == PendingCreate(NewManifest(newId, r, clock), indexRevision)
      ensures p.Ready? ==> QueuedFor(p.pending.manifest, newId, r, clock, None) && newId in manifests
      ensures old(manifests).Keys <= manifests.Keys <= old(manifests).Keys + {newId} && leaves.Keys <= old(leaves).Keys + {newId}
      ensures Snapshot() == if p.Ready? then AfterCreateBegin(old(Snapshot()), newId, r, clock) else old(Snapshot())
    {
      var same := FindByIdem(index, r.idem);
      if same.Some? {
        if same.value.hash != r.hash {
          return Refused(IdempotencyConflict);
        }
        return Existing(same.value.id);
      }
      var conflicting := FindActive(index, r.scope, None);
      if conflicting.Some? {
        return Refused(ScopeConflict(conflicting.value.id));
      }
      var m := Manifest(newId, r.jobType, r.priority, r.scope, r.idem, r.hash,
                        Created, None, 0, clock, clock, None, None, None, 1);
      var _ := WriteManifest(m, None);
      WriteLeafState(m, Created);
      AppendEvent(newId, JobCreated);
      AppendEvent(newId, JobQueued);
      CreateWrites(old(Snapshot()), m, clock);
      m := manifests[newId];
      m := m.(status := Queued, updatedAt := clock, revision := m.revision + 1);
      var _ := WriteManifest(m, None);
      WriteLeafState(m, Queued);
      return Ready(PendingCreate(m, indexRevision));
    }

    /** The second half: the revision-checked index write. */
    method CommitCreate(p: PendingCreate) returns (ok: bool)
      requires Valid() && p.manifest.id in manifests
      modifies `index, `indexExists, `indexRevision
      ensures Valid()
      ensures ok <==> IndexWriteAccepted(old(Snapshot()), p.expected)
      ensures Snapshot() == if ok then AfterIndexWrite(old(Snapshot()), p.manifest) else old(Snapshot())
    {
      ok := UpsertJobIndex(p.manifest, Some(p.expected));
    }

    /** Another create, alone, or none. */
    method Rival(rival: Option<Request>, newId: JobId)
      requires Valid() && newId !in manifests && newId !in leaves
      modifies `manifests, `logs, `eventSeqs, `leaves, `index, `indexExists, `indexRevision
      ensures Valid() && Snapshot() == Rivalled(old(Snapshot()), newId, rival, clock)
      ensures manifests.Keys <= old(manifests).Keys + {newId} && leaves.Keys <= old(leaves).Keys + {newId}
      ensures old(manifests).Keys <= manifests.Keys
    {
      if rival.None? {
        return;
      }
      var p := PrepareCreate(rival.value, newId);
      if p.Ready? {
        var _ := CommitCreate(p.pending);
      }
    }

    /** One attempt: the first half, whatever another create does, and the second half. */
    method TryCreate(r: Request, newId: JobId, rival: Option<Request>, rivalId: JobId) returns (result: Option<Result<JobId, JobError>>)
      requires Valid() && newId !in manifests && newId !in leaves && rivalId !in manifests && rivalId !in leaves && newId != rivalId
      modifies `manifests, `logs, `eventSeqs, `leaves, `index, `indexExists, `indexRevision
      ensures Valid()
      ensures (Snapshot(), result) == CreateAttempt(old(Snapshot()), newId, r, rivalId, rival, clock)
      ensures manifests.Keys <= old(manifests).Keys + {newId, rivalId} && leaves.Keys <= old(leaves).Keys + {newId, rivalId}
      ensures result.Some? && result.value.Ok? ==> result.value.value in manifests
    {
      hide Rivalled, AfterCreateBegin, AfterIndexWrite, NewManifest, CreateAnswer;
      AnswerIsIndexed(Snapshot(), r);
      var p := PrepareCreate(r, newId);
      match p
      case Existing(id) => return Some(Ok(id));
      case Refused(e) => return Some(Err(e));
      case Ready(pending) =>
        Rival(rival, rivalId);
        var ok := CommitCreate(pending);
        if ok {
          return Some(Ok(pending.manifest.id));
        }
        return None;
    }

    /** `rivals` are the other creates that come between the halves of each attempt, if any. */
    method CreateJob(r: Request, ids: seq<JobId>, rivals: seq<Option<Request>>) returns (result: Result<JobId, JobError>)
      requires Valid() && FreshIds(ids, manifests, leaves) && |rivals| == 2
      modifies `manifests, `logs, `eventSeqs, `leaves, `index, `indexExists, `indexRevision
      ensures Valid()
      ensures (Snapshot(), result) == CreateOutcome(old(Snapshot()), r, ids, rivals, clock)
      ensures result.Ok? ==> result.value in manifests
      ensures RoomFor(old(index), r) && result.Ok? ==>
        || ((result.value == ids[0] || result.value == ids[2]) && QueuedAsAsked(Snapshot(), result.value, r, clock, None))
        || (result.value == ids[1] && rivals[0].Some? && rivals[0].value.idem == r.idem && rivals[0].value.hash == r.hash
            && QueuedAsAsked(Snapshot(), ids[1], rivals[0].value, clock, None))
    {
      hide CreateAttempt, QueuedAsAsked;
      if RoomFor(index, r) {
        FreshIsUnused(Snapshot(), ids);
        CreatedJobIsAsked(Snapshot(), r, ids, rivals, clock);
      }
      for attempt := 0 to 2
        invariant Valid() && FreshIds(ids, old(manifests), old(leaves))
        invariant attempt == 0 ==> Snapshot() == old(Snapshot())
        invariant attempt > 0 ==>
          (Snapshot(), None) == CreateAttempt(if attempt == 1 then old(Snapshot())
                                              else CreateAttempt(old(Snapshot()), ids[0], r, ids[1], rivals[0], clock).0,
                                              ids[2 * attempt - 2], r, ids[2 * attempt - 1], rivals[attempt - 1], clock)
        invariant attempt == 2 ==> CreateAttempt(old(Snapshot()), ids[0], r, ids[1], rivals[0], clock).1.None?
        invariant attempt <= 1 ==> ids[2 * attempt] !in manifests && ids[2 * attempt] !in leaves
                                   && ids[2 * attempt + 1] !in manifests && ids[2 * attempt + 1] !in leaves
      {
        var answer := TryCreate(r, ids[2 * attempt], rivals[attempt], ids[2 * attempt + 1]);
        if answer.Some? {
          return answer.value;
        }
      }
      return Err(ConcurrencyConflict);
    }

    // ----- cancel and retry -----

    method CancelJob(id: JobId) returns (r: Result<Manifest, JobError>)
      requires Valid()
      modifies `manifests, `logs, `eventSeqs, `leaves, `index, `indexExists, `indexRevision
      ensures Valid()
      ensures id !in old(manifests) ==> r == Err(JobNotFound) && Snapshot() == old(Snapshot())
      ensures id in old(manifests) ==>
        && id in manifests && r == Ok(manifests[id])
        && Snapshot() == if Terminal(old(manifests)[id].status) then old(Snapshot())
                         else AfterCancel(old(Snapshot()), id, clock)
    {
      if id !in manifests {
        return Err(JobNotFound);
      }
      if Terminal(manifests[id].status) {
        return Ok(manifests[id]);
      }
      AppendEvent(id, JobCancelled);
      var m := manifests[id];
      m := m.(status := Cancelled, owner := None, finishedAt := Some(clock), updatedAt := clock, revision := m.revision + 1);
      AppendThenWrites(old(Snapshot()), id, JobCancelled, clock, m);
      WriteAll(m);
      return Ok(manifests[id]);
    }

    /**
     A retry of a finished job is a new job of the same request, linked back to the first;
     `scope` and `hash` are those of the stored, sanitized request.
     */
    method RetryJob(id: JobId, idem: nat, scope: nat, hash: nat, ids: seq<JobId>) returns (r: Result<JobId, JobError>)
      requires Valid() && FreshIds(ids, manifests, leaves)
      modifies `manifests, `logs, `eventSeqs, `leaves, `index, `indexExists, `indexRevision
      ensures Valid()
      ensures id !in old(manifests) ==> r == Err(JobNotFound) && Snapshot() == old(Snapshot())
      ensures id in old(manifests) ==>
        var m, s := old(manifests)[id], old(Snapshot());
        var request := Request(m.jobType, m.priority, scope, idem, hash);
        var answer := CreateAnswer(s.index, request);
        if m.status.UnknownOutcome? then r == Ok(id) && Snapshot() == AfterRecoverUnknown(s, id, clock)
        else if !Terminal(m.status) || m.status.Succeeded? then r == Err(NotRetryable(m.status)) && Snapshot() == s
        else if answer.None? then r == Ok(ids[0]) && Snapshot() == AfterRetryLink(AfterCreate(s, ids[0], request, clock), ids[0], id)
        else r == answer.value && Snapshot() == if r.Ok? then AfterRetryLink(s, r.value, id) else s
      ensures id in old(manifests) ==>
        var m := old(manifests)[id];
        var request := Request(m.jobType, m.priority, scope, idem, hash);
        (m.status.PartialSuccess? || m.status.Failed? || m.status.Cancelled?) && RoomFor(old(index), request) ==>
          r == Ok(ids[0]) && QueuedAsAsked(Snapshot(), ids[0], request, clock, Some(id))
    {
      if id !in manifests {
        return Err(JobNotFound);
      }
      var m := manifests[id];
      if m.status.UnknownOutcome? {
        var _ := RecoverUnknownOutcomeJob(id);
        return Ok(id);
      }
      if m.status.Created? || m.status.Queued? || m.status.Running? || m.status.WaitingRetry? || m.status.Recovering? {
        return Err(NotRetryable(m.status));
      }
      if m.status.Succeeded? {
        return Err(NotRetryable(m.status));
      }
      r := CreateRetry(m, idem, scope, hash, ids);
    }

    method CreateRetry(m: Manifest, idem: nat, scope: nat, hash: nat, ids: seq<JobId>) returns (r: Result<JobId, JobError>)
      requires Valid() && FreshIds(ids, manifests, leaves)
      modifies `manifests, `logs, `eventSeqs, `leaves, `index, `indexExists, `indexRevision
      ensures Valid()
      ensures var s := old(Snapshot());
        var request := Request(m.jobType, m.priority, scope, idem, hash);
        var answer := CreateAnswer(s.index, request);
        if answer.None? then r == Ok(ids[0]) && Snapshot() == AfterRetryLink(AfterCreate(s, ids[0], request, clock), ids[0], m.id)
        else r == answer.value && (r.Ok? ==> r.value in s.manifests)
             && Snapshot() == if r.Ok? then AfterRetryLink(s, r.value, m.id) else s
      ensures var request := Request(m.jobType, m.priority, scope, idem, hash);
        RoomFor(old(index), request) ==> r == Ok(ids[0]) && QueuedAsAsked(Snapshot(), ids[0], request, clock, Some(m.id))
    {
      hide CreateOutcome, CreateAnswer, AfterCreate, AfterRetryLink, QueuedAsAsked;
      var request := Request(m.jobType, m.priority, scope, idem, hash);
      FreshIsUnused(Snapshot(), ids);
      RetryQueues(Snapshot(), ids[0], request, clock, m.id);
      AnswerIfNoRoom(index, request);
      CreateUnrivalled(old(Snapshot()), request, ids, clock);
      AnswerIsIndexed(old(Snapshot()), request);
      r := CreateJob(request, ids, [None, None]);
      if r.Ok? {
        LinkRetry(r.value, m.id);
      }
    }

    method LinkRetry(id: JobId, of_: JobId)
      requires Valid() && id in manifests
      modifies `manifests, `index, `indexExists, `indexRevision
      ensures Valid() && Snapshot() == AfterRetryLink(old(Snapshot()), id, of_)
    {
      var retry := manifests[id];
      retry := retry.(retryOf := Some(of_), revision := retry.revision + 1);
      var _ := WriteManifest(retry, None);
      var _ := UpsertJobIndex(retry, None);
    }

    // ----- claim -----

    /** The first half of a claim: the checks on one candidate, and the lease it will try to write. */
    method CheckClaim(e: Summary, types: set<nat>, token: Token) returns (p: Option<PendingClaim>)
      requires Valid() && e in index && IsCandidate(e, types)
      ensures p.Some? <==> Eligible(Snapshot(), e, types, clock)
      ensures p.Some? ==> p.value == PendingClaim(manifests[e.id], Lease(instance, token, clock + ttl), clock)
    {
      var m := manifests[e.id];
      if !Claimable(m.status) {
        return None;
      }
      if m.owner.Some? && m.owner.value.expiresAt > clock {
        return None;
      }
      var conflict := FindActive(index, m.scope, Some(e.id));
      if conflict.Some? {
        return None;
      }
      return Some(PendingClaim(m, Lease(instance, token, clock + ttl), clock));
    }

    /** The second half: the revision-checked manifest write and what follows it. */
    method CommitClaim(p: PendingClaim) returns (ok: bool)
      requires Valid() && p.read.id in manifests && p.at <= clock
      modifies `manifests, `logs, `eventSeqs, `leaves, `index, `indexExists, `indexRevision
      ensures Valid() && p.read.id in manifests
      ensures ok <==> old(manifests)[p.read.id].revision == p.read.revision
      ensures Snapshot() == if ok then AfterClaim(old(Snapshot()), p.read, p.lease, p.at, clock) else old(Snapshot())
    {
      hide Commit, AfterIndexWrite, LeafWritten;
      var m := p.read;
      var next := m.(status := Running, owner := Some(p.lease),
                     startedAt := if m.startedAt.Some? then m.startedAt else Some(p.at),
                     updatedAt := p.at, revision := m.revision + 1);
      ok := WriteManifest(next, Some(m.revision));
      if !ok {
        return;
      }
      WriteThenAppend(old(Snapshot()), next, JobStarted, clock);
      AppendAndPublish(m.id, JobStarted);
    }

    method TryClaim(e: Summary, types: set<nat>, token: Token) returns (ok: bool)
      requires Valid() && e in index && IsCandidate(e, types)
      modifies `manifests, `logs, `eventSeqs, `leaves, `index, `indexExists, `indexRevision
      ensures Valid()
      ensures ok <==> Eligible(old(Snapshot()), e, types, clock)
      ensures Snapshot() == AfterTaking(old(Snapshot()), if ok then Some(e) else None,
                                        Lease(instance, token, clock + ttl), clock)
      ensures ok ==> e.id in manifests
    {
      hide Commit;
      var p := CheckClaim(e, types, token);
      if p.None? {
        return false;
      }
      ok := CommitClaim(p.value);
    }

    /** Tries the candidates in turn until one is taken. */
    method ClaimFirst(candidates: seq<Summary>, types: set<nat>, token: Token) returns (taken: Option<Summary>)
      requires Valid() && forall e :: e in candidates ==> e in index && IsCandidate(e, types)
      modifies `manifests, `logs, `eventSeqs, `leaves, `index, `indexExists, `indexRevision
      ensures Valid()
      ensures taken == FirstEligible(old(Snapshot()), candidates, 0, types, clock)
      ensures taken.Some? ==> taken.value.id in manifests
      ensures Snapshot() == AfterTaking(old(Snapshot()), taken, Lease(instance, token, clock + ttl), clock)
    {
      hide AfterClaim;
      for k := 0 to |candidates|
        invariant Valid() && Snapshot() == old(Snapshot())
        invariant FirstEligible(old(Snapshot()), candidates, 0, types, clock)
                  == FirstEligible(old(Snapshot()), candidates, k, types, clock)
      {
        var ok := TryClaim(candidates[k], types, token);
        if ok {
          return Some(candidates[k]);
        }
      }
      return None;
    }

    method ClaimNextJobForWorker(types: set<nat>, token: Token) returns (r: Option<Manifest>)
      requires Valid()
      modifies `manifests, `logs, `eventSeqs, `leaves, `index, `indexExists, `indexRevision
      ensures Valid()
      ensures Snapshot() == AfterClaimNext(old(Snapshot()), types, Lease(instance, token, clock + ttl), clock)
      ensures match NextClaim(old(Snapshot()), types, clock)
        case None => r == None
        case Some(e) => e.id in manifests && r == Some(manifests[e.id])
    {
      var candidates := SortByClaimOrder(FilterCandidates(index, types));
      var taken := ClaimFirst(candidates, types, token);
      if taken.None? {
        return None;
      }
      return Some(manifests[taken.value.id]);
    }

    // ----- run and finish -----

    method JobMutationIsAllowed(m: Manifest, token: Option<Token>) returns (ok: bool)
      ensures ok <==> MutationAllowed(m, token, instance, clock)
    {
      if m.owner.None? {
        return true;
      }
      if token.None? || Terminal(m.status) {
        return false;
      }
      var owner := m.owner.value;
      return owner.instance == instance && owner.token == token.value && owner.expiresAt > clock;
    }

    method MarkJobRunning(id: JobId, token: Option<Token>) returns (r: Result<Manifest, JobError>)
      requires Valid()
      modifies `manifests, `logs, `eventSeqs, `leaves, `index, `indexExists, `indexRevision
      ensures Valid()
      ensures id !in old(manifests) ==> r == Err(JobNotFound) && Snapshot() == old(Snapshot())
      ensures id in old(manifests) ==>
        && id in manifests && r == Ok(manifests[id])
        && Snapshot() == if Terminal(old(manifests)[id].status)
                            || !MutationAllowed(old(manifests)[id], token, instance, clock) then old(Snapshot())
                         else AfterMarkRunning(old(Snapshot()), id, token, ttl, clock)
    {
      if id !in manifests {
        return Err(JobNotFound);
      }
      if Terminal(manifests[id].status) {
        return Ok(manifests[id]);
      }
      var allowed := JobMutationIsAllowed(manifests[id], token);
      if allowed {
        StartRunning(id, token);
      }
      return Ok(manifests[id]);
    }

    /** The writes of `MarkJobRunning`, with its second look at the lease. */
    method StartRunning(id: JobId, token: Option<Token>)
      requires Valid() && id in manifests && MutationAllowed(manifests[id], token, instance, clock)
      modifies `manifests, `logs, `eventSeqs, `leaves, `index, `indexExists, `indexRevision
      ensures Valid() && id in manifests
      ensures Snapshot() == AfterMarkRunning(old(Snapshot()), id, token, ttl, clock)
    {
      hide Commit, AfterIndexWrite, LeafWritten;
      AppendEvent(id, JobStarted);
      var m := manifests[id];
      var allowed := JobMutationIsAllowed(m, token);
      if !allowed {
        return;
      }
      m := m.(status := Running, owner := if token.Some? then Renewed(m.owner, clock + ttl) else m.owner,
              startedAt := if m.startedAt.Some? then m.startedAt else Some(clock),
              updatedAt := clock, revision := m.revision + 1);
      AppendThenWrites(old(Snapshot()), id, JobStarted, clock, m);
      WriteAll(m);
    }

    /** The first half of a finish: the checks on the manifest it read. */
    method CheckFinish(id: JobId, o: Outcome, token: Option<Token>) returns (p: Option<PendingFinish>)
      requires Valid() && id in manifests
      ensures p == if Terminal(manifests[id].status) || !MutationAllowed(manifests[id], token, instance, clock) then None
                   else Some(PendingFinish(manifests[id], o, clock, token, instance))
    {
      var m := manifests[id];
      if Terminal(m.status) {
        return None;
      }
      var allowed := JobMutationIsAllowed(m, token);
      if !allowed {
        return None;
      }
      return Some(PendingFinish(m, o, clock, token, instance));
    }

    /** The second half: the revision-checked manifest write and what follows it. */
    method CommitFinish(p: PendingFinish) returns (ok: bool)
      requires Valid() && p.read.id in manifests && p.at <= clock
      modifies `manifests, `logs, `eventSeqs, `leaves, `index, `indexExists, `indexRevision
      ensures Valid()
      ensures ok <==> old(manifests)[p.read.id].revision == p.read.revision
      ensures Snapshot() == if ok then AfterFinish(old(Snapshot()), p.read, p.outcome, p.at, clock) else old(Snapshot())
    {
      hide Commit, AfterIndexWrite, LeafWritten;
      var m := p.read;
      var status := OutcomeStatus(p.outcome);
      var next := m.(status := status, owner := None, finishedAt := Some(p.at), updatedAt := p.at, revision := m.revision + 1);
      ok := WriteManifest(next, Some(m.revision));
      if !ok {
        return;
      }
      WriteThenAppend(old(Snapshot()), next, OutcomeKind(p.outcome), clock);
      AppendAndPublish(m.id, OutcomeKind(p.outcome));
    }

    method FinishJob(id: JobId, o: Outcome, token: Option<Token>) returns (r: Result<Manifest, JobError>)
      requires Valid()
      modifies `manifests, `logs, `eventSeqs, `leaves, `index, `indexExists, `indexRevision
      ensures Valid()
      ensures id !in old(manifests) ==> r == Err(JobNotFound) && Snapshot() == old(Snapshot())
      ensures id in old(manifests) ==>
        var m := old(manifests)[id];
        && id in manifests && r == Ok(manifests[id])
        && Snapshot() == if Terminal(m.status) || !MutationAllowed(m, token, instance, clock) then old(Snapshot())
                         else AfterFinish(old(Snapshot()), m, o, clock, clock)
    {
      if id !in manifests {
        return Err(JobNotFound);
      }
      var p := CheckFinish(id, o, token);
      if p.Some? {
        var _ := CommitFinish(p.value);
      }
      return Ok(manifests[id]);
    }

    // ----- recovery -----

    method MarkRunningJobUnknownOutcome(id: JobId)
      requires Valid() && id in manifests
      modifies `manifests, `logs, `eventSeqs, `leaves, `index, `indexExists, `indexRevision
      ensures Valid() && manifests.Keys == old(manifests).Keys
      ensures Snapshot() == if Terminal(old(manifests)[id].status) then old(Snapshot()) else AfterStale(old(Snapshot()), id, clock)
    {
      if Terminal(manifests[id].status) {
        return;
      }
      AppendEvent(id, JobRecoveryStarted);
      AppendEvent(id, JobUnknownOutcome);
      var latest := manifests[id];
      latest := latest.(status := UnknownOutcome, owner := None, updatedAt := clock, revision := latest.revision + 1);
      TwoAppendsThenWrites(old(Snapshot()), id, JobRecoveryStarted, JobUnknownOutcome, clock, latest);
      WriteAll(latest);
    }

    method RecoverIfStale(id: JobId, staleAfter: nat)
      requires Valid() && id in manifests
      modifies `manifests, `logs, `eventSeqs, `leaves, `index, `indexExists, `indexRevision
      ensures Valid()
      ensures manifests.Keys == old(manifests).Keys
      ensures Snapshot() == if Stale(old(manifests)[id], staleAfter, clock) then AfterStale(old(Snapshot()), id, clock)
                            else old(Snapshot())
    {
      var m := manifests[id];
      if !m.status.Running? {
        return;
      }
      if m.owner.Some? && m.owner.value.expiresAt > clock {
        return;
      }
      var threshold := if staleAfter < 1 then 1 else staleAfter;
      if clock - m.updatedAt < threshold {
        return;
      }
      MarkRunningJobUnknownOutcome(id);
    }

    /** `keys` is the order in which the store lists the job manifests. */
    method RecoverStaleRunningJobs(keys: seq<JobId>, staleAfter: nat)
      requires Valid() && forall id :: id in keys ==> id in manifests
      modifies `manifests, `logs, `eventSeqs, `leaves, `index, `indexExists, `indexRevision
      ensures Valid()
      ensures Snapshot() == SweepStale(old(Snapshot()), keys, staleAfter, clock)
    {
      for k := 0 to |keys|
        invariant Valid() && manifests.Keys == old(manifests).Keys
        invariant Snapshot() == SweepStale(old(Snapshot()), keys[..k], staleAfter, clock)
      {
        assert keys[..k + 1][..k] == keys[..k];
        RecoverIfStale(keys[k], staleAfter);
      }
      assert keys[..|keys|] == keys;
    }

    /** The newest terminal event, looked for from the end of the log. */
    method TerminalProjection(log: seq<Event>) returns (r: Option<Event>)
      ensures r == LastTerminal(log)
    {
      var k := |log|;
      assert log[..k] == log;
      while k > 0
        invariant 0 <= k <= |log|
        invariant LastTerminal(log) == LastTerminal(log[..k])
      {
        LastTerminalOfPrefix(log, k - 1);
        if TerminalStatus(log[k - 1].kind).Some? {
          return Some(log[k - 1]);
        }
        k := k - 1;
      }
      return None;
    }

    method AdoptTerminalOutcome(id: JobId, terminal: Event)
      requires Valid() && id in manifests && LastTerminal(LogOf(Snapshot(), id)) == Some(terminal)
      modifies `manifests, `logs, `eventSeqs, `leaves, `index, `indexExists, `indexRevision
      ensures Valid() && id in manifests
      ensures Snapshot() == AfterRecoverUnknown(old(Snapshot()), id, clock)
    {
      hide Commit, AfterIndexWrite, LeafWritten;
      var m := manifests[id];
      var log := if id in logs then logs[id] else [];
      m := m.(status := TerminalStatus(terminal.kind).value, owner := None, lastSeq := |log|,
              finishedAt := Some(terminal.at), updatedAt := clock, revision := m.revision + 1);
      WriteThenAppend(old(Snapshot()), m, JobRecoveryCompleted, clock);
      var _ := WriteManifest(m, None);
      AppendAndPublish(id, JobRecoveryCompleted);
    }

    method MarkRecovering(id: JobId)
      requires Valid() && id in manifests && LastTerminal(LogOf(Snapshot(), id)).None?
      modifies `manifests, `logs, `eventSeqs, `leaves, `index, `indexExists, `indexRevision
      ensures Valid() && id in manifests
      ensures Snapshot() == AfterRecoverUnknown(old(Snapshot()), id, clock)
    {
      hide Commit, AfterIndexWrite, LeafWritten, LastTerminal, Logged;
      AppendEvent(id, JobRecovering);
      var m := manifests[id];
      m := m.(status := Recovering, owner := None, updatedAt := clock, revision := m.revision + 1);
      AppendThenWrites(old(Snapshot()), id, JobRecovering, clock, m);
      WriteAll(m);
    }

    method RecoverUnknownOutcomeJob(id: JobId) returns (r: Result<Manifest, JobError>)
      requires Valid()
      modifies `manifests, `logs, `eventSeqs, `leaves, `index, `indexExists, `indexRevision
      ensures Valid()
      ensures id !in old(manifests) ==> r == Err(JobNotFound) && Snapshot() == old(Snapshot())
      ensures id in old(manifests) ==>
        && id in manifests && r == Ok(manifests[id])
        && Snapshot() == if old(manifests)[id].status.UnknownOutcome? then AfterRecoverUnknown(old(Snapshot()), id, clock)
                         else old(Snapshot())
    {
      if id !in manifests {
        return Err(JobNotFound);
      }
      if !manifests[id].status.UnknownOutcome? {
        return Ok(manifests[id]);
      }
      var log := if id in logs then logs[id] else [];
      var terminal := TerminalProjection(log);
      if terminal.Some? {
        AdoptTerminalOutcome(id, terminal.value);
      } else {
        MarkRecovering(id);
      }
      return Ok(manifests[id]);
    }
  }
}
