/**
 The job protocol as a state machine over interleaved steps.

 Every operation is one step, except that create, claim and finish are each two: a
 step that reads and checks, and a step that makes the revision-checked write. Any
 other steps may come between the two.
 */
module JobProtocol {
  import opened Wrappers
  import opened JobModel

  datatype PendingCreate = PendingCreate(manifest: Manifest, expected: nat)
  datatype PendingClaim = PendingClaim(read: Manifest, lease: Lease, at: int)
  datatype PendingFinish = PendingFinish(read: Manifest, outcome: Outcome, at: int, token: Option<Token>, instance: nat)

  datatype Sys = Sys(
    clock: int,
    store: Store,
    issued: set<Token>,
    creates: map<nat, PendingCreate>,
    claims: map<nat, PendingClaim>,
    finishes: map<nat, PendingFinish>)

  function Init(clock: int): Sys {
    Sys(clock, EMPTY_STORE, {}, map[], map[], map[])
  }

  datatype Step =
    | Tick(d: nat)
    | CreateBegin(pid: nat, id: JobId, request: Request)
    | CreateCommit(pid: nat)
    | ClaimBegin(pid: nat, id: JobId, drawn: Token, instance: nat, ttl: nat)
    | ClaimCommit(pid: nat)
    | MarkRunning(id: JobId, token: Option<Token>, instance: nat, ttl: nat)
    | FinishBegin(pid: nat, id: JobId, outcome: Outcome, token: Option<Token>, instance: nat)
    | FinishCommit(pid: nat)
    | FinishCrash(pid: nat)
    | Cancel(id: JobId)
    | CancelCrash(id: JobId)
    | RetryLink(id: JobId, of_: JobId)
    | RecoverStale(id: JobId, staleAfter: nat)
    | RecoverUnknown(id: JobId)

  ghost predicate Indexed(s: Store, id: JobId) {
    exists e :: e in s.index && e.id == id
  }

  /** Job ids reach callers only once the job is indexed; ids and tokens are fresh when drawn. */
  ghost predicate Enabled(y: Sys, a: Step) {
    match a
    case Tick(_) => true
    case CreateBegin(pid, id, _) => pid !in y.creates && id !in y.store.manifests
    case CreateCommit(pid) => pid in y.creates
    case ClaimBegin(pid, id, drawn, _, ttl) =>
      pid !in y.claims && Indexed(y.store, id) && id in y.store.manifests && drawn !in y.issued && ttl >= 1
    case ClaimCommit(pid) => pid in y.claims && y.claims[pid].read.id in y.store.manifests
    case MarkRunning(id, _, _, ttl) => Indexed(y.store, id) && id in y.store.manifests && ttl >= 1
    case FinishBegin(pid, id, _, _, _) => pid !in y.finishes && Indexed(y.store, id) && id in y.store.manifests
    case FinishCommit(pid) => pid in y.finishes && y.finishes[pid].read.id in y.store.manifests
    case FinishCrash(pid) => pid in y.finishes && y.finishes[pid].read.id in y.store.manifests
    case Cancel(id) => Indexed(y.store, id) && id in y.store.manifests
    case CancelCrash(id) => Indexed(y.store, id) && id in y.store.manifests
    case RetryLink(id, _) => Indexed(y.store, id) && id in y.store.manifests
    case RecoverStale(id, _) => id in y.store.manifests
    case RecoverUnknown(id) => Indexed(y.store, id) && id in y.store.manifests
  }

  ghost function Apply(y: Sys, a: Step): Sys
    requires Enabled(y, a)
  {
    match a
    case Tick(d) => y.(clock := y.clock + d)
    case CreateBegin(pid, id, r) =>
      if FindByIdem(y.store.index, r.idem).Some? || FindActive(y.store.index, r.scope, None).Some? then y
      else y.(store := AfterCreateBegin(y.store, id, r, y.clock),
              creates := y.creates[pid := PendingCreate(NewManifest(id, r, y.clock), y.store.indexRevision)])
    case CreateCommit(pid) =>
      var p := y.creates[pid];
      y.(store := if IndexWriteAccepted(y.store, p.expected) then AfterIndexWrite(y.store, p.manifest) else y.store,
         creates := y.creates - {pid})
    case ClaimBegin(pid, id, drawn, instance, ttl) =>
      var m := y.store.manifests[id];
      if !Claimable(m.status) || OwnerLive(m, y.clock) || FindActive(y.store.index, m.scope, Some(id)).Some? then y
      else y.(issued := y.issued + {drawn},
              claims := y.claims[pid := PendingClaim(m, Lease(instance, drawn, y.clock + ttl), y.clock)])
    case ClaimCommit(pid) =>
      var p := y.claims[pid];
      y.(store := if y.store.manifests[p.read.id].revision == p.read.revision
                  then AfterClaim(y.store, p.read, p.lease, p.at, y.clock) else y.store,
         claims := y.claims - {pid})
    case MarkRunning(id, token, instance, ttl) =>
      var m := y.store.manifests[id];
      if Terminal(m.status) || !MutationAllowed(m, token, instance, y.clock) then y
      else y.(store := AfterMarkRunning(y.store, id, token, ttl, y.clock))
    case FinishBegin(pid, id, outcome, token, instance) =>
      var m := y.store.manifests[id];
      if Terminal(m.status) || !MutationAllowed(m, token, instance, y.clock) then y
      else y.(finishes := y.finishes[pid := PendingFinish(m, outcome, y.clock, token, instance)])
    case FinishCommit(pid) =>
      var p := y.finishes[pid];
      y.(store := if y.store.manifests[p.read.id].revision == p.read.revision
                  then AfterFinish(y.store, p.read, p.outcome, p.at, y.clock) else y.store,
         finishes := y.finishes - {pid})
    case FinishCrash(pid) =>
      var p := y.finishes[pid];
      y.(store := if y.store.manifests[p.read.id].revision == p.read.revision
                  then AfterFinishCrash(y.store, p.read, p.outcome, p.at) else y.store,
         finishes := y.finishes - {pid})
    case Cancel(id) =>
      if Terminal(y.store.manifests[id].status) then y else y.(store := AfterCancel(y.store, id, y.clock))
    case CancelCrash(id) =>
      if Terminal(y.store.manifests[id].status) then y else y.(store := AfterCancelCrash(y.store, id, y.clock))
    case RetryLink(id, of_) => y.(store := AfterRetryLink(y.store, id, of_))
    case RecoverStale(id, staleAfter) =>
      if Stale(y.store.manifests[id], staleAfter, y.clock) then y.(store := AfterStale(y.store, id, y.clock)) else y
    case RecoverUnknown(id) =>
      if y.store.manifests[id].status.UnknownOutcome? then y.(store := AfterRecoverUnknown(y.store, id, y.clock)) else y
  }

  /** A run: the states passed through and the steps between them. */
  ghost predicate Run(ys: seq<Sys>, steps: seq<Step>) {
    && |ys| == |steps| + 1
    && forall i {:trigger steps[i]} :: 0 <= i < |steps| ==> Enabled(ys[i], steps[i]) && ys[i + 1] == Apply(ys[i], steps[i])
  }

  // ----- the invariant -----

  ghost predicate Numbered(log: seq<Event>) {
    forall i :: 0 <= i < |log| ==> log[i].seq_ == i + 1
  }

  /** The parts of an index entry, but for its status, that decide exclusivity, idempotency and claim order. */
  predicate Agrees(e: Summary, m: Manifest) {
    && e.id == m.id && e.jobType == m.jobType && e.priority == m.priority && e.scope == m.scope
    && e.idem == m.idem && e.hash == m.hash && e.createdAt == m.createdAt
  }

  /** A job whose finish stopped after its manifest write: only the manifest tells that it ended. */
  predicate Cut(s: Store, id: JobId) {
    && id in s.manifests && Terminal(s.manifests[id].status)
    && id in s.leaves && !Terminal(s.leaves[id].status)
  }

  /** An index entry tells its manifest's status, unless the job was cut. */
  predicate StatusTold(s: Store, e: Summary)
    requires e.id in s.manifests
  {
    e.status == s.manifests[e.id].status || (Cut(s, e.id) && !Terminal(e.status))
  }

  /** The terminal events that crashed cancels leave. */
  predicate OnlyCancelled(log: seq<Event>) {
    LastTerminalStatus(log) == None || LastTerminalStatus(log) == Some(Cancelled)
  }

  /** At most one indexed job of a target scope is not terminal. */
  ghost predicate Exclusive(index: seq<Summary>) {
    forall a, b :: a in index && b in index && a.scope == b.scope && !Terminal(a.status) && !Terminal(b.status)
                   ==> a.id == b.id
  }

  /** No two indexed jobs share an idempotency key. */
  ghost predicate UniqueIdem(index: seq<Summary>) {
    forall a, b :: a in index && b in index && a.idem == b.idem ==> a.id == b.id
  }

  ghost predicate IndexOk(s: Store) {
    && DistinctIds(s.index)
    && (forall e :: e in s.index ==> e.id in s.manifests && Agrees(e, s.manifests[e.id]) && StatusTold(s, e))
    && Exclusive(s.index)
    && UniqueIdem(s.index)
    && (s.indexExists <==> s.indexRevision > 0)
    && (!s.indexExists ==> s.index == [])
  }

  ghost predicate RecordOk(s: Store, id: JobId)
    requires id in s.manifests
  {
    var m := s.manifests[id];
    && m.id == id
    && id in s.logs && m.lastSeq == |s.logs[id]| && Numbered(s.logs[id])
    && id in s.leaves && (s.leaves[id].status == m.status || Cut(s, id))
    && (m.owner.Some? ==> m.status.Running?)
    && (Terminal(m.status) && !Cut(s, id) ==> LastTerminalStatus(s.logs[id]) == Some(m.status))
    && (!Terminal(m.status) || Cut(s, id) ==> OnlyCancelled(s.logs[id]))
    && (Cut(s, id) ==> !m.status.Cancelled?)
  }

  ghost predicate StoreOk(s: Store) {
    && IndexOk(s)
    && (forall id :: id in s.manifests ==> RecordOk(s, id))
    && (forall id :: id in s.manifests && !Indexed(s, id) ==> s.manifests[id].status.Queued?)
  }

  /** A pending create still has its manifest to itself, and an unchanged index still has room for it. */
  ghost predicate CreatesOk(y: Sys) {
    && (forall pid :: pid in y.creates ==>
         var p := y.creates[pid];
         && p.manifest.id in y.store.manifests && y.store.manifests[p.manifest.id] == p.manifest
         && !Terminal(p.manifest.status)
         && !Indexed(y.store, p.manifest.id)
         && p.expected <= y.store.indexRevision
         && (p.expected == y.store.indexRevision ==>
               && FindByIdem(y.store.index, p.manifest.idem).None?
               && FindActive(y.store.index, p.manifest.scope, None).None?))
    && (forall p, q :: p in y.creates && q in y.creates && p != q ==>
          y.creates[p].manifest.id != y.creates[q].manifest.id)
  }

  /** A manifest that still has the revision a pending write read is the very manifest it read. */
  ghost predicate ReadOk(s: Store, read: Manifest) {
    && Indexed(s, read.id) && read.id in s.manifests
    && read.revision <= s.manifests[read.id].revision
    && (read.revision == s.manifests[read.id].revision ==> s.manifests[read.id] == read)
  }

  ghost predicate ClaimsOk(y: Sys) {
    forall pid :: pid in y.claims ==>
      var p := y.claims[pid];
      && ReadOk(y.store, p.read) && Claimable(p.read.status)
      && p.at <= y.clock && p.lease.token in y.issued
  }

  ghost predicate FinishesOk(y: Sys) {
    forall pid :: pid in y.finishes ==>
      var p := y.finishes[pid];
      && ReadOk(y.store, p.read) && !Terminal(p.read.status)
      && p.at <= y.clock && MutationAllowed(p.read, p.token, p.instance, p.at)
  }

  ghost predicate TokensOk(y: Sys) {
    forall id :: id in y.store.manifests && y.store.manifests[id].owner.Some? ==>
      y.store.manifests[id].owner.value.token in y.issued
  }

  ghost predicate Inv(y: Sys) {
    StoreOk(y.store) && CreatesOk(y) && ClaimsOk(y) && FinishesOk(y) && TokensOk(y)
  }

  // ----- preservation -----

  predicate SameJob(m: Manifest, m': Manifest) {
    && m'.id == m.id && m'.jobType == m.jobType && m'.priority == m.priority && m'.scope == m.scope
    && m'.idem == m.idem && m'.hash == m.hash && m'.createdAt == m.createdAt
  }

  /** What a rewrite of an indexed job must respect. */
  ghost predicate GoodRewrite(s: Store, m': Manifest, log': seq<Event>) {
    && m'.id in s.manifests && Indexed(s, m'.id)
    && SameJob(s.manifests[m'.id], m')
    && m'.revision > s.manifests[m'.id].revision
    && (Terminal(s.manifests[m'.id].status) ==> Terminal(m'.status))
    && m'.lastSeq == |log'| && Numbered(log')
    && (m'.owner.Some? ==> m'.status.Running?)
    && (if Terminal(m'.status) then LastTerminalStatus(log') == Some(m'.status) else OnlyCancelled(log'))
  }

  /** The index side of a rewrite or of a create's index write. */
  lemma UpsertKeepsIndex(s: Store, s': Store, m: Manifest)
    requires IndexOk(s)
    requires s'.manifests == s.manifests[m.id := m]
    requires forall i :: i != m.id ==> (i in s'.leaves <==> i in s.leaves) && (i in s.leaves ==> s'.leaves[i] == s.leaves[i])
    requires s'.index == Upsert(s.index, SummaryOf(m)) && s'.indexExists && s'.indexRevision == s.indexRevision + 1
    requires !Terminal(m.status) ==>
               forall e :: e in s.index && e.scope == m.scope && !Terminal(e.status) ==> e.id == m.id
    requires forall e :: e in s.index && e.idem == m.idem ==> e.id == m.id
    ensures IndexOk(s')
    ensures forall id :: Indexed(s', id) <==> id == m.id || Indexed(s, id)
  {
    UpsertEffect(s.index, SummaryOf(m));
    assert SummaryOf(m) in s'.index;
    forall id | Indexed(s, id) ensures id == m.id || Indexed(s', id) {
      var e :| e in s.index && e.id == id;
      assert id == m.id || e in s'.index;
    }
  }

  /** `s'` is `s` with job `id` rewritten as a whole, within those bounds. */
  ghost predicate IsRewrite(s: Store, s': Store, id: JobId) {
    && id in s'.manifests && id in s'.logs && s'.manifests[id].id == id
    && s' == Commit(s, s'.manifests[id], s'.logs[id])
    && GoodRewrite(s, s'.manifests[id], s'.logs[id])
  }

  lemma RewriteKeepsStore(s: Store, s': Store, id: JobId)
    requires StoreOk(s) && IsRewrite(s, s', id)
    ensures StoreOk(s')
    ensures forall i :: Indexed(s', i) <==> Indexed(s, i)
  {
    var e0 :| e0 in s.index && e0.id == id;
    UpsertKeepsIndex(s, s', s'.manifests[id]);
    forall i | i in s'.manifests ensures RecordOk(s', i) {
      if i != id {
        assert RecordOk(s, i);
      }
    }
  }

  /** How the store may move under pending operations; `landed` is a job whose create just got indexed. */
  ghost predicate Moves(s: Store, s': Store, landed: Option<JobId>) {
    && (forall id :: id in s.manifests ==>
          && id in s'.manifests
          && s.manifests[id].revision <= s'.manifests[id].revision
          && (s.manifests[id].revision == s'.manifests[id].revision ==> s'.manifests[id] == s.manifests[id])
          && (!Indexed(s, id) ==> s'.manifests[id] == s.manifests[id]))
    && (forall id :: Indexed(s, id) ==> Indexed(s', id))
    && (forall id :: Indexed(s', id) && !Indexed(s, id) ==> landed == Some(id))
    && s.indexRevision <= s'.indexRevision
    && (s.indexRevision == s'.indexRevision ==> s'.index == s.index)
  }

  lemma PendingSurvive(y: Sys, s': Store, landed: Option<JobId>)
    requires CreatesOk(y) && ClaimsOk(y) && FinishesOk(y) && Moves(y.store, s', landed)
    requires landed.Some? ==> forall pid :: pid in y.creates ==> y.creates[pid].manifest.id != landed.value
    ensures CreatesOk(y.(store := s')) && ClaimsOk(y.(store := s')) && FinishesOk(y.(store := s'))
  {
    var y' := y.(store := s');
    assert CreatesOk(y') by {
      forall pid | pid in y'.creates
        ensures var p := y.creates[pid];
          && p.manifest.id in s'.manifests && s'.manifests[p.manifest.id] == p.manifest
          && !Indexed(s', p.manifest.id)
      {
        assert !Indexed(y.store, y.creates[pid].manifest.id);
      }
    }
    assert ClaimsOk(y') by {
      forall pid | pid in y'.claims ensures ReadOk(s', y'.claims[pid].read) {
        assert ReadOk(y.store, y.claims[pid].read);
      }
    }
    assert FinishesOk(y') by {
      forall pid | pid in y'.finishes ensures ReadOk(s', y'.finishes[pid].read) {
        assert ReadOk(y.store, y.finishes[pid].read);
      }
    }
  }

  lemma RewriteMoves(s: Store, s': Store, id: JobId)
    requires IsRewrite(s, s', id)
    requires forall i :: Indexed(s', i) <==> Indexed(s, i)
    ensures Moves(s, s', None)
  {
  }

  lemma MoveKeepsInv(y: Sys, s': Store, landed: Option<JobId>)
    requires Inv(y) && StoreOk(s') && Moves(y.store, s', landed)
    requires landed.Some? ==> forall pid :: pid in y.creates ==> y.creates[pid].manifest.id != landed.value
    requires forall id :: id in s'.manifests && s'.manifests[id].owner.Some? ==>
               s'.manifests[id].owner.value.token in y.issued
    ensures Inv(y.(store := s'))
  {
    PendingSurvive(y, s', landed);
  }

  /** Pending operations survive a rewrite because it raises the job's and the index's revision. */
  lemma RewriteKeepsInv(y: Sys, s': Store, id: JobId)
    requires Inv(y) && IsRewrite(y.store, s', id)
    requires s'.manifests[id].owner.Some? ==> s'.manifests[id].owner.value.token in y.issued
    ensures Inv(y.(store := s'))
  {
    RewriteKeepsStore(y.store, s', id);
    RewriteMoves(y.store, s', id);
    MoveKeepsInv(y, s', None);
  }

  lemma LoggedIsNumbered(log: seq<Event>, kind: EventKind, now: int)
    requires Numbered(log)
    ensures Numbered(Logged(log, kind, now)) && |Logged(log, kind, now)| == |log| + 1
    ensures LastTerminalStatus(Logged(log, kind, now)) ==
            if TerminalStatus(kind).Some? then TerminalStatus(kind) else LastTerminalStatus(log)
  {
    var l := Logged(log, kind, now);
    assert l[..|l| - 1] == log;
  }

  // ----- which effects are rewrites -----

  lemma CancelIsRewrite(s: Store, id: JobId, now: int)
    requires id in s.manifests && RecordOk(s, id) && Indexed(s, id)
    ensures IsRewrite(s, AfterCancel(s, id, now), id)
    ensures AfterCancel(s, id, now).manifests[id].owner.None?
  {
    LoggedIsNumbered(s.logs[id], JobCancelled, now);
  }

  lemma ClaimIsRewrite(s: Store, read: Manifest, lease: Lease, at: int, now: int)
    requires read.id in s.manifests && RecordOk(s, read.id) && Indexed(s, read.id)
    requires s.manifests[read.id] == read && Claimable(read.status)
    ensures IsRewrite(s, AfterClaim(s, read, lease, at, now), read.id)
    ensures AfterClaim(s, read, lease, at, now).manifests[read.id].owner == Some(lease)
  {
    LoggedIsNumbered(s.logs[read.id], JobStarted, now);
  }

  lemma FinishIsRewrite(s: Store, read: Manifest, o: Outcome, at: int, now: int)
    requires read.id in s.manifests && RecordOk(s, read.id) && Indexed(s, read.id)
    requires s.manifests[read.id] == read
    ensures IsRewrite(s, AfterFinish(s, read, o, at, now), read.id)
    ensures AfterFinish(s, read, o, at, now).manifests[read.id].owner.None?
  {
    LoggedIsNumbered(s.logs[read.id], OutcomeKind(o), now);
  }

  lemma MarkRunningIsRewrite(s: Store, id: JobId, token: Option<Token>, ttl: nat, now: int)
    requires id in s.manifests && RecordOk(s, id) && Indexed(s, id)
    requires !Terminal(s.manifests[id].status)
    ensures var m, m' := s.manifests[id], AfterMarkRunning(s, id, token, ttl, now).manifests[id];
      && IsRewrite(s, AfterMarkRunning(s, id, token, ttl, now), id)
      && m'.owner.Some? == m.owner.Some?
      && (m.owner.Some? ==> m'.owner.value.token == m.owner.value.token
                            && m'.owner.value.instance == m.owner.value.instance)
  {
    LoggedIsNumbered(s.logs[id], JobStarted, now);
  }

  lemma StaleIsRewrite(s: Store, id: JobId, now: int)
    requires id in s.manifests && RecordOk(s, id) && Indexed(s, id)
    requires !Terminal(s.manifests[id].status)
    ensures IsRewrite(s, AfterStale(s, id, now), id)
    ensures AfterStale(s, id, now).manifests[id].owner.None?
  {
    hide Upsert, LeafRevision, LastTerminalStatus, Numbered;
    LoggedIsNumbered(s.logs[id], JobRecoveryStarted, now);
    LoggedIsNumbered(Logged(s.logs[id], JobRecoveryStarted, now), JobUnknownOutcome, now);
  }

  lemma RecoverUnknownIsRewrite(s: Store, id: JobId, now: int)
    requires id in s.manifests && RecordOk(s, id) && Indexed(s, id)
    requires !Terminal(s.manifests[id].status)
    ensures IsRewrite(s, AfterRecoverUnknown(s, id, now), id)
    ensures AfterRecoverUnknown(s, id, now).manifests[id].owner.None?
  {
    hide Upsert, LeafRevision, LastTerminal, Numbered;
    LoggedIsNumbered(s.logs[id], JobRecoveryCompleted, now);
    LoggedIsNumbered(s.logs[id], JobRecovering, now);
  }

  // ----- every step keeps the invariant -----

  lemma CreateBeginStore(s: Store, id: JobId, r: Request, now: int)
    requires StoreOk(s) && id !in s.manifests
    ensures StoreOk(AfterCreateBegin(s, id, r, now)) && !Indexed(s, id)
    ensures Moves(s, AfterCreateBegin(s, id, r, now), None)
  {
    var s' := AfterCreateBegin(s, id, r, now);
    assert forall i :: Indexed(s', i) <==> Indexed(s, i);
    forall i | i in s'.manifests ensures RecordOk(s', i) {
      if i != id {
        assert RecordOk(s, i);
      }
    }
  }

  lemma AddCreateKeeps(y: Sys, pid: nat, p: PendingCreate)
    requires Inv(y) && pid !in y.creates
    requires p.manifest.id in y.store.manifests && y.store.manifests[p.manifest.id] == p.manifest
    requires !Terminal(p.manifest.status) && !Indexed(y.store, p.manifest.id)
    requires p.expected == y.store.indexRevision
    requires FindByIdem(y.store.index, p.manifest.idem).None? && FindActive(y.store.index, p.manifest.scope, None).None?
    requires forall q :: q in y.creates ==> y.creates[q].manifest.id != p.manifest.id
    ensures Inv(y.(creates := y.creates[pid := p]))
  {
    assert CreatesOk(y.(creates := y.creates[pid := p]));
  }

  lemma CreateBeginKeeps(y: Sys, pid: nat, id: JobId, r: Request)
    requires Inv(y) && Enabled(y, CreateBegin(pid, id, r))
    ensures Inv(Apply(y, CreateBegin(pid, id, r)))
  {
    var y' := Apply(y, CreateBegin(pid, id, r));
    if y' != y {
      CreateBeginStore(y.store, id, r, y.clock);
      MoveKeepsInv(y, y'.store, None);
      AddCreateKeeps(y.(store := y'.store), pid, y'.creates[pid]);
    }
  }

  lemma CreateCommitStore(s: Store, m: Manifest, expected: nat)
    requires StoreOk(s) && m.id in s.manifests && s.manifests[m.id] == m && !Indexed(s, m.id)
    requires IndexWriteAccepted(s, expected)
    requires !s.indexExists ==> expected == 0
    requires expected == s.indexRevision ==>
               FindByIdem(s.index, m.idem).None? && FindActive(s.index, m.scope, None).None?
    ensures StoreOk(AfterIndexWrite(s, m)) && Moves(s, AfterIndexWrite(s, m), Some(m.id))
  {
    var s' := AfterIndexWrite(s, m);
    assert expected == s.indexRevision;
    assert s'.manifests == s.manifests[m.id := m];
    UpsertKeepsIndex(s, s', m);
    forall i | i in s'.manifests ensures RecordOk(s', i) {
      assert RecordOk(s, i);
    }
  }

  lemma CreateCommitKeeps(y: Sys, pid: nat)
    requires Inv(y) && Enabled(y, CreateCommit(pid))
    ensures Inv(Apply(y, CreateCommit(pid)))
  {
    var p := y.creates[pid];
    var y0 := y.(creates := y.creates - {pid});
    assert Inv(y0);
    if IndexWriteAccepted(y.store, p.expected) {
      CreateCommitStore(y.store, p.manifest, p.expected);
      MoveKeepsInv(y0, AfterIndexWrite(y.store, p.manifest), Some(p.manifest.id));
    }
  }

  lemma ClaimBeginKeeps(y: Sys, a: Step)
    requires Inv(y) && a.ClaimBegin? && Enabled(y, a)
    ensures Inv(Apply(y, a))
  {
    assert ClaimsOk(Apply(y, a));
  }

  lemma ClaimCommitKeeps(y: Sys, pid: nat)
    requires Inv(y) && Enabled(y, ClaimCommit(pid))
    ensures Inv(Apply(y, ClaimCommit(pid)))
  {
    var p := y.claims[pid];
    var y0 := y.(claims := y.claims - {pid});
    assert Inv(y0);
    assert ReadOk(y.store, p.read);
    if y.store.manifests[p.read.id].revision == p.read.revision {
      assert RecordOk(y.store, p.read.id);
      ClaimIsRewrite(y.store, p.read, p.lease, p.at, y.clock);
      RewriteKeepsInv(y0, AfterClaim(y.store, p.read, p.lease, p.at, y.clock), p.read.id);
    }
  }

  lemma FinishBeginKeeps(y: Sys, a: Step)
    requires Inv(y) && a.FinishBegin? && Enabled(y, a)
    ensures Inv(Apply(y, a))
  {
    assert FinishesOk(Apply(y, a));
  }

  lemma FinishCommitKeeps(y: Sys, pid: nat)
    requires Inv(y) && Enabled(y, FinishCommit(pid))
    ensures Inv(Apply(y, FinishCommit(pid)))
  {
    var p := y.finishes[pid];
    var y0 := y.(finishes := y.finishes - {pid});
    assert Inv(y0);
    assert ReadOk(y.store, p.read);
    if y.store.manifests[p.read.id].revision == p.read.revision {
      assert RecordOk(y.store, p.read.id);
      FinishIsRewrite(y.store, p.read, p.outcome, p.at, y.clock);
      RewriteKeepsInv(y0, AfterFinish(y.store, p.read, p.outcome, p.at, y.clock), p.read.id);
    }
  }

  lemma MarkRunningKeeps(y: Sys, a: Step)
    requires Inv(y) && a.MarkRunning? && Enabled(y, a)
    ensures Inv(Apply(y, a))
  {
    if Apply(y, a) != y {
      assert RecordOk(y.store, a.id);
      MarkRunningIsRewrite(y.store, a.id, a.token, a.ttl, y.clock);
      RewriteKeepsInv(y, AfterMarkRunning(y.store, a.id, a.token, a.ttl, y.clock), a.id);
    }
  }

  lemma CancelKeeps(y: Sys, a: Step)
    requires Inv(y) && a.Cancel? && Enabled(y, a)
    ensures Inv(Apply(y, a))
  {
    if Apply(y, a) != y {
      assert RecordOk(y.store, a.id);
      CancelIsRewrite(y.store, a.id, y.clock);
      RewriteKeepsInv(y, AfterCancel(y.store, a.id, y.clock), a.id);
    }
  }

  lemma CancelCrashStore(s: Store, id: JobId, now: int)
    requires StoreOk(s) && Indexed(s, id) && id in s.manifests && !Terminal(s.manifests[id].status)
    ensures StoreOk(AfterCancelCrash(s, id, now)) && Moves(s, AfterCancelCrash(s, id, now), None)
  {
    var s' := AfterCancelCrash(s, id, now);
    assert RecordOk(s, id);
    LoggedIsNumbered(s.logs[id], JobCancelled, now);
    assert forall i :: Indexed(s', i) <==> Indexed(s, i);
    forall i | i in s'.manifests ensures RecordOk(s', i) {
      assert RecordOk(s, i);
    }
  }

  lemma CancelCrashKeeps(y: Sys, a: Step)
    requires Inv(y) && a.CancelCrash? && Enabled(y, a)
    ensures Inv(Apply(y, a))
  {
    var y' := Apply(y, a);
    if y' != y {
      CancelCrashStore(y.store, a.id, y.clock);
      MoveKeepsInv(y, y'.store, None);
    }
  }

  lemma FinishCrashStore(s: Store, read: Manifest, o: Outcome, at: int)
    requires StoreOk(s) && Indexed(s, read.id) && read.id in s.manifests && s.manifests[read.id] == read && !Terminal(read.status)
    ensures StoreOk(AfterFinishCrash(s, read, o, at)) && Moves(s, AfterFinishCrash(s, read, o, at), None)
    ensures Cut(AfterFinishCrash(s, read, o, at), read.id)
  {
    hide LastTerminalStatus;
    var s' := AfterFinishCrash(s, read, o, at);
    assert RecordOk(s, read.id);
    assert forall i :: Indexed(s', i) <==> Indexed(s, i);
    forall i | i in s'.manifests ensures RecordOk(s', i) {
      assert RecordOk(s, i);
    }
  }

  lemma FinishCrashKeeps(y: Sys, pid: nat)
    requires Inv(y) && Enabled(y, FinishCrash(pid))
    ensures Inv(Apply(y, FinishCrash(pid)))
  {
    var p := y.finishes[pid];
    var y0 := y.(finishes := y.finishes - {pid});
    assert Inv(y0);
    assert ReadOk(y.store, p.read);
    if y.store.manifests[p.read.id].revision == p.read.revision {
      FinishCrashStore(y.store, p.read, p.outcome, p.at);
      MoveKeepsInv(y0, AfterFinishCrash(y.store, p.read, p.outcome, p.at), None);
    }
  }

  lemma RetryLinkStore(s: Store, id: JobId, of_: JobId)
    requires StoreOk(s) && Indexed(s, id) && id in s.manifests
    ensures StoreOk(AfterRetryLink(s, id, of_))
    ensures forall i :: Indexed(AfterRetryLink(s, id, of_), i) <==> Indexed(s, i)
  {
    var s' := AfterRetryLink(s, id, of_);
    assert RecordOk(s, id);
    var e0 :| e0 in s.index && e0.id == id;
    UpsertKeepsIndex(s, s', s'.manifests[id]);
    forall i | i in s'.manifests ensures RecordOk(s', i) {
      assert RecordOk(s, i);
    }
  }

  lemma RetryLinkMoves(s: Store, id: JobId, of_: JobId)
    requires Indexed(s, id) && id in s.manifests && s.manifests[id].id == id
    requires forall i :: Indexed(AfterRetryLink(s, id, of_), i) <==> Indexed(s, i)
    ensures Moves(s, AfterRetryLink(s, id, of_), None)
    ensures forall i :: i in s.manifests ==> AfterRetryLink(s, id, of_).manifests[i].owner == s.manifests[i].owner
    ensures AfterRetryLink(s, id, of_).manifests.Keys == s.manifests.Keys
  {
  }

  lemma RetryLinkKeeps(y: Sys, a: Step)
    requires Inv(y) && a.RetryLink? && Enabled(y, a)
    ensures Inv(Apply(y, a))
  {
    assert RecordOk(y.store, a.id);
    RetryLinkStore(y.store, a.id, a.of_);
    RetryLinkMoves(y.store, a.id, a.of_);
    MoveKeepsInv(y, AfterRetryLink(y.store, a.id, a.of_), None);
  }

  lemma RecoverStaleKeeps(y: Sys, a: Step)
    requires Inv(y) && a.RecoverStale? && Enabled(y, a)
    ensures Inv(Apply(y, a))
  {
    if Apply(y, a) != y {
      assert RecordOk(y.store, a.id);
      StaleIsRewrite(y.store, a.id, y.clock);
      RewriteKeepsInv(y, AfterStale(y.store, a.id, y.clock), a.id);
    }
  }

  lemma RecoverUnknownKeeps(y: Sys, a: Step)
    requires Inv(y) && a.RecoverUnknown? && Enabled(y, a)
    ensures Inv(Apply(y, a))
  {
    if Apply(y, a) != y {
      assert RecordOk(y.store, a.id);
      RecoverUnknownIsRewrite(y.store, a.id, y.clock);
      RewriteKeepsInv(y, AfterRecoverUnknown(y.store, a.id, y.clock), a.id);
    }
  }

  lemma StepKeepsInv(y: Sys, a: Step)
    requires Inv(y) && Enabled(y, a)
    ensures Inv(Apply(y, a))
  {
    hide StoreOk;
    match a
    case Tick(_) =>
    case CreateBegin(pid, id, r) => CreateBeginKeeps(y, pid, id, r);
    case CreateCommit(pid) => CreateCommitKeeps(y, pid);
    case ClaimBegin(_, _, _, _, _) => ClaimBeginKeeps(y, a);
    case ClaimCommit(pid) => ClaimCommitKeeps(y, pid);
    case MarkRunning(_, _, _, _) => MarkRunningKeeps(y, a);
    case FinishBegin(_, _, _, _, _) => FinishBeginKeeps(y, a);
    case FinishCommit(pid) => FinishCommitKeeps(y, pid);
    case FinishCrash(pid) => FinishCrashKeeps(y, pid);
    case Cancel(_) => CancelKeeps(y, a);
    case CancelCrash(_) => CancelCrashKeeps(y, a);
    case RetryLink(_, _) => RetryLinkKeeps(y, a);
    case RecoverStale(_, _) => RecoverStaleKeeps(y, a);
    case RecoverUnknown(_) => RecoverUnknownKeeps(y, a);
  }

  lemma {:induction false} RunKeepsInv(ys: seq<Sys>, steps: seq<Step>, k: nat)
    requires Run(ys, steps) && Inv(ys[0]) && k < |ys|
    ensures Inv(ys[k])
  {
    hide Inv, Apply, Enabled;
    if k > 0 {
      RunKeepsInv(ys, steps, k - 1);
      StepKeepsInv(ys[k - 1], steps[k - 1]);
    }
  }

  lemma InitInv(clock: int)
    ensures Inv(Init(clock))
  {
  }
}
