/**
 What each operation on a job leaves behind, told in full: when it takes effect, and then the
 status, owner and times of the manifest, the events logged, the leaf and the index entry.
 */
module JobOutcomes {
  import opened Wrappers
  import opened JobModel
  import opened JobProtocol
  import opened JobSafety
  import opened JobService

  /** `kinds` logged one after the other at `now`. */
  function Extended(log: seq<Event>, kinds: seq<EventKind>, now: int): seq<Event> {
    log + seq(|kinds|, i requires 0 <= i < |kinds| => Event(|log| + i + 1, kinds[i], now))
  }

  /**
   Job `id` now has manifest `m` at a later revision, its log has grown by `kinds`, its leaf and
   its one index entry tell the manifest, and no other job has changed.
   */
  ghost predicate Rewritten(s: Store, s': Store, id: JobId, m: Manifest, kinds: seq<EventKind>, now: int) {
    && id in s.manifests && id in s'.manifests && s'.manifests[id].revision > s.manifests[id].revision
    && s'.manifests[id] == m.(lastSeq := |LogOf(s, id)| + |kinds|, updatedAt := now, revision := s'.manifests[id].revision)
    && LogOf(s', id) == Extended(LogOf(s, id), kinds, now)
    && id in s'.leaves && s'.leaves[id].status == m.status && s'.leaves[id].lastSeq == |LogOf(s, id)| + |kinds|
    && (forall x :: x in s'.index <==>
          || x == Summary(id, m.jobType, m.priority, m.scope, m.idem, m.hash, m.status, |LogOf(s, id)| + |kinds|, m.createdAt, now)
          || (x in s.index && x.id != id))
    && s'.manifests == s.manifests[id := s'.manifests[id]] && s'.logs == s.logs[id := LogOf(s', id)]
    && s'.leaves == s.leaves[id := s'.leaves[id]]
  }

  predicate Over(s: Status) {
    s.Succeeded? || s.PartialSuccess? || s.Failed? || s.Cancelled?
  }

  predicate Waits(s: Status) {
    s.Created? || s.Queued? || s.WaitingRetry? || s.Recovering?
  }

  predicate TellsEnd(k: EventKind) {
    k.JobSucceeded? || k.JobPartialSuccess? || k.JobFailed? || k.JobCancelled?
  }

  lemma CommitRewrites(s: Store, m: Manifest, revision: nat, kind: EventKind, now: int)
    requires m.id in s.manifests && revision > s.manifests[m.id].revision
    ensures var log := LogOf(s, m.id);
      Rewritten(s, Commit(s, m.(lastSeq := |log| + 1, updatedAt := now, revision := revision), Logged(log, kind, now)),
                m.id, m, [kind], now)
  {
    hide LeafRevision, SortNewestFirst, Without;
    assert Logged(LogOf(s, m.id), kind, now) == Extended(LogOf(s, m.id), [kind], now);
  }

  /** The status and the event of an ending. */
  predicate EndsAs(o: Outcome, status: Status, kind: EventKind) {
    match o
    case OutSucceeded => status == Succeeded && kind == JobSucceeded
    case OutPartialSuccess => status == PartialSuccess && kind == JobPartialSuccess
    case OutFailed => status == Failed && kind == JobFailed
  }

  lemma CancelRewrites(s: Store, id: JobId, now: int)
    requires id in s.manifests && s.manifests[id].id == id
    ensures Rewritten(s, AfterCancel(s, id, now), id,
                      s.manifests[id].(status := Cancelled, owner := None, finishedAt := Some(now)), [JobCancelled], now)
  {
    hide Rewritten, Commit, Logged;
    var m := s.manifests[id];
    CommitRewrites(s, m.(status := Cancelled, owner := None, finishedAt := Some(now)), m.revision + 2, JobCancelled, now);
  }

  lemma ClaimRewrites(s: Store, id: JobId, lease: Lease, at: int, now: int)
    requires id in s.manifests && s.manifests[id].id == id
    ensures var m := s.manifests[id];
      Rewritten(s, AfterClaim(s, m, lease, at, now), id,
                m.(status := Running, owner := Some(lease), startedAt := if m.startedAt.Some? then m.startedAt else Some(at)),
                [JobStarted], now)
  {
    hide Rewritten, Commit, Logged;
    var m := s.manifests[id];
    CommitRewrites(s, m.(status := Running, owner := Some(lease),
                         startedAt := if m.startedAt.Some? then m.startedAt else Some(at)), m.revision + 2, JobStarted, now);
  }

  lemma MarkRewrites(s: Store, id: JobId, token: Option<Token>, ttl: nat, now: int)
    requires id in s.manifests && s.manifests[id].id == id
    ensures var m := s.manifests[id];
      Rewritten(s, AfterMarkRunning(s, id, token, ttl, now), id,
                m.(status := Running,
                   owner := if token.Some? && m.owner.Some? then Some(m.owner.value.(expiresAt := now + ttl)) else m.owner,
                   startedAt := if m.startedAt.Some? then m.startedAt else Some(now)),
                [JobStarted], now)
  {
    hide Rewritten, Commit, Logged;
    var m := s.manifests[id];
    CommitRewrites(s, m.(status := Running,
                         owner := if token.Some? && m.owner.Some? then Some(m.owner.value.(expiresAt := now + ttl)) else m.owner,
                         startedAt := if m.startedAt.Some? then m.startedAt else Some(now)), m.revision + 2, JobStarted, now);
  }

  lemma FinishRewrites(s: Store, id: JobId, o: Outcome, at: int, now: int, status: Status, kind: EventKind)
    requires id in s.manifests && s.manifests[id].id == id && EndsAs(o, status, kind)
    ensures var m := s.manifests[id];
      Rewritten(s, AfterFinish(s, m, o, at, now), id, m.(status := status, owner := None, finishedAt := Some(at)), [kind], now)
  {
    hide Rewritten, Commit, Logged;
    var m := s.manifests[id];
    CommitRewrites(s, m.(status := status, owner := None, finishedAt := Some(at)), m.revision + 2, kind, now);
  }

  lemma RecoverRewrites(s: Store, id: JobId, now: int)
    requires id in s.manifests && s.manifests[id].id == id
    ensures var m, last := s.manifests[id], LastTerminal(LogOf(s, id));
      match last
      case Some(e) => Rewritten(s, AfterRecoverUnknown(s, id, now), id,
                                m.(status := TerminalStatus(e.kind).value, owner := None, finishedAt := Some(e.at)),
                                [JobRecoveryCompleted], now)
      case None => Rewritten(s, AfterRecoverUnknown(s, id, now), id, m.(status := Recovering, owner := None), [JobRecovering], now)
  {
    hide Rewritten, Commit, Logged, TerminalStatus;
    var m, last := s.manifests[id], LastTerminal(LogOf(s, id));
    if last.Some? {
      CommitRewrites(s, m.(status := TerminalStatus(last.value.kind).value, owner := None, finishedAt := Some(last.value.at)),
                     m.revision + 2, JobRecoveryCompleted, now);
    } else {
      CommitRewrites(s, m.(status := Recovering, owner := None), m.revision + 2, JobRecovering, now);
    }
  }

  /** A cancel ends an unfinished job as cancelled, and leaves a finished one alone. */
  lemma CancelOutcome(y: Sys, id: JobId)
    requires Inv(y) && Enabled(y, Cancel(id))
    ensures var m, y' := y.store.manifests[id], Apply(y, Cancel(id));
      if Over(m.status) then y' == y
      else Rewritten(y.store, y'.store, id, m.(status := Cancelled, owner := None, finishedAt := Some(y.clock)),
                     [JobCancelled], y.clock)
  {
    hide Rewritten, AfterCancel, AfterClaim, AfterMarkRunning, AfterFinish, AfterRecoverUnknown, LastTerminal, Inv;
    IdOfManifest(y, id);
    CancelRewrites(y.store, id, y.clock);
  }

  /**
   A claim takes a queued, created, waiting or recovering job that has no live owner and whose
   scope is free, and leaves it running under the new lease; any other job it leaves alone.
   */
  lemma ClaimOutcome(y: Sys, pid: nat, id: JobId, drawn: Token, instance: nat, ttl: nat, d: nat)
    requires Inv(y) && Enabled(y, ClaimBegin(pid, id, drawn, instance, ttl))
    ensures var m, y1 := y.store.manifests[id], Apply(y, ClaimBegin(pid, id, drawn, instance, ttl));
      if Waits(m.status)
         && (m.owner.None? || m.owner.value.expiresAt <= y.clock)
         && (forall x :: x in y.store.index && x.scope == m.scope && x.id != id ==> Over(x.status))
      then
        var y2 := Apply(y1, Tick(d));
        Enabled(y2, ClaimCommit(pid))
        && Rewritten(y.store, Apply(y2, ClaimCommit(pid)).store, id,
                     m.(status := Running, owner := Some(Lease(instance, drawn, y.clock + ttl)),
                        startedAt := if m.startedAt.Some? then m.startedAt else Some(y.clock)),
                     [JobStarted], y.clock + d)
      else y1 == y
  {
    hide Rewritten, AfterCancel, AfterClaim, AfterMarkRunning, AfterFinish, AfterRecoverUnknown, LastTerminal, Inv;
    IdOfManifest(y, id);
    ClaimRewrites(y.store, id, Lease(instance, drawn, y.clock + ttl), y.clock, y.clock + d);
  }

  /** What lets `mark_job_running` and a finish through: no owner, or the owner's own unexpired lease. */
  predicate Admitted(m: Manifest, token: Option<Token>, instance: nat, now: int) {
    m.owner.None?
    || (m.owner.value.expiresAt > now && m.owner.value.instance == instance && token == Some(m.owner.value.token))
  }

  /** `mark_job_running` sets the job running and, for a token, renews the lease. */
  lemma MarkOutcome(y: Sys, id: JobId, token: Option<Token>, instance: nat, ttl: nat)
    requires Inv(y) && Enabled(y, MarkRunning(id, token, instance, ttl))
    ensures var m, y' := y.store.manifests[id], Apply(y, MarkRunning(id, token, instance, ttl));
      if Over(m.status) || !Admitted(m, token, instance, y.clock) then y' == y
      else Rewritten(y.store, y'.store, id,
                     m.(status := Running,
                        owner := if m.owner.Some? then Some(Lease(m.owner.value.instance, m.owner.value.token, y.clock + ttl)) else None,
                        startedAt := if m.startedAt.Some? then m.startedAt else Some(y.clock)),
                     [JobStarted], y.clock)
  {
    hide Rewritten, AfterCancel, AfterClaim, AfterMarkRunning, AfterFinish, AfterRecoverUnknown, LastTerminal, Inv;
    IdOfManifest(y, id);
    MarkRewrites(y.store, id, token, ttl, y.clock);
  }

  /** A finish that is let through ends the job with the status and the event of its outcome. */
  lemma FinishOutcome(y: Sys, pid: nat, id: JobId, o: Outcome, token: Option<Token>, instance: nat, d: nat,
                      status: Status, kind: EventKind)
    requires Inv(y) && Enabled(y, FinishBegin(pid, id, o, token, instance)) && EndsAs(o, status, kind)
    ensures var m, y1 := y.store.manifests[id], Apply(y, FinishBegin(pid, id, o, token, instance));
      if Over(m.status) || !Admitted(m, token, instance, y.clock) then y1 == y
      else
        var y2 := Apply(y1, Tick(d));
        Enabled(y2, FinishCommit(pid))
        && Rewritten(y.store, Apply(y2, FinishCommit(pid)).store, id,
                     m.(status := status, owner := None, finishedAt := Some(y.clock)), [kind], y.clock + d)
  {
    hide Rewritten, AfterCancel, AfterClaim, AfterMarkRunning, AfterFinish, AfterRecoverUnknown, LastTerminal, Inv;
    IdOfManifest(y, id);
    FinishRewrites(y.store, id, o, y.clock, y.clock + d, status, kind);
  }

  /** A finish that stops after its manifest write ends the manifest alone. */
  lemma FinishCrashOutcome(y: Sys, pid: nat, id: JobId, o: Outcome, token: Option<Token>, instance: nat, d: nat,
                           status: Status, kind: EventKind)
    requires Inv(y) && Enabled(y, FinishBegin(pid, id, o, token, instance)) && EndsAs(o, status, kind)
    requires !Over(y.store.manifests[id].status) && Admitted(y.store.manifests[id], token, instance, y.clock)
    ensures var m := y.store.manifests[id];
      var y2 := Apply(Apply(y, FinishBegin(pid, id, o, token, instance)), Tick(d));
      && Enabled(y2, FinishCrash(pid))
      && Apply(y2, FinishCrash(pid)).store == y.store.(manifests := y.store.manifests[id :=
           m.(status := status, owner := None, finishedAt := Some(y.clock), updatedAt := y.clock, revision := m.revision + 1)])
  {
    hide Commit, Inv;
    IdOfManifest(y, id);
  }

  /**
   A stale running job, with no live owner and silent for `staleAfter` and at least one second,
   becomes one of unknown outcome, with two events; any other job is left alone.
   */
  lemma StaleOutcome(y: Sys, id: JobId, staleAfter: nat)
    requires Inv(y) && Enabled(y, RecoverStale(id, staleAfter))
    ensures var m, y' := y.store.manifests[id], Apply(y, RecoverStale(id, staleAfter));
      if m.status == Running && (m.owner.None? || m.owner.value.expiresAt <= y.clock)
         && y.clock - m.updatedAt >= staleAfter && y.clock - m.updatedAt >= 1
      then Rewritten(y.store, y'.store, id, m.(status := UnknownOutcome, owner := None),
                     [JobRecoveryStarted, JobUnknownOutcome], y.clock)
      else y' == y
  {
    hide LeafRevision, SortNewestFirst, Without, CreatesOk, ClaimsOk, FinishesOk, TokensOk, IndexOk;
    assert RecordOk(y.store, id);
    var log := LogOf(y.store, id);
    assert Logged(Logged(log, JobRecoveryStarted, y.clock), JobUnknownOutcome, y.clock)
           == Extended(log, [JobRecoveryStarted, JobUnknownOutcome], y.clock);
  }

  /** The newest terminal event of a log is its `k`th, and stands for `status`. */
  ghost predicate NewestTerminal(log: seq<Event>, k: nat, status: Status) {
    && k < |log|
    && (|| (log[k].kind == JobSucceeded && status == Succeeded) || (log[k].kind == JobPartialSuccess && status == PartialSuccess)
        || (log[k].kind == JobFailed && status == Failed) || (log[k].kind == JobCancelled && status == Cancelled))
    && forall i :: k < i < |log| ==> !TellsEnd(log[i].kind)
  }

  lemma {:induction false} NewestIsLast(log: seq<Event>, k: nat, status: Status)
    requires NewestTerminal(log, k, status)
    ensures LastTerminal(log) == Some(log[k]) && TerminalStatus(log[k].kind) == Some(status)
  {
    if k < |log| - 1 {
      NewestIsLast(log[..|log| - 1], k, status);
    }
  }

  lemma NoneIsLast(log: seq<Event>)
    requires forall e :: e in log ==> !TellsEnd(e.kind)
    ensures LastTerminal(log).None?
  {
  }

  /** A job of unknown outcome takes the outcome, and the time, of its newest terminal event. */
  lemma UnknownOutcomeEnds(y: Sys, id: JobId, k: nat, status: Status)
    requires Inv(y) && Enabled(y, RecoverUnknown(id)) && y.store.manifests[id].status == UnknownOutcome
    requires NewestTerminal(LogOf(y.store, id), k, status)
    ensures var m := y.store.manifests[id];
      Rewritten(y.store, Apply(y, RecoverUnknown(id)).store, id,
                m.(status := status, owner := None, finishedAt := Some(LogOf(y.store, id)[k].at)), [JobRecoveryCompleted], y.clock)
  {
    hide Rewritten, AfterCancel, AfterClaim, AfterMarkRunning, AfterFinish, AfterRecoverUnknown, LastTerminal, Inv, NewestTerminal, LogOf, TerminalStatus;
    NewestIsLast(LogOf(y.store, id), k, status);
    IdOfManifest(y, id);
    RecoverRewrites(y.store, id, y.clock);
  }

  /** Without such an event it goes on as recovering. */
  lemma UnknownOutcomeGoesOn(y: Sys, id: JobId)
    requires Inv(y) && Enabled(y, RecoverUnknown(id)) && y.store.manifests[id].status == UnknownOutcome
    requires forall e :: e in LogOf(y.store, id) ==> !TellsEnd(e.kind)
    ensures Rewritten(y.store, Apply(y, RecoverUnknown(id)).store, id,
                      y.store.manifests[id].(status := Recovering, owner := None), [JobRecovering], y.clock)
  {
    hide Rewritten, AfterCancel, AfterClaim, AfterMarkRunning, AfterFinish, AfterRecoverUnknown, LastTerminal, Inv, NewestTerminal, LogOf, TerminalStatus;
    NoneIsLast(LogOf(y.store, id));
    IdOfManifest(y, id);
    RecoverRewrites(y.store, id, y.clock);
  }

  /** The recovery of a job whose outcome is not unknown changes nothing. */
  lemma KnownOutcomeStays(y: Sys, id: JobId)
    requires Enabled(y, RecoverUnknown(id)) && y.store.manifests[id].status != UnknownOutcome
    ensures Apply(y, RecoverUnknown(id)) == y
  {
  }

  // ----- claim order and index order -----

  /** A claim that may take jobs of these types, or of all types if none is named, may take the job of entry `x`. */
  ghost predicate MayTake(s: Store, x: Summary, types: set<nat>, now: int) {
    && x in s.index && (types != {} ==> x.jobType in types) && Waits(x.status)
    && x.id in s.manifests
    && var m := s.manifests[x.id];
      && Waits(m.status) && (m.owner.None? || m.owner.value.expiresAt <= now)
      && forall z :: z in s.index && z.scope == m.scope && z.id != x.id ==> Over(z.status)
  }

  /** `e` may be claimed, and comes first of all that may. */
  ghost predicate ClaimedFirst(s: Store, e: Summary, types: set<nat>, now: int) {
    && MayTake(s, e, types, now)
    && forall x :: MayTake(s, x, types, now) ==>
         && (x.priority == High ==> e.priority == High) && (e.priority == Low ==> x.priority == Low)
         && (x.priority == e.priority ==> e.createdAt <= x.createdAt)
  }

  /** High before normal before low, and among equals the oldest first. */
  lemma ClaimOrder(s: Store, types: set<nat>, now: int)
    ensures match NextClaim(s, types, now)
      case None => forall x :: !MayTake(s, x, types, now)
      case Some(e) => ClaimedFirst(s, e, types, now)
  {
    hide NextClaim;
    NextClaimIsBest(s, types, now);
    forall x ensures MayTake(s, x, types, now) <==> Eligible(s, x, types, now) {
    }
  }

  /** An index after an upsert lists the job last updated first, and of jobs updated together the one created last. */
  lemma IndexOrder(index: seq<Summary>, e: Summary, i: nat, j: nat)
    requires DistinctIds(index) && i < j < |Upsert(index, e)|
    ensures var r := Upsert(index, e);
      r[i].updatedAt >= r[j].updatedAt && (r[i].updatedAt == r[j].updatedAt ==> r[i].createdAt >= r[j].createdAt)
  {
    UpsertEffect(index, e);
  }

  /** What the index answers a create: the job of its key if the request is the same, else the job that holds its scope. */
  lemma AnswerFromIndex(index: seq<Summary>, r: Request, x: Summary)
    requires UniqueIdem(index) && Exclusive(index) && x in index
    ensures x.idem == r.idem ==>
      match CreateAnswer(index, r)
      case Some(Ok(id)) => id == x.id && exists z :: z in index && z.id == x.id && z.idem == r.idem && z.hash == r.hash
      case Some(Err(e)) => e == IdempotencyConflict && exists z :: z in index && z.id == x.id && z.idem == r.idem && z.hash != r.hash
      case None => false
    ensures x.scope == r.scope && !Over(x.status) && (forall z :: z in index ==> z.idem != r.idem) ==>
      CreateAnswer(index, r) == Some(Err(ScopeConflict(x.id)))
  {
  }
}
