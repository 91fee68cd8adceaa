/** What every run of the job protocol keeps. */
module JobSafety {
  import opened Wrappers
  import opened JobModel
  import opened JobProtocol

  // ----- exclusivity -----

  /** At most one job of a target scope, indexed or not, has a live lease. */
  ghost predicate OneLiveLeasePerScope(y: Sys) {
    forall i, j :: (i in y.store.manifests && j in y.store.manifests
                    && OwnerLive(y.store.manifests[i], y.clock) && OwnerLive(y.store.manifests[j], y.clock)
                    && y.store.manifests[i].scope == y.store.manifests[j].scope) ==> i == j
  }

  ghost predicate OwnersOnlyOnRunning(s: Store) {
    forall id :: id in s.manifests && s.manifests[id].owner.Some? ==> s.manifests[id].status.Running?
  }

  lemma InvGivesOneLease(y: Sys)
    requires Inv(y)
    ensures OneLiveLeasePerScope(y) && OwnersOnlyOnRunning(y.store)
  {
    var s := y.store;
    forall id | id in s.manifests && s.manifests[id].owner.Some?
      ensures s.manifests[id].status.Running?
      ensures exists e :: e in s.index && e.id == id && Agrees(e, s.manifests[id])
    {
      assert RecordOk(s, id);
      assert Indexed(s, id);
      var e :| e in s.index && e.id == id;
      assert Agrees(e, s.manifests[id]);
    }
  }

  /** The safety theorem: in every state of every run, scopes and idempotency keys are exclusive. */
  lemma ScopeExclusivity(ys: seq<Sys>, steps: seq<Step>, clock: int, k: nat)
    requires Run(ys, steps) && ys[0] == Init(clock) && k < |ys|
    ensures Exclusive(ys[k].store.index) && UniqueIdem(ys[k].store.index) && DistinctIds(ys[k].store.index)
    ensures OwnersOnlyOnRunning(ys[k].store)
    ensures OneLiveLeasePerScope(ys[k])
  {
    InitInv(clock);
    RunKeepsInv(ys, steps, k);
    InvGivesOneLease(ys[k]);
  }

  // ----- which job a step touches -----

  /** The job whose records a step may change. */
  function Target(y: Sys, a: Step): Option<JobId> {
    match a
    case CreateBegin(_, id, _) => Some(id)
    case ClaimCommit(pid) => if pid in y.claims then Some(y.claims[pid].read.id) else None
    case FinishCommit(pid) => if pid in y.finishes then Some(y.finishes[pid].read.id) else None
    case FinishCrash(pid) => if pid in y.finishes then Some(y.finishes[pid].read.id) else None
    case MarkRunning(id, _, _, _) => Some(id)
    case Cancel(id) => Some(id)
    case CancelCrash(id) => Some(id)
    case RetryLink(id, _) => Some(id)
    case RecoverStale(id, _) => Some(id)
    case RecoverUnknown(id) => Some(id)
    case _ => None
  }

  predicate SameRecords(s: Store, s': Store, id: JobId)
    requires id in s.manifests
  {
    && id in s'.manifests && s'.manifests[id] == s.manifests[id]
    && LogOf(s', id) == LogOf(s, id)
    && (id in s.leaves ==> id in s'.leaves && s'.leaves[id] == s.leaves[id])
  }

  lemma DirectFrame(y: Sys, a: Step, id: JobId)
    requires StoreOk(y.store) && Enabled(y, a) && id in y.store.manifests && Target(y, a) != Some(id)
    requires a.MarkRunning? || a.Cancel? || a.CancelCrash? || a.RetryLink?
    ensures SameRecords(y.store, Apply(y, a).store, id)
  {
    assert RecordOk(y.store, a.id);
  }

  lemma RecoverFrame(y: Sys, a: Step, id: JobId)
    requires StoreOk(y.store) && Enabled(y, a) && id in y.store.manifests && Target(y, a) != Some(id)
    requires a.RecoverStale? || a.RecoverUnknown?
    ensures SameRecords(y.store, Apply(y, a).store, id)
  {
    assert RecordOk(y.store, a.id);
  }

  lemma StepFrame(y: Sys, a: Step, id: JobId)
    requires StoreOk(y.store) && Enabled(y, a) && id in y.store.manifests && Target(y, a) != Some(id)
    ensures SameRecords(y.store, Apply(y, a).store, id)
  {
    if a.MarkRunning? || a.Cancel? || a.CancelCrash? || a.RetryLink? {
      DirectFrame(y, a, id);
    } else if a.RecoverStale? || a.RecoverUnknown? {
      RecoverFrame(y, a, id);
    }
  }

  // ----- terminal statuses are absorbing -----

  /** A terminal job's manifest up to its retry link, its log and its leaf no longer change. */
  ghost predicate Frozen(s: Store, s': Store, id: JobId)
    requires id in s.manifests
  {
    && id in s'.manifests && id in s.logs && id in s'.logs && id in s.leaves && id in s'.leaves
    && s'.manifests[id].(retryOf := s.manifests[id].retryOf, revision := s.manifests[id].revision) == s.manifests[id]
    && s'.logs[id] == s.logs[id]
    && s'.leaves[id] == s.leaves[id]
  }

  /** A pending claim or finish of a job that has ended finds its revision gone. */
  lemma TerminalCommits(y: Sys, a: Step, id: JobId)
    requires Inv(y) && Enabled(y, a) && id in y.store.manifests && Terminal(y.store.manifests[id].status)
    requires Target(y, a) == Some(id) && (a.ClaimCommit? || a.FinishCommit? || a.FinishCrash?)
    ensures Apply(y, a).store == y.store
  {
    hide StoreOk, CreatesOk, TokensOk, AfterClaim, AfterFinish, AfterFinishCrash;
    if a.ClaimCommit? {
      assert ReadOk(y.store, y.claims[a.pid].read);
    } else {
      assert ReadOk(y.store, y.finishes[a.pid].read);
    }
  }

  lemma TerminalStep(y: Sys, a: Step, id: JobId)
    requires Inv(y) && Enabled(y, a) && id in y.store.manifests && Terminal(y.store.manifests[id].status)
    ensures Frozen(y.store, Apply(y, a).store, id)
  {
    hide Upsert, LastTerminalStatus, Cut, OnlyCancelled, Numbered, CreatesOk, ClaimsOk, FinishesOk, TokensOk;
    assert RecordOk(y.store, id);
    if Target(y, a) != Some(id) {
      StepFrame(y, a, id);
    } else if a.ClaimCommit? || a.FinishCommit? || a.FinishCrash? {
      TerminalCommits(y, a, id);
    }
  }

  lemma {:induction false} TerminalAbsorbing(ys: seq<Sys>, steps: seq<Step>, clock: int, i: nat, j: nat, id: JobId)
    requires Run(ys, steps) && ys[0] == Init(clock) && i <= j < |ys|
    requires id in ys[i].store.manifests && Terminal(ys[i].store.manifests[id].status)
    ensures Frozen(ys[i].store, ys[j].store, id)
  {
    InitInv(clock);
    RunKeepsInv(ys, steps, i);
    assert RecordOk(ys[i].store, id);
    if i < j {
      TerminalAbsorbing(ys, steps, clock, i, j - 1, id);
      RunKeepsInv(ys, steps, j - 1);
      TerminalStep(ys[j - 1], steps[j - 1], id);
    }
  }

  // ----- the log -----

  function TerminalEvents(log: seq<Event>): nat {
    if log == [] then 0
    else TerminalEvents(log[..|log| - 1]) + if TerminalStatus(log[|log| - 1].kind).Some? then 1 else 0
  }

  lemma TerminalEventsLogged(log: seq<Event>, kind: EventKind, now: int)
    ensures TerminalEvents(Logged(log, kind, now)) ==
            TerminalEvents(log) + if TerminalStatus(kind).Some? then 1 else 0
  {
    var l := Logged(log, kind, now);
    assert l[..|l| - 1] == log;
  }

  lemma {:induction false} NoTerminalEvents(log: seq<Event>)
    ensures TerminalEvents(log) == 0 <==> LastTerminal(log).None?
  {
    if log != [] {
      NoTerminalEvents(log[..|log| - 1]);
    }
  }

  ghost predicate Live(s: Store, id: JobId) {
    id in s.manifests && !Terminal(s.manifests[id].status) && Indexed(s, id)
  }

  /** A cancel of an unfinished job that stops after its event append. */
  predicate CrashesCancel(y: Sys, a: Step, id: JobId) {
    a == CancelCrash(id) && id in y.store.manifests && !Terminal(y.store.manifests[id].status)
  }

  /** A finish that stops after its manifest write, which took effect. */
  predicate CrashesFinish(y: Sys, a: Step, id: JobId) {
    && a.FinishCrash? && a.pid in y.finishes && y.finishes[a.pid].read.id == id
    && id in y.store.manifests && y.store.manifests[id].revision == y.finishes[a.pid].read.revision
  }

  /** A step that ends the job and says so in its log: a recovery ends it on a terminal event already there. */
  ghost predicate EndsWithEvent(y: Sys, a: Step, id: JobId)
    requires Enabled(y, a)
  {
    && !a.RecoverUnknown? && !a.FinishCrash? && id in y.store.manifests && !Terminal(y.store.manifests[id].status)
    && id in Apply(y, a).store.manifests && Terminal(Apply(y, a).store.manifests[id].status)
  }

  /** The terminal events a step adds to a job's log. */
  ghost function TerminalEventsAdded(y: Sys, a: Step, id: JobId): nat
    requires Enabled(y, a)
  {
    (if CrashesCancel(y, a, id) then 1 else 0) + if EndsWithEvent(y, a, id) then 1 else 0
  }

  /** What a write of one job as a whole leaves: `s'` has job `id` with some status and its log one or two events longer. */
  ghost predicate Leaves(s': Store, id: JobId, terminal: bool, events: nat) {
    id in s'.manifests && Terminal(s'.manifests[id].status) == terminal && TerminalEvents(LogOf(s', id)) == events
  }

  lemma WorkLogs(s: Store, m: Manifest, log: seq<Event>, kind: EventKind, now: int)
    ensures Leaves(Commit(s, m, Logged(log, kind, now)), m.id, Terminal(m.status),
                   TerminalEvents(log) + if TerminalStatus(kind).Some? then 1 else 0)
  {
    TerminalEventsLogged(log, kind, now);
  }

  lemma StaleLogs(s: Store, id: JobId, now: int)
    requires id in s.manifests && s.manifests[id].id == id
    ensures Leaves(AfterStale(s, id, now), id, false, TerminalEvents(LogOf(s, id)))
  {
    hide TerminalEvents, Upsert;
    var log := LogOf(s, id);
    TerminalEventsLogged(log, JobRecoveryStarted, now);
    TerminalEventsLogged(Logged(log, JobRecoveryStarted, now), JobUnknownOutcome, now);
  }

  lemma RecoverUnknownLogs(s: Store, id: JobId, now: int)
    requires id in s.manifests && s.manifests[id].id == id
    ensures Leaves(AfterRecoverUnknown(s, id, now), id, LastTerminal(LogOf(s, id)).Some?, TerminalEvents(LogOf(s, id)))
  {
    hide TerminalEvents, Upsert, LastTerminal;
    TerminalEventsLogged(LogOf(s, id), JobRecoveryCompleted, now);
    TerminalEventsLogged(LogOf(s, id), JobRecovering, now);
  }

  lemma DirectLogs(s: Store, id: JobId, token: Option<Token>, ttl: nat, now: int)
    requires id in s.manifests && s.manifests[id].id == id
    ensures Leaves(AfterMarkRunning(s, id, token, ttl, now), id, false, TerminalEvents(LogOf(s, id)))
    ensures Leaves(AfterCancel(s, id, now), id, true, TerminalEvents(LogOf(s, id)) + 1)
    ensures Leaves(AfterCancelCrash(s, id, now), id, Terminal(s.manifests[id].status), TerminalEvents(LogOf(s, id)) + 1)
  {
    hide TerminalEvents, Upsert;
    TerminalEventsLogged(LogOf(s, id), JobStarted, now);
    TerminalEventsLogged(LogOf(s, id), JobCancelled, now);
  }

  lemma CrashLogs(s: Store, read: Manifest, o: Outcome, at: int)
    ensures Leaves(AfterFinishCrash(s, read, o, at), read.id, true, TerminalEvents(LogOf(s, read.id)))
  {
  }

  lemma CommitLogs(y: Sys, a: Step, id: JobId)
    requires Inv(y) && Enabled(y, a) && id in y.store.manifests && Target(y, a) == Some(id)
    requires a.ClaimCommit? || a.FinishCommit? || a.FinishCrash?
    ensures var s := y.store;
      || Apply(y, a).store == s
      || (!Terminal(s.manifests[id].status)
          && Leaves(Apply(y, a).store, id, !a.ClaimCommit?, TerminalEvents(LogOf(s, id)) + if a.FinishCommit? then 1 else 0))
  {
    hide TerminalEvents, Upsert, Leaves, StoreOk, CreatesOk, TokensOk;
    var log := LogOf(y.store, id);
    if a.ClaimCommit? {
      var p := y.claims[a.pid];
      assert ReadOk(y.store, p.read);
      WorkLogs(y.store, p.read.(status := Running, owner := Some(p.lease), lastSeq := |log| + 1,
                                startedAt := if p.read.startedAt.Some? then p.read.startedAt else Some(p.at),
                                updatedAt := y.clock, revision := p.read.revision + 2), log, JobStarted, y.clock);
    } else {
      var p := y.finishes[a.pid];
      assert ReadOk(y.store, p.read);
      CrashLogs(y.store, p.read, p.outcome, p.at);
      WorkLogs(y.store, p.read.(status := OutcomeStatus(p.outcome), owner := None, lastSeq := |log| + 1,
                                finishedAt := Some(p.at), updatedAt := y.clock, revision := p.read.revision + 2),
               log, OutcomeKind(p.outcome), y.clock);
    }
  }

  lemma IdOfManifest(y: Sys, id: JobId)
    requires Inv(y) && id in y.store.manifests
    ensures y.store.manifests[id].id == id
  {
    assert RecordOk(y.store, id);
  }

  lemma SameIdStays(s: Store, s': Store, id: JobId)
    requires id in s.manifests && SameRecords(s, s', id)
    ensures Leaves(s', id, Terminal(s.manifests[id].status), TerminalEvents(LogOf(s, id)))
  {
  }

  /** A step adds a terminal event to a job's log exactly if it ends the job with one or is a crashed cancel of it. */
  lemma StepLogs(y: Sys, a: Step, id: JobId)
    requires Inv(y) && Enabled(y, a) && id in y.store.manifests
    ensures id in Apply(y, a).store.manifests
    ensures TerminalEvents(LogOf(Apply(y, a).store, id)) == TerminalEvents(LogOf(y.store, id)) + TerminalEventsAdded(y, a, id)
  {
    hide TerminalEvents, LogOf, AfterClaim, AfterFinish, AfterFinishCrash, AfterMarkRunning, AfterCancel, AfterCancelCrash,
         AfterStale, AfterRecoverUnknown, SameRecords, Inv;
    IdOfManifest(y, id);
    var s := y.store;
    if Target(y, a) != Some(id) {
      assert StoreOk(s) by { StoreIsOk(y); }
      StepFrame(y, a, id);
      SameIdStays(s, Apply(y, a).store, id);
    } else if a.ClaimCommit? || a.FinishCommit? || a.FinishCrash? {
      CommitLogs(y, a, id);
    } else if a.RecoverStale? {
      StaleLogs(s, id, y.clock);
    } else if a.RecoverUnknown? {
      RecoverUnknownLogs(s, id, y.clock);
    } else if a.MarkRunning? {
      DirectLogs(s, id, a.token, a.ttl, y.clock);
    } else {
      DirectLogs(s, id, None, 0, y.clock);
      LinkLogs(s, id);
    }
  }

  lemma StoreIsOk(y: Sys)
    requires Inv(y)
    ensures StoreOk(y.store)
  {
  }

  lemma LinkLogs(s: Store, id: JobId)
    requires id in s.manifests && s.manifests[id].id == id
    ensures forall of_ :: Leaves(AfterRetryLink(s, id, of_), id, Terminal(s.manifests[id].status), TerminalEvents(LogOf(s, id)))
  {
    hide Upsert;
  }

  lemma NewJobLogs(y: Sys, a: Step, id: JobId)
    requires Inv(y) && Enabled(y, a) && id !in y.store.manifests && id in Apply(y, a).store.manifests
    ensures TerminalEvents(LogOf(Apply(y, a).store, id)) == 0 && !Terminal(Apply(y, a).store.manifests[id].status)
  {
    hide TerminalEvents, Upsert, Inv;
    if a.CreateBegin? && a.id == id {
      TerminalEventsLogged([], JobCreated, y.clock);
      TerminalEventsLogged(Logged([], JobCreated, y.clock), JobQueued, y.clock);
      assert Apply(y, a).store.logs[id] == Logged(Logged([], JobCreated, y.clock), JobQueued, y.clock);
      NothingLogged();
    } else {
      IdsOnlyCreated(y, a, id);
      assert false;
    }
  }

  lemma NothingLogged()
    ensures TerminalEvents([]) == 0
  {
  }

  lemma IdsOnlyCreated(y: Sys, a: Step, id: JobId)
    requires Inv(y) && Enabled(y, a) && id !in y.store.manifests && !(a.CreateBegin? && a.id == id)
    ensures id !in Apply(y, a).store.manifests
  {
    hide Upsert, IndexOk, CreatesOk, ClaimsOk, FinishesOk, TokensOk, LastTerminal;
    if a.MarkRunning? || a.Cancel? || a.CancelCrash? || a.RetryLink? || a.RecoverStale? || a.RecoverUnknown? {
      IdOfManifest(y, a.id);
    }
  }

  /** How many of the first `k` steps were crashed cancels of the job. */
  ghost function Crashes(ys: seq<Sys>, steps: seq<Step>, k: nat, id: JobId): nat
    requires Run(ys, steps) && k < |ys|
  {
    if k == 0 then 0 else Crashes(ys, steps, k - 1, id) + if CrashesCancel(ys[k - 1], steps[k - 1], id) then 1 else 0
  }

  /** How many of the first `k` steps ended the job with an event. */
  ghost function Endings(ys: seq<Sys>, steps: seq<Step>, k: nat, id: JobId): nat
    requires Run(ys, steps) && k < |ys|
  {
    if k == 0 then 0
    else
      assert steps[k - 1] == steps[k - 1];
      Endings(ys, steps, k - 1, id) + if EndsWithEvent(ys[k - 1], steps[k - 1], id) then 1 else 0
  }

  /** A job's terminal events: one for each crashed cancel, and one if an event ended it, which happens once. */
  lemma {:induction false} TerminalEventsCounted(ys: seq<Sys>, steps: seq<Step>, clock: int, k: nat, id: JobId)
    requires Run(ys, steps) && ys[0] == Init(clock) && k < |ys|
    ensures id in ys[k].store.manifests ==>
      && TerminalEvents(LogOf(ys[k].store, id)) == Crashes(ys, steps, k, id) + Endings(ys, steps, k, id)
      && Endings(ys, steps, k, id) <= (if Terminal(ys[k].store.manifests[id].status) then 1 else 0)
    ensures id !in ys[k].store.manifests ==> Crashes(ys, steps, k, id) == 0 && Endings(ys, steps, k, id) == 0
  {
    hide TerminalEvents, EndsWithEvent, Apply, Enabled, Inv;
    if k > 0 {
      TerminalEventsCounted(ys, steps, clock, k - 1, id);
      InitInv(clock);
      RunKeepsInv(ys, steps, k - 1);
      var y, a := ys[k - 1], steps[k - 1];
      assert ys[k] == Apply(y, a);
      if id in y.store.manifests {
        StepLogs(y, a, id);
        EndingsOnce(y, a, id);
      } else {
        NoEndingOfUnknown(y, a, id);
        if id in ys[k].store.manifests {
          NewJobLogs(y, a, id);
        }
      }
    }
  }

  lemma EndingsOnce(y: Sys, a: Step, id: JobId)
    requires Inv(y) && Enabled(y, a) && id in y.store.manifests
    ensures id in Apply(y, a).store.manifests
    ensures EndsWithEvent(y, a, id) ==>
      !Terminal(y.store.manifests[id].status) && Terminal(Apply(y, a).store.manifests[id].status)
    ensures Terminal(y.store.manifests[id].status) ==> Terminal(Apply(y, a).store.manifests[id].status)
  {
    hide Apply, Enabled, Inv;
    StepLogs(y, a, id);
    if Terminal(y.store.manifests[id].status) {
      TerminalStep(y, a, id);
    }
  }

  lemma NoEndingOfUnknown(y: Sys, a: Step, id: JobId)
    requires Enabled(y, a) && id !in y.store.manifests
    ensures !EndsWithEvent(y, a, id) && !CrashesCancel(y, a, id)
  {
  }

  /** The log holds exactly one terminal event, of the matching type, if the job is terminal, and else none. */
  ghost predicate Matches(s: Store, id: JobId)
    requires id in s.manifests
  {
    var status, log := s.manifests[id].status, LogOf(s, id);
    && TerminalEvents(log) == (if Terminal(status) then 1 else 0)
    && (Terminal(status) ==> LastTerminalStatus(log) == Some(status))
  }

  /** A step that parts a job from its log. */
  predicate Breaks(y: Sys, a: Step, id: JobId) {
    CrashesCancel(y, a, id) || CrashesFinish(y, a, id)
  }

  /** A step from a state where a job matches its log keeps the match exactly unless it is a crashed cancel or finish of it. */
  lemma StepKeepsMatch(y: Sys, a: Step, id: JobId)
    requires Inv(y) && Enabled(y, a) && id in y.store.manifests && Matches(y.store, id)
    ensures id in Apply(y, a).store.manifests
    ensures Matches(Apply(y, a).store, id) <==> !Breaks(y, a, id)
  {
    hide Inv, Apply, Enabled, TerminalEvents, LastTerminalStatus, LogOf, Cut;
    StepLogs(y, a, id);
    EndingsOnce(y, a, id);
    StepKeepsInv(y, a);
    CutStep(y, a, id);
    NewestUnlessCut(y, id);
    NewestUnlessCut(Apply(y, a), id);
    CrashEffects(y, a, id);
  }

  lemma CrashEffects(y: Sys, a: Step, id: JobId)
    requires Inv(y) && Enabled(y, a) && id in y.store.manifests && id in Apply(y, a).store.manifests
    ensures CrashesCancel(y, a, id) ==> !Terminal(Apply(y, a).store.manifests[id].status)
    ensures CrashesFinish(y, a, id) ==> !Terminal(y.store.manifests[id].status) && Terminal(Apply(y, a).store.manifests[id].status)
    ensures !Terminal(y.store.manifests[id].status) && Terminal(Apply(y, a).store.manifests[id].status) ==>
      EndsWithEvent(y, a, id) || a.RecoverUnknown? || CrashesFinish(y, a, id)
  {
    hide Upsert, StoreOk, CreatesOk, ClaimsOk, TokensOk;
    IdOfManifest(y, id);
    if a.FinishCrash? {
      assert ReadOk(y.store, y.finishes[a.pid].read);
    }
  }

  /** A terminal status is that of the newest terminal event exactly unless the job was cut. */
  lemma NewestUnlessCut(y: Sys, id: JobId)
    requires Inv(y) && id in y.store.manifests
    ensures Terminal(y.store.manifests[id].status) ==>
      (LastTerminalStatus(LogOf(y.store, id)) == Some(y.store.manifests[id].status) <==> !Cut(y.store, id))
    ensures Cut(y.store, id) ==> Terminal(y.store.manifests[id].status)
    ensures LastTerminalStatus(LogOf(y.store, id)).Some? <==> TerminalEvents(LogOf(y.store, id)) > 0
    ensures y.store.manifests[id].lastSeq == |LogOf(y.store, id)|
  {
    assert RecordOk(y.store, id);
    NoTerminalEvents(LogOf(y.store, id));
  }

  /** Manifest and leaf of a job tell the same status. */
  predicate LeafTells(s: Store, id: JobId) {
    id in s.manifests && id in s.leaves && s.leaves[id].status == s.manifests[id].status
  }

  /** A commit of an unfinished job leaves manifest and leaf alike, a crashed finish only the manifest ended. */
  lemma CutByCommit(y: Sys, a: Step, id: JobId)
    requires Inv(y) && Enabled(y, a) && id in y.store.manifests && !Terminal(y.store.manifests[id].status)
    requires Target(y, a) == Some(id) && (a.ClaimCommit? || a.FinishCommit? || a.FinishCrash?)
    ensures if CrashesFinish(y, a, id) then Cut(Apply(y, a).store, id) else LeafTells(Apply(y, a).store, id)
  {
    hide Upsert, CreatesOk, TokensOk, LastTerminalStatus, OnlyCancelled, Numbered, LeafRevision;
    assert RecordOk(y.store, id);
    if a.ClaimCommit? {
      assert ReadOk(y.store, y.claims[a.pid].read);
    } else {
      assert ReadOk(y.store, y.finishes[a.pid].read);
    }
  }

  lemma CutByOther(y: Sys, a: Step, id: JobId)
    requires Inv(y) && Enabled(y, a) && id in y.store.manifests && !Terminal(y.store.manifests[id].status)
    requires Target(y, a) == Some(id) && !a.ClaimCommit? && !a.FinishCommit? && !a.FinishCrash?
    ensures LeafTells(Apply(y, a).store, id)
  {
    hide Upsert, CreatesOk, ClaimsOk, FinishesOk, TokensOk, LastTerminal, OnlyCancelled, Numbered, LeafRevision;
    assert RecordOk(y.store, id);
  }

  /** A job is cut by a crashed finish, and once cut stays so. */
  lemma CutStep(y: Sys, a: Step, id: JobId)
    requires Inv(y) && Enabled(y, a) && id in y.store.manifests
    ensures Cut(Apply(y, a).store, id) <==> Cut(y.store, id) || CrashesFinish(y, a, id)
  {
    hide Apply, Enabled, Inv;
    if Terminal(y.store.manifests[id].status) {
      TerminalStep(y, a, id);
      CrashedWasUnfinished(y, a, id);
    } else if Target(y, a) != Some(id) {
      assert StoreOk(y.store) by { StoreIsOk(y); }
      StepFrame(y, a, id);
      LeafOfUnfinished(y, id);
    } else if a.ClaimCommit? || a.FinishCommit? || a.FinishCrash? {
      CutByCommit(y, a, id);
    } else {
      CutByOther(y, a, id);
    }
  }

  lemma LeafOfUnfinished(y: Sys, id: JobId)
    requires Inv(y) && id in y.store.manifests
    ensures id in y.store.leaves
  {
    assert RecordOk(y.store, id);
  }

  lemma CrashedWasUnfinished(y: Sys, a: Step, id: JobId)
    requires Inv(y) && id in y.store.manifests
    ensures CrashesFinish(y, a, id) ==> !Terminal(y.store.manifests[id].status)
  {
    if CrashesFinish(y, a, id) {
      assert ReadOk(y.store, y.finishes[a.pid].read);
    }
  }

  /**
   After any run an unfinished job matches its log exactly when no cancel of it crashed, and a
   finished one exactly when it was not cut and one event says so in all.
   */
  lemma MatchesNow(ys: seq<Sys>, steps: seq<Step>, clock: int, k: nat, id: JobId)
    requires Run(ys, steps) && ys[0] == Init(clock) && k < |ys| && id in ys[k].store.manifests
    ensures Matches(ys[k].store, id) <==>
            if Terminal(ys[k].store.manifests[id].status)
            then !Cut(ys[k].store, id) && Crashes(ys, steps, k, id) + Endings(ys, steps, k, id) == 1
            else Crashes(ys, steps, k, id) == 0
    ensures ys[k].store.manifests[id].lastSeq == |LogOf(ys[k].store, id)|
  {
    hide Inv, Cut, LastTerminalStatus, LogOf;
    InitInv(clock);
    RunKeepsInv(ys, steps, k);
    TerminalEventsCounted(ys, steps, clock, k, id);
    NewestUnlessCut(ys[k], id);
  }

  lemma NewJobMatches(y: Sys, a: Step, id: JobId)
    requires Inv(y) && Enabled(y, a) && id !in y.store.manifests
    ensures id in Apply(y, a).store.manifests ==> Matches(Apply(y, a).store, id)
    ensures !Breaks(y, a, id)
  {
    hide Inv, Apply, Enabled, TerminalEvents, LogOf;
    if id in Apply(y, a).store.manifests {
      NewJobLogs(y, a, id);
    }
  }

  /**
   Whatever other jobs go through, a job matches its log in every state of a run exactly when
   no cancel and no finish of it crashed.
   */
  lemma {:induction false} TerminalMatchesLog(ys: seq<Sys>, steps: seq<Step>, clock: int, k: nat, id: JobId)
    requires Run(ys, steps) && ys[0] == Init(clock) && k < |ys|
    ensures (forall j :: 0 <= j <= k && id in ys[j].store.manifests ==> Matches(ys[j].store, id))
            <==> (forall i :: 0 <= i < k ==> !Breaks(ys[i], steps[i], id))
  {
    hide Matches, Breaks, Apply, Enabled, Inv;
    if k > 0 {
      TerminalMatchesLog(ys, steps, clock, k - 1, id);
      InitInv(clock);
      RunKeepsInv(ys, steps, k - 1);
      var y, a := ys[k - 1], steps[k - 1];
      assert ys[k] == Apply(y, a);
      if id !in y.store.manifests {
        NewJobMatches(y, a, id);
      } else if Matches(y.store, id) {
        StepKeepsMatch(y, a, id);
      }
    }
  }

  /** A terminal status is that of the newest terminal event exactly unless a finish of the job crashed. */
  lemma TerminalIsNewestEvent(ys: seq<Sys>, steps: seq<Step>, clock: int, k: nat, id: JobId)
    requires Run(ys, steps) && ys[0] == Init(clock) && k < |ys| && id in ys[k].store.manifests
    requires Terminal(ys[k].store.manifests[id].status)
    ensures LastTerminalStatus(LogOf(ys[k].store, id)) == Some(ys[k].store.manifests[id].status)
            <==> forall i :: 0 <= i < k ==> !CrashesFinish(ys[i], steps[i], id)
  {
    hide Inv, Cut, LastTerminalStatus, LogOf;
    InitInv(clock);
    RunKeepsInv(ys, steps, k);
    NewestUnlessCut(ys[k], id);
    CutIff(ys, steps, clock, k, id);
  }

  /** A job is cut exactly when a finish of it crashed. */
  lemma {:induction false} CutIff(ys: seq<Sys>, steps: seq<Step>, clock: int, k: nat, id: JobId)
    requires Run(ys, steps) && ys[0] == Init(clock) && k < |ys|
    ensures Cut(ys[k].store, id) <==> exists i :: 0 <= i < k && CrashesFinish(ys[i], steps[i], id)
  {
    hide Inv, Apply, Enabled, CrashesFinish;
    if k > 0 {
      CutIff(ys, steps, clock, k - 1, id);
      InitInv(clock);
      RunKeepsInv(ys, steps, k - 1);
      var y, a := ys[k - 1], steps[k - 1];
      assert ys[k] == Apply(y, a);
      if id in y.store.manifests {
        CutStep(y, a, id);
      } else {
        NewJobNotCut(y, a, id);
      }
    }
  }

  lemma NewJobNotCut(y: Sys, a: Step, id: JobId)
    requires Inv(y) && Enabled(y, a) && id !in y.store.manifests
    ensures !Cut(Apply(y, a).store, id) && !CrashesFinish(y, a, id) && !Cut(y.store, id)
  {
    hide Inv, Apply, Enabled, TerminalEvents, LogOf;
    if id in Apply(y, a).store.manifests {
      NewJobLogs(y, a, id);
    }
  }

  // ----- the index and the scope of a cut job -----

  /** A job that has ended while its index entry says it has not. */
  ghost predicate Blocks(s: Store, id: JobId) {
    && id in s.manifests && Terminal(s.manifests[id].status)
    && exists e :: e in s.index && e.id == id && !Terminal(e.status)
  }

  /** A step that brings the index entry of a cut job up to date. */
  predicate Relinks(a: Step, id: JobId) {
    a.RetryLink? && a.id == id
  }

  lemma UnfinishedEntry(s: Store, id: JobId)
    requires IndexOk(s) && Indexed(s, id) && id in s.manifests && !Terminal(s.manifests[id].status)
    ensures exists e :: e in s.index && e.id == id && !Terminal(e.status)
  {
    var e :| e in s.index && e.id == id;
    assert StatusTold(s, e);
  }

  /** What a step does to the index entries of a job it is not about. */
  lemma OtherEntries(y: Sys, a: Step, id: JobId, x: Summary)
    requires Inv(y) && Enabled(y, a) && Indexed(y.store, id) && Target(y, a) != Some(id) && x.id == id
    ensures x in Apply(y, a).store.index <==> x in y.store.index
  {
    hide Upsert, RecordOk, ClaimsOk, FinishesOk, TokensOk;
    UpsertMembers(y.store.index, x);
    if a.CreateCommit? {
      assert !Indexed(y.store, y.creates[a.pid].manifest.id);
    } else if a.MarkRunning? || a.Cancel? || a.RetryLink? || a.RecoverStale? || a.RecoverUnknown? {
      IdOfManifest(y, a.id);
    }
  }

  lemma UpsertMembers(index: seq<Summary>, x: Summary)
    ensures forall e :: x in Upsert(index, e) <==> x == e || (x in index && x.id != e.id)
  {
  }

  lemma BlocksStep(y: Sys, a: Step, id: JobId)
    requires Inv(y) && Enabled(y, a) && Indexed(y.store, id) && id in y.store.manifests
    ensures Blocks(Apply(y, a).store, id) <==> CrashesFinish(y, a, id) || (Blocks(y.store, id) && !Relinks(a, id))
  {
    hide Inv, Upsert;
    var s, s' := y.store, Apply(y, a).store;
    if Target(y, a) != Some(id) {
      assert StoreOk(s) by { StoreIsOk(y); }
      StepFrame(y, a, id);
      forall x: Summary | x.id == id ensures x in s'.index <==> x in s.index {
        OtherEntries(y, a, id, x);
      }
    } else {
      OwnEntry(y, a, id);
    }
  }

  lemma OwnEntry(y: Sys, a: Step, id: JobId)
    requires Inv(y) && Enabled(y, a) && Indexed(y.store, id) && id in y.store.manifests && Target(y, a) == Some(id)
    ensures Blocks(Apply(y, a).store, id) <==> CrashesFinish(y, a, id) || (Blocks(y.store, id) && !Relinks(a, id))
  {
    hide Inv, Blocks;
    CrashedWasUnfinished(y, a, id);
    if a.ClaimCommit? || a.FinishCommit? || a.FinishCrash? {
      if Terminal(y.store.manifests[id].status) {
        TerminalCommits(y, a, id);
      } else {
        EntryAfterCommit(y, a, id);
      }
    } else {
      EntryAfterOther(y, a, id);
    }
  }

  /** What is written as a whole is published in the index. */
  lemma RewriteNotBlocking(s: Store, s': Store, id: JobId)
    requires IsRewrite(s, s', id)
    ensures !Blocks(s', id)
  {
    hide LeafRevision, Upsert, GoodRewrite;
    forall x {
      UpsertMembers(s.index, x);
    }
  }

  lemma EntryAfterCommit(y: Sys, a: Step, id: JobId)
    requires Inv(y) && Enabled(y, a) && Indexed(y.store, id) && id in y.store.manifests && Target(y, a) == Some(id)
    requires !Terminal(y.store.manifests[id].status) && (a.ClaimCommit? || a.FinishCommit? || a.FinishCrash?)
    ensures Blocks(Apply(y, a).store, id) <==> CrashesFinish(y, a, id)
    ensures !Blocks(y.store, id)
  {
    hide AfterClaim, AfterFinish, CreatesOk, TokensOk, RecordOk, IsRewrite;
    assert RecordOk(y.store, id);
    UnfinishedEntry(y.store, id);
    if a.ClaimCommit? {
      var p := y.claims[a.pid];
      assert ReadOk(y.store, p.read);
      if y.store.manifests[id].revision == p.read.revision {
        ClaimIsRewrite(y.store, p.read, p.lease, p.at, y.clock);
        RewriteNotBlocking(y.store, Apply(y, a).store, id);
      }
    } else {
      var p := y.finishes[a.pid];
      assert ReadOk(y.store, p.read);
      if a.FinishCommit? && y.store.manifests[id].revision == p.read.revision {
        FinishIsRewrite(y.store, p.read, p.outcome, p.at, y.clock);
        RewriteNotBlocking(y.store, Apply(y, a).store, id);
      }
    }
  }

  /** A cancel, a recovery or mark_job_running either leaves the job alone or publishes what it makes of it. */
  lemma EntryAfterRewrite(y: Sys, a: Step, id: JobId)
    requires Inv(y) && Enabled(y, a) && Indexed(y.store, id) && id in y.store.manifests && Target(y, a) == Some(id)
    requires a.Cancel? || a.MarkRunning? || a.RecoverStale? || a.RecoverUnknown?
    ensures Apply(y, a).store == y.store || (!Terminal(y.store.manifests[id].status) && !Blocks(Apply(y, a).store, id))
  {
    hide AfterCancel, AfterMarkRunning, AfterStale, AfterRecoverUnknown, CreatesOk, ClaimsOk, FinishesOk, TokensOk, RecordOk, IsRewrite, Blocks;
    assert RecordOk(y.store, id);
    var s, s' := y.store, Apply(y, a).store;
    if s' != s {
      match a {
        case Cancel(_) => CancelIsRewrite(s, id, y.clock);
        case MarkRunning(_, token, _, ttl) => MarkRunningIsRewrite(s, id, token, ttl, y.clock);
        case RecoverStale(_, _) => StaleIsRewrite(s, id, y.clock);
        case RecoverUnknown(_) => RecoverUnknownIsRewrite(s, id, y.clock);
        case _ =>
      }
      RewriteNotBlocking(s, s', id);
    }
  }

  lemma RelinkedNotBlocking(s: Store, id: JobId, of_: JobId)
    requires id in s.manifests && s.manifests[id].id == id
    ensures !Blocks(AfterRetryLink(s, id, of_), id)
  {
    hide Upsert;
    forall x {
      UpsertMembers(s.index, x);
    }
  }

  lemma EntryAfterOther(y: Sys, a: Step, id: JobId)
    requires Inv(y) && Enabled(y, a) && Indexed(y.store, id) && id in y.store.manifests && Target(y, a) == Some(id)
    requires !a.ClaimCommit? && !a.FinishCommit? && !a.FinishCrash?
    ensures Blocks(Apply(y, a).store, id) <==> Blocks(y.store, id) && !Relinks(a, id)
  {
    hide Inv, AfterCancel, AfterMarkRunning, AfterStale, AfterRecoverUnknown, AfterRetryLink;
    IdOfManifest(y, id);
    if a.RetryLink? {
      RelinkedNotBlocking(y.store, id, a.of_);
    } else if !a.CancelCrash? {
      EntryAfterRewrite(y, a, id);
    }
  }

  /** A job's scope stays blocked since a crashed finish of it that no retry link has followed. */
  ghost predicate CutAndNotRelinked(ys: seq<Sys>, steps: seq<Step>, k: nat, id: JobId)
    requires k < |ys| && k <= |steps|
  {
    exists i :: 0 <= i < k && CrashesFinish(ys[i], steps[i], id) && forall n :: i < n < k ==> !Relinks(steps[n], id)
  }

  /** An ended job keeps an unfinished index entry exactly from a crashed finish of it to the next retry link. */
  lemma {:induction false} BlocksIff(ys: seq<Sys>, steps: seq<Step>, clock: int, k: nat, id: JobId)
    requires Run(ys, steps) && ys[0] == Init(clock) && k < |ys|
    ensures Blocks(ys[k].store, id) <==> CutAndNotRelinked(ys, steps, k, id)
  {
    hide Inv, Apply, Enabled, CrashesFinish, Blocks, Relinks;
    if k == 0 {
      NothingBlocks(clock, id);
    } else {
      BlocksIff(ys, steps, clock, k - 1, id);
      InitInv(clock);
      RunKeepsInv(ys, steps, k - 1);
      var y, a := ys[k - 1], steps[k - 1];
      assert ys[k] == Apply(y, a);
      BlockingStep(y, a, id);
      if CrashesFinish(y, a, id) {
        assert CutAndNotRelinked(ys, steps, k, id);
      }
    }
  }

  lemma NothingBlocks(clock: int, id: JobId)
    ensures !Blocks(Init(clock).store, id)
  {
  }

  lemma BlockingStep(y: Sys, a: Step, id: JobId)
    requires Inv(y) && Enabled(y, a)
    ensures Blocks(Apply(y, a).store, id) <==> CrashesFinish(y, a, id) || (Blocks(y.store, id) && !Relinks(a, id))
  {
    hide Upsert, Blocks;
    if id !in y.store.manifests {
      NewJobNotBlocking(y, a, id);
    } else if Indexed(y.store, id) {
      BlocksStep(y, a, id);
    } else {
      UnindexedNotBlocking(y, a, id);
    }
  }

  lemma NewJobNotBlocking(y: Sys, a: Step, id: JobId)
    requires Inv(y) && Enabled(y, a) && id !in y.store.manifests
    ensures !Blocks(Apply(y, a).store, id) && !CrashesFinish(y, a, id) && !Blocks(y.store, id)
  {
    hide Inv, Apply, Enabled, TerminalEvents, LogOf;
    if id in Apply(y, a).store.manifests {
      NewJobLogs(y, a, id);
    }
  }

  /** A job that is not indexed yet has not ended, and no step ends it. */
  lemma UnindexedNotBlocking(y: Sys, a: Step, id: JobId)
    requires Inv(y) && Enabled(y, a) && id in y.store.manifests && !Indexed(y.store, id)
    ensures !Blocks(Apply(y, a).store, id) && !CrashesFinish(y, a, id) && !Blocks(y.store, id)
  {
    hide Upsert, LastTerminalStatus, OnlyCancelled, Numbered, LeafRevision, TokensOk;
    IdOfManifest(y, id);
    if a.FinishCrash? || a.FinishCommit? {
      assert ReadOk(y.store, y.finishes[a.pid].read);
    } else if a.ClaimCommit? {
      assert ReadOk(y.store, y.claims[a.pid].read);
    }
    if Target(y, a) != Some(id) {
      StepFrame(y, a, id);
    }
  }

  /**
   In every run each index entry tells its manifest's status exactly unless a finish of the job
   crashed and no retry link of it followed; its leaf does exactly unless a finish crashed.
   */
  lemma IndexAgreesWithManifests(ys: seq<Sys>, steps: seq<Step>, clock: int, k: nat, e: Summary)
    requires Run(ys, steps) && ys[0] == Init(clock) && k < |ys|
    requires e in ys[k].store.index
    ensures e.id in ys[k].store.manifests && Agrees(e, ys[k].store.manifests[e.id])
    ensures e.status == ys[k].store.manifests[e.id].status <==> !CutAndNotRelinked(ys, steps, k, e.id)
    ensures e.id in ys[k].store.leaves
    ensures ys[k].store.leaves[e.id].status == ys[k].store.manifests[e.id].status
            <==> forall i :: 0 <= i < k ==> !CrashesFinish(ys[i], steps[i], e.id)
  {
    hide CutAndNotRelinked, CrashesFinish, Run;
    InitInv(clock);
    RunKeepsInv(ys, steps, k);
    BlocksIff(ys, steps, clock, k, e.id);
    CutIff(ys, steps, clock, k, e.id);
    EntryTells(ys[k].store, e);
  }

  lemma EntryTells(s: Store, e: Summary)
    requires StoreOk(s) && e in s.index
    ensures e.id in s.manifests && Agrees(e, s.manifests[e.id]) && e.id in s.leaves
    ensures e.status == s.manifests[e.id].status <==> !Blocks(s, e.id)
    ensures s.leaves[e.id].status == s.manifests[e.id].status <==> !Cut(s, e.id)
  {
    assert RecordOk(s, e.id) && StatusTold(s, e);
    forall x | x in s.index && x.id == e.id ensures x == e {
      var i :| 0 <= i < |s.index| && s.index[i] == x;
      var j :| 0 <= j < |s.index| && s.index[j] == e;
    }
  }

  /** The scope a step of a create is about. */
  function ScopeCreatedIn(y: Sys, a: Step): Option<nat> {
    match a
    case CreateBegin(_, _, r) => Some(r.scope)
    case CreateCommit(pid) => if pid in y.creates then Some(y.creates[pid].manifest.scope) else None
    case _ => None
  }

  /** While a job's entry blocks its scope no create of that scope gets anywhere. */
  lemma BlockedScopeRefuses(y: Sys, id: JobId, a: Step)
    requires Inv(y) && Blocks(y.store, id) && Enabled(y, a)
    requires ScopeCreatedIn(y, a) == Some(y.store.manifests[id].scope)
    ensures Apply(y, a).store == y.store
  {
    var e :| e in y.store.index && e.id == id && !Terminal(e.status);
    assert Agrees(e, y.store.manifests[id]);
  }

  /** From a crashed finish until a retry link of its job, that job's scope is taken: no create of it takes effect. */
  lemma ScopeStaysTaken(ys: seq<Sys>, steps: seq<Step>, clock: int, k: nat, id: JobId)
    requires Run(ys, steps) && ys[0] == Init(clock) && k < |steps| && CutAndNotRelinked(ys, steps, k, id)
    ensures id in ys[k].store.manifests
    ensures ScopeCreatedIn(ys[k], steps[k]) == Some(ys[k].store.manifests[id].scope) ==> ys[k + 1].store == ys[k].store
  {
    hide CutAndNotRelinked, Inv, ScopeCreatedIn;
    InitInv(clock);
    RunKeepsInv(ys, steps, k);
    BlocksIff(ys, steps, clock, k, id);
    assert Enabled(ys[k], steps[k]) && ys[k + 1] == Apply(ys[k], steps[k]);
    if ScopeCreatedIn(ys[k], steps[k]) == Some(ys[k].store.manifests[id].scope) {
      BlockedScopeRefuses(ys[k], id, steps[k]);
    }
  }

  /** `e` is the terminal event of greatest sequence number. */
  ghost predicate NewestTerminal(log: seq<Event>, e: Event) {
    && e in log && TerminalStatus(e.kind).Some?
    && forall x :: x in log && TerminalStatus(x.kind).Some? ==> x.seq_ <= e.seq_
  }

  lemma {:induction false} LastTerminalIsNewest(log: seq<Event>)
    requires Numbered(log)
    ensures LastTerminal(log).Some? ==> NewestTerminal(log, LastTerminal(log).value)
  {
    if log != [] {
      var n := |log| - 1;
      LastTerminalIsNewest(log[..n]);
      assert forall x :: x in log ==> x.seq_ <= log[n].seq_;
    }
  }

  /**
   Recovery of an `unknown_outcome` job, after any run: it takes the status of the
   highest-numbered terminal event, and becomes `recovering` exactly when there is none.
   */
  lemma RecoveryFollowsLog(ys: seq<Sys>, steps: seq<Step>, clock: int, k: nat, id: JobId)
    requires Run(ys, steps) && ys[0] == Init(clock) && k < |ys|
    requires Enabled(ys[k], RecoverUnknown(id)) && ys[k].store.manifests[id].status.UnknownOutcome?
    ensures var log := LogOf(ys[k].store, id);
      var m' := Apply(ys[k], RecoverUnknown(id)).store.manifests[id];
      && m'.owner.None?
      && (m'.status.Recovering? <==> forall e :: e in log ==> TerminalStatus(e.kind).None?)
      && (!m'.status.Recovering? ==>
            exists e :: NewestTerminal(log, e) && TerminalStatus(e.kind) == Some(m'.status)
                        && m'.finishedAt == Some(e.at))
  {
    InitInv(clock);
    RunKeepsInv(ys, steps, k);
    assert RecordOk(ys[k].store, id);
    LastTerminalIsNewest(LogOf(ys[k].store, id));
  }
}
