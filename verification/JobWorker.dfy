/** The worker: claims jobs one at a time, runs their handlers and records how each ended. */
module JobWorker {
  import opened Wrappers
  import opened JobModel
  import opened JobOutcomes
  import opened JobProtocol
  import opened JobSafety
  import opened JobService

  datatype HandlerEnd = Returned(result: Outcome) | Raised

  /** What a handler does with a job: how it ends, and how long it takes. */
  datatype HandlerRun = HandlerRun(end: HandlerEnd, duration: nat)

  function Clamp(maxJobs: int): (limit: nat)
    ensures 1 <= limit <= 100
    ensures (1 <= maxJobs <= 100 ==> limit == maxJobs) && (maxJobs < 1 ==> limit == 1) && (maxJobs > 100 ==> limit == 100)
  {
    if maxJobs < 1 then 1 else if maxJobs > 100 then 100 else maxJobs
  }

  function EffectiveTypes(jobTypes: Option<set<nat>>, handlers: set<nat>): set<nat> {
    if jobTypes.Some? then jobTypes.value else handlers
  }

  /** How a claimed job is recorded: a job without a handler, or whose handler raises, has failed. */
  function Recorded(hasHandler: bool, run: HandlerRun): Outcome {
    if !hasHandler || run.end.Raised? then OutFailed else run.end.result
  }

  function TimeSpent(hasHandler: bool, run: HandlerRun): nat {
    if hasHandler then run.duration else 0
  }

  /** The status a claimed job is left with: still running exactly when its lease ran out first. */
  function StatusLeft(hasHandler: bool, run: HandlerRun, ttl: nat): Status {
    if TimeSpent(hasHandler, run) < ttl then OutcomeStatus(Recorded(hasHandler, run)) else Running
  }

  /** What a worker works with: its handlers, what they do, and the lease terms of its instance. */
  datatype Setup = Setup(handlers: set<nat>, runs: JobId -> HandlerRun, instance: nat, ttl: nat)

  /** Where a worker stands: the store, the time, and the token it will draw next. */
  datatype Work = Work(store: Store, clock: int, token: nat)

  /** One claim worked to its end: the job is claimed, its handler runs, and a lease that lasts records the result. */
  function WorkNext(u: Setup, types: set<nat>, v: Work): Work {
    var e := NextClaim(v.store, types, v.clock);
    if e.None? then v.(token := v.token + 1)
    else
      var m := v.store.manifests[e.value.id];
      var has, run := m.jobType in u.handlers, u.runs(e.value.id);
      var s1 := AfterClaim(v.store, m, Lease(u.instance, v.token, v.clock + u.ttl), v.clock, v.clock);
      var later := v.clock + TimeSpent(has, run);
      Work(if TimeSpent(has, run) < u.ttl then AfterFinish(s1, s1.manifests[m.id], Recorded(has, run), later, later) else s1,
           later, v.token + 1)
  }

  function WorkOn(u: Setup, types: set<nat>, v: Work, n: nat): Work {
    if n == 0 then v else WorkNext(u, types, WorkOn(u, types, v, n - 1))
  }

  /** A log that grew by a start and, if the job ended, by the event of its ending. */
  ghost predicate LogWorked(log: seq<Event>, log': seq<Event>, status: Status) {
    && |log'| == |log| + (if Terminal(status) then 2 else 1) && log'[..|log|] == log
    && log'[|log|].seq_ == |log| + 1 && log'[|log|].kind == JobStarted
    && (Terminal(status) ==> log'[|log| + 1].seq_ == |log| + 2 && TerminalStatus(log'[|log| + 1].kind) == Some(status))
  }

  /** Job `id` has gone from claimable to `status`, in its manifest, log and leaf alike. */
  ghost predicate JobWorked(s: Store, s': Store, id: JobId, status: Status) {
    && id in s.manifests && Claimable(s.manifests[id].status)
    && id in s'.manifests && s'.manifests[id].status == status && s'.manifests[id].jobType == s.manifests[id].jobType
    && s'.manifests[id].id == id
    && LogWorked(LogOf(s, id), LogOf(s', id), status) && s'.manifests[id].lastSeq == |LogOf(s', id)|
    && id in s'.leaves && s'.leaves[id].status == status && s'.leaves[id].lastSeq == |LogOf(s', id)|
  }

  ghost predicate JobKept(s: Store, s': Store, id: JobId)
    requires id in s.manifests
  {
    && id in s'.manifests && s'.manifests[id] == s.manifests[id] && LogOf(s', id) == LogOf(s, id)
    && (id in s'.leaves <==> id in s.leaves) && (id in s.leaves ==> s'.leaves[id] == s.leaves[id])
  }

  /** From `s` to `s'` job `id` was worked and nothing else changed; its index entry is brought up to date. */
  ghost predicate Worked(s: Store, s': Store, id: JobId, status: Status) {
    && JobWorked(s, s', id, status) && s'.manifests.Keys == s.manifests.Keys
    && (forall other :: other in s.manifests && other != id ==> JobKept(s, s', other))
    && (forall x :: x in s'.index <==> x == SummaryOf(s'.manifests[id]) || (x in s.index && x.id != id))
  }

  lemma ClaimWorks(s: Store, m: Manifest, lease: Lease, now: int)
    requires m.id in s.manifests && s.manifests[m.id] == m && Claimable(m.status)
    ensures var s1 := AfterClaim(s, m, lease, now, now);
      && Worked(s, s1, m.id, Running) && s1.manifests[m.id].owner == Some(lease)
      && s1.logs == s.logs[m.id := Logged(LogOf(s, m.id), JobStarted, now)]
  {
    hide LeafRevision, SortNewestFirst;
  }

  /** What a finish after that claim leaves, compared with the store before the claim. */
  lemma FinishWorks(s: Store, m: Manifest, lease: Lease, o: Outcome, now: int, later: int)
    requires m.id in s.manifests && s.manifests[m.id] == m && Claimable(m.status)
    ensures var s1 := AfterClaim(s, m, lease, now, now);
      m.id in s1.manifests && Worked(s, AfterFinish(s1, s1.manifests[m.id], o, later, later), m.id, OutcomeStatus(o))
  {
    hide LeafRevision, SortNewestFirst, JobWorked, JobKept;
    ClaimWorks(s, m, lease, now);
    var s1 := AfterClaim(s, m, lease, now, now);
    var s2 := AfterFinish(s1, s1.manifests[m.id], o, later, later);
    FinishedJob(s, s1, m, o, later);
    forall other | other in s.manifests && other != m.id ensures JobKept(s, s2, other) {
      FinishKeeps(s, s1, m, o, later, other);
    }
  }

  lemma FinishedJob(s: Store, s1: Store, m: Manifest, o: Outcome, later: int)
    requires JobWorked(s, s1, m.id, Running) && s1.manifests[m.id].id == m.id
    ensures JobWorked(s, AfterFinish(s1, s1.manifests[m.id], o, later, later), m.id, OutcomeStatus(o))
  {
    hide LeafRevision, Upsert;
  }

  lemma FinishKeeps(s: Store, s1: Store, m: Manifest, o: Outcome, later: int, other: JobId)
    requires m.id in s1.manifests && s1.manifests[m.id].id == m.id && other != m.id
    requires other in s.manifests && JobKept(s, s1, other)
    ensures JobKept(s, AfterFinish(s1, s1.manifests[m.id], o, later, later), other)
  {
    hide LeafRevision, Upsert;
  }

  /** How a job whose lease lasts is recorded: failed if it has no handler or the handler raises, else as the handler says. */
  predicate EndTold(hasHandler: bool, end: HandlerEnd, status: Status, kind: EventKind) {
    if !hasHandler then status == Failed && kind == JobFailed
    else
      match end
      case Raised => status == Failed && kind == JobFailed
      case Returned(OutSucceeded) => status == Succeeded && kind == JobSucceeded
      case Returned(OutPartialSuccess) => status == PartialSuccess && kind == JobPartialSuccess
      case Returned(OutFailed) => status == Failed && kind == JobFailed
  }

  /** Job `id` was started, and ended by its handler unless the lease ran out first. */
  ghost predicate LeftByHandler(s: Store, s': Store, id: JobId, hasHandler: bool, run: HandlerRun, ttl: nat) {
    var log, log' := LogOf(s, id), LogOf(s', id);
    && id in s'.manifests && id in s'.leaves && s'.leaves[id].status == s'.manifests[id].status
    && |log'| > |log| && log'[..|log|] == log && log'[|log|].kind == JobStarted
    && if (if hasHandler then run.duration else 0) < ttl
       then |log'| == |log| + 2 && EndTold(hasHandler, run.end, s'.manifests[id].status, log'[|log| + 1].kind)
       else |log'| == |log| + 1 && s'.manifests[id].status == Running
  }

  lemma WorkedIsTold(s: Store, s': Store, id: JobId, hasHandler: bool, run: HandlerRun, ttl: nat)
    requires JobWorked(s, s', id, StatusLeft(hasHandler, run, ttl))
    ensures LeftByHandler(s, s', id, hasHandler, run, ttl)
  {
  }

  lemma TurnIsTold(s: Store, s': Store, id: JobId, hasHandler: bool, run: HandlerRun, ttl: nat)
    requires Worked(s, s', id, StatusLeft(hasHandler, run, ttl))
    ensures LeftByHandler(s, s', id, hasHandler, run, ttl)
  {
    WorkedIsTold(s, s', id, hasHandler, run, ttl);
  }

  /** One turn of the worker works the best eligible job to the end its handler gives it, or does nothing. */
  lemma WorkNextWorks(u: Setup, types: set<nat>, v: Work)
    requires forall id :: id in v.store.manifests ==> v.store.manifests[id].id == id
    ensures match NextClaim(v.store, types, v.clock)
      case None => WorkNext(u, types, v).store == v.store
      case Some(e) => Worked(v.store, WorkNext(u, types, v).store, e.id,
                             StatusLeft(v.store.manifests[e.id].jobType in u.handlers, u.runs(e.id), u.ttl))
    ensures match NextClaim(v.store, types, v.clock)
      case None => true
      case Some(e) => LeftByHandler(v.store, WorkNext(u, types, v).store, e.id,
                                    v.store.manifests[e.id].jobType in u.handlers, u.runs(e.id), u.ttl)
  {
    hide LeftByHandler, NextClaim, AfterClaim, AfterFinish, Worked;
    NextClaimIsBest(v.store, types, v.clock);
    var e := NextClaim(v.store, types, v.clock);
    if e.Some? {
      var m := v.store.manifests[e.value.id];
      var has, run := m.jobType in u.handlers, u.runs(m.id);
      ClaimWorks(v.store, m, Lease(u.instance, v.token, v.clock + u.ttl), v.clock);
      FinishWorks(v.store, m, Lease(u.instance, v.token, v.clock + u.ttl), Recorded(has, run), v.clock, v.clock + TimeSpent(has, run));
      TurnIsTold(v.store, WorkNext(u, types, v).store, e.value.id, has, run, u.ttl);
    }
  }

  /** From `s` to `s'` exactly `jobs` were worked, each once, and each is left as its handler decided. */
  ghost predicate Processed(s: Store, s': Store, jobs: seq<JobId>, handlers: set<nat>, runs: JobId -> HandlerRun, ttl: nat) {
    && s'.manifests.Keys == s.manifests.Keys
    && (forall i, j :: 0 <= i < j < |jobs| ==> jobs[i] != jobs[j])
    && (forall id :: id in jobs ==>
          && id in s.manifests
          && JobWorked(s, s', id, StatusLeft(s.manifests[id].jobType in handlers, runs(id), ttl)))
    && (forall id :: id in s.manifests && id !in jobs ==> JobKept(s, s', id))
    && (forall x :: x in s'.index <==>
          (x.id in jobs && x.id in s'.manifests && x == SummaryOf(s'.manifests[x.id])) || (x in s.index && x.id !in jobs))
  }

  lemma ProcessedIsTold(s: Store, s': Store, jobs: seq<JobId>, handlers: set<nat>, runs: JobId -> HandlerRun, ttl: nat)
    requires Processed(s, s', jobs, handlers, runs, ttl)
    ensures forall id :: id in jobs ==>
      id in s.manifests && LeftByHandler(s, s', id, s.manifests[id].jobType in handlers, runs(id), ttl)
  {
    hide JobWorked, LeftByHandler, StatusLeft;
    forall id | id in jobs
      ensures id in s.manifests && LeftByHandler(s, s', id, s.manifests[id].jobType in handlers, runs(id), ttl) {
      WorkedIsTold(s, s', id, s.manifests[id].jobType in handlers, runs(id), ttl);
    }
  }

  lemma ProcessedNothing(s: Store, handlers: set<nat>, runs: JobId -> HandlerRun, ttl: nat)
    ensures Processed(s, s, [], handlers, runs, ttl)
  {
  }

  lemma WorkedJobKept(s: Store, s1: Store, s2: Store, id: JobId, status: Status)
    requires JobWorked(s, s1, id, status) && JobKept(s1, s2, id)
    ensures JobWorked(s, s2, id, status)
  {
  }

  lemma KeptJobWorked(s: Store, s1: Store, s2: Store, id: JobId, status: Status)
    requires id in s.manifests && JobKept(s, s1, id) && JobWorked(s1, s2, id, status)
    ensures JobWorked(s, s2, id, status)
  {
  }

  lemma WorkedNotClaimable(s: Store, s': Store, id: JobId, has: bool, run: HandlerRun, ttl: nat)
    requires JobWorked(s, s', id, StatusLeft(has, run, ttl))
    ensures !Claimable(s'.manifests[id].status)
  {
  }

  lemma WorkedInTurn(s: Store, s1: Store, s2: Store, jobs: seq<JobId>, id: JobId, x: JobId,
                     handlers: set<nat>, runs: JobId -> HandlerRun, ttl: nat)
    requires Processed(s, s1, jobs, handlers, runs, ttl) && id in s1.manifests && id !in jobs && x in jobs + [id]
    requires Worked(s1, s2, id, StatusLeft(s1.manifests[id].jobType in handlers, runs(id), ttl))
    ensures x in s.manifests && JobWorked(s, s2, x, StatusLeft(s.manifests[x].jobType in handlers, runs(x), ttl))
  {
    hide LogWorked, StatusLeft, LogOf;
    if x in jobs {
      WorkedJobKept(s, s1, s2, x, StatusLeft(s.manifests[x].jobType in handlers, runs(x), ttl));
    } else {
      KeptJobWorked(s, s1, s2, id, StatusLeft(s1.manifests[id].jobType in handlers, runs(id), ttl));
    }
  }

  lemma KeptTwice(s: Store, s1: Store, s2: Store, id: JobId)
    requires id in s.manifests && JobKept(s, s1, id) && JobKept(s1, s2, id)
    ensures JobKept(s, s2, id)
  {
  }

  /** The index after one more job, in terms of the manifests. */
  lemma IndexInTurn(s: Store, s1: Store, s2: Store, jobs: seq<JobId>, id: JobId, status: Status, x: Summary)
    requires id !in jobs && Worked(s1, s2, id, status) && forall k :: k in jobs ==> k in s1.manifests
    requires x in s1.index <==>
      (x.id in jobs && x.id in s1.manifests && x == SummaryOf(s1.manifests[x.id])) || (x in s.index && x.id !in jobs)
    ensures x in s2.index <==>
      (x.id in jobs + [id] && x.id in s2.manifests && x == SummaryOf(s2.manifests[x.id])) || (x in s.index && x.id !in jobs + [id])
  {
    hide LogWorked, LogOf;
    assert x.id in jobs ==> JobKept(s1, s2, x.id);
  }

  /** A job already worked is not claimable again, so the next one is new. */
  lemma WorkedOnce(s: Store, s1: Store, s2: Store, jobs: seq<JobId>, id: JobId,
                   handlers: set<nat>, runs: JobId -> HandlerRun, ttl: nat)
    requires Processed(s, s1, jobs, handlers, runs, ttl) && id in s1.manifests
    requires Worked(s1, s2, id, StatusLeft(s1.manifests[id].jobType in handlers, runs(id), ttl))
    ensures id !in jobs
  {
    hide LogWorked, StatusLeft, LogOf;
    if id in jobs {
      WorkedNotClaimable(s, s1, id, s.manifests[id].jobType in handlers, runs(id), ttl);
    }
  }

  lemma ProcessedStep(s: Store, s1: Store, s2: Store, jobs: seq<JobId>, id: JobId,
                      handlers: set<nat>, runs: JobId -> HandlerRun, ttl: nat)
    requires Processed(s, s1, jobs, handlers, runs, ttl) && id in s1.manifests
    requires Worked(s1, s2, id, StatusLeft(s1.manifests[id].jobType in handlers, runs(id), ttl))
    ensures Processed(s, s2, jobs + [id], handlers, runs, ttl)
  {
    hide LogWorked, StatusLeft, LogOf, JobWorked, JobKept;
    WorkedOnce(s, s1, s2, jobs, id, handlers, runs, ttl);
    forall x | x in jobs + [id]
      ensures x in s.manifests && JobWorked(s, s2, x, StatusLeft(s.manifests[x].jobType in handlers, runs(x), ttl)) {
      WorkedInTurn(s, s1, s2, jobs, id, x, handlers, runs, ttl);
    }
    forall x | x in s.manifests && x !in jobs + [id] ensures JobKept(s, s2, x) {
      KeptTwice(s, s1, s2, x);
    }
    forall x ensures x in s2.index <==>
        (x.id in jobs + [id] && x.id in s2.manifests && x == SummaryOf(s2.manifests[x.id])) || (x in s.index && x.id !in jobs + [id]) {
      IndexInTurn(s, s1, s2, jobs, id, StatusLeft(s1.manifests[id].jobType in handlers, runs(id), ttl), x);
    }
  }

  /** What a claim leaves for the handler to work on. */
  lemma ClaimedJob(s: Store, types: set<nat>, lease: Lease, now: int)
    requires forall id :: id in s.manifests ==> s.manifests[id].id == id
    ensures var s1 := AfterClaimNext(s, types, lease, now);
      match NextClaim(s, types, now)
      case None => s1 == s
      case Some(e) =>
        (&& e.id in s.manifests && s.manifests[e.id].id == e.id
         && e.id in s1.manifests && s1.manifests[e.id].id == e.id && s1 == AfterClaim(s, s.manifests[e.id], lease, now, now)
         && s1.manifests[e.id].status.Running? && s1.manifests[e.id].owner == Some(lease)
         && s1.manifests[e.id].jobType == s.manifests[e.id].jobType)
  {
    hide NextClaim, AfterClaim, JobKept, LogWorked;
    NextClaimIsBest(s, types, now);
    if NextClaim(s, types, now).Some? {
      ClaimWorks(s, s.manifests[NextClaim(s, types, now).value.id], lease, now);
    }
  }

  class JobWorker {
    const service: JobService
    const handlers: set<nat>
    const runs: JobId -> HandlerRun
    var nextToken: nat

    constructor (service: JobService, handlers: set<nat>, runs: JobId -> HandlerRun, firstToken: nat)
      ensures this.service == service && this.handlers == handlers && this.runs == runs && nextToken == firstToken
    {
      this.service, this.handlers, this.runs, nextToken := service, handlers, runs, firstToken;
    }

    ghost function Terms(): Setup {
      Setup(handlers, runs, service.instance, service.ttl)
    }

    ghost function State(): Work
      reads this, service
    {
      Work(service.Snapshot(), service.clock, nextToken)
    }

    /** Runs the handler of a claimed job and records how it ended. */
    method RunHandler(m: Manifest, token: nat)
      requires service.Valid() && m.id in service.manifests && service.manifests[m.id] == m
      requires m.status.Running? && m.owner == Some(Lease(service.instance, token, service.clock + service.ttl))
      modifies service
      ensures service.Valid()
      ensures var has, run := m.jobType in handlers, runs(m.id);
        && service.clock == old(service.clock) + TimeSpent(has, run)
        && service.Snapshot() == if TimeSpent(has, run) < service.ttl
                                 then AfterFinish(old(service.Snapshot()), m, Recorded(has, run), service.clock, service.clock)
                                 else old(service.Snapshot())
    {
      hide AfterFinish;
      var outcome := OutFailed;
      if m.jobType in handlers {
        service.AdvanceClock(runs(m.id).duration);
        match runs(m.id).end {
          case Returned(result) => outcome := result;
          case Raised =>
        }
      }
      var _ := service.FinishJob(m.id, outcome, Some(token));
    }

    /** Claims the best eligible job, if any, and brings it to the end its handler gives it. */
    method ProcessNext(jobTypes: Option<set<nat>>) returns (claimed: Option<JobId>)
      requires service.Valid()
      modifies this, service
      ensures service.Valid()
      ensures State() == WorkNext(Terms(), EffectiveTypes(jobTypes, handlers), old(State()))
      ensures var s := old(service.Snapshot());
        match NextClaim(s, EffectiveTypes(jobTypes, handlers), old(service.clock))
        case None => claimed.None? && service.Snapshot() == s && service.clock == old(service.clock)
        case Some(e) =>
          (&& claimed == Some(e.id)
           && Worked(s, service.Snapshot(), e.id,
                     StatusLeft(s.manifests[e.id].jobType in handlers, runs(e.id), service.ttl)))
      ensures var s, now := old(service.Snapshot()), old(service.clock);
        var types := if jobTypes.Some? then jobTypes.value else handlers;
        match claimed
        case None => service.Snapshot() == s && service.clock == now && forall x :: !MayTake(s, x, types, now)
        case Some(id) =>
          (&& (exists e :: ClaimedFirst(s, e, types, now) && e.id == id)
           && id in s.manifests
           && var has := s.manifests[id].jobType in handlers;
              && LeftByHandler(s, service.Snapshot(), id, has, runs(id), service.ttl)
              && service.clock == now + if has then runs(id).duration else 0)
    {
      hide AfterClaimNext, AfterClaim, AfterFinish, NextClaim, Worked, LeftByHandler, MayTake, ClaimedFirst;
      ClaimOrder(service.Snapshot(), if jobTypes.Some? then jobTypes.value else handlers, service.clock);
      var types := if jobTypes.Some? then jobTypes.value else handlers;
      WorkNextWorks(Terms(), types, State());
      ClaimedJob(service.Snapshot(), types, Lease(service.instance, nextToken, service.clock + service.ttl), service.clock);
      var token := nextToken;
      nextToken := nextToken + 1;
      var m := service.ClaimNextJobForWorker(types, token);
      if m.None? {
        return None;
      }
      ghost var s := old(service.Snapshot());
      ghost var e := NextClaim(s, types, service.clock).value;
      assert m.value == service.manifests[e.id] && s.manifests[e.id].id == e.id;
      RunHandler(m.value, token);
      return Some(m.value.id);
    }

    /** Works through up to `Clamp(maxJobs)` jobs; `drained` reports that no eligible job was left. */
    method ProcessBatch(jobTypes: Option<set<nat>>, maxJobs: int) returns (jobs: seq<JobId>, drained: bool)
      requires service.Valid()
      modifies this, service
      ensures service.Valid()
      ensures |jobs| <= Clamp(maxJobs) && (!drained ==> |jobs| == Clamp(maxJobs))
      ensures State() == WorkOn(Terms(), EffectiveTypes(jobTypes, handlers), old(State()), |jobs| + if drained then 1 else 0)
      ensures Processed(old(service.Snapshot()), service.Snapshot(), jobs, handlers, runs, service.ttl)
      ensures drained ==> NoneEligible(service.Snapshot(), EffectiveTypes(jobTypes, handlers), service.clock)
      ensures forall id :: id in jobs ==>
        id in old(service.manifests)
        && LeftByHandler(old(service.Snapshot()), service.Snapshot(), id, old(service.manifests)[id].jobType in handlers,
                         runs(id), service.ttl)
      ensures var types := if jobTypes.Some? then jobTypes.value else handlers;
        drained ==> forall x :: !MayTake(service.Snapshot(), x, types, service.clock)
    {
      hide LeftByHandler, MayTake, NextClaim, Eligible, Processed, Worked, StatusLeft, WorkNext;
      jobs := [];
      ProcessedNothing(service.Snapshot(), handlers, runs, service.ttl);
      var limit := Clamp(maxJobs);
      for k := 0 to limit
        invariant service.Valid() && |jobs| == k
        invariant State() == WorkOn(Terms(), EffectiveTypes(jobTypes, handlers), old(State()), k)
        invariant Processed(old(service.Snapshot()), service.Snapshot(), jobs, handlers, runs, service.ttl)
      {
        ghost var before := service.Snapshot();
        NextClaimIsBest(before, EffectiveTypes(jobTypes, handlers), service.clock);
        var claimed := ProcessNext(jobTypes);
        if claimed.None? {
          ProcessedIsTold(old(service.Snapshot()), service.Snapshot(), jobs, handlers, runs, service.ttl);
          return jobs, true;
        }
        ProcessedStep(old(service.Snapshot()), before, service.Snapshot(), jobs, claimed.value, handlers, runs, service.ttl);
        jobs := jobs + [claimed.value];
      }
      ProcessedIsTold(old(service.Snapshot()), service.Snapshot(), jobs, handlers, runs, service.ttl);
      return jobs, false;
    }
  }

  /** In a store every run keeps, an indexed job can be claimed exactly when its entry says so and it was not cut short. */
  lemma ClaimableEntriesAreEligible(s: Store, e: Summary, types: set<nat>, now: int)
    requires StoreOk(s)
    ensures Eligible(s, e, types, now) <==> e in s.index && IsCandidate(e, types) && !Blocks(s, e.id)
  {
    if e in s.index && IsCandidate(e, types) {
      EntryTells(s, e);
      if !Blocks(s, e.id) {
        assert RecordOk(s, e.id);
        assert forall x :: x in s.index && x.scope == e.scope && x.id != e.id ==> Terminal(x.status);
      }
    }
  }

  lemma StaleEffect(s: Store, s1: Store, id: JobId, now: int)
    requires id in s.manifests && s.manifests[id].id == id
    requires id in s1.manifests && s1.manifests[id] == s.manifests[id] && LogOf(s1, id) == LogOf(s, id)
    ensures var s2, m := AfterStale(s1, id, now), AfterStale(s, id, now).manifests[id];
      && id in s2.manifests && m.id == id && m.status == UnknownOutcome
      && s2.manifests == s1.manifests[id := m] && s2.logs == s1.logs[id := LogOf(AfterStale(s, id, now), id)]
  {
    hide Upsert, LeafRevision;
  }

  /** A stale sweep rewrites exactly the stale jobs it visits, each once, whatever the order and repetitions. */
  lemma {:induction false} SweepStaleEffect(s: Store, keys: seq<JobId>, staleAfter: nat, now: int, id: JobId)
    requires forall i :: i in s.manifests ==> s.manifests[i].id == i
    requires id in s.manifests
    ensures var s' := SweepStale(s, keys, staleAfter, now);
      && s'.manifests.Keys == s.manifests.Keys
      && (id in keys && Stale(s.manifests[id], staleAfter, now) ==>
            s'.manifests[id] == AfterStale(s, id, now).manifests[id] && LogOf(s', id) == LogOf(AfterStale(s, id, now), id))
      && (id !in keys || !Stale(s.manifests[id], staleAfter, now) ==>
            s'.manifests[id] == s.manifests[id] && LogOf(s', id) == LogOf(s, id))
  {
    hide AfterStale;
    if keys != [] {
      var n := |keys| - 1;
      SweepStaleEffect(s, keys[..n], staleAfter, now, id);
      var s1 := SweepStale(s, keys[..n], staleAfter, now);
      assert id in keys <==> id in keys[..n] || id == keys[n];
      if keys[n] in s.manifests {
        SweepStaleEffect(s, keys[..n], staleAfter, now, keys[n]);
        StaleEffect(s, s, keys[n], now);
        StaleEffect(s1, s1, keys[n], now);
        if s1.manifests[keys[n]] == s.manifests[keys[n]] && LogOf(s1, keys[n]) == LogOf(s, keys[n]) {
          StaleEffect(s, s1, keys[n], now);
        }
      }
    }
  }
}
