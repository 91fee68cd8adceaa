/** Leases, fencing tokens and progress, over every run of the job protocol. */
module JobFencing {
  import opened Wrappers
  import opened JobModel
  import opened JobProtocol
  import opened JobSafety

  // ----- who may own a job -----

  ghost predicate Owns(y: Sys, id: JobId, t: Token) {
    id in y.store.manifests && y.store.manifests[id].owner.Some? && y.store.manifests[id].owner.value.token == t
  }

  ghost predicate Owned(y: Sys, id: JobId) {
    id in y.store.manifests && y.store.manifests[id].owner.Some?
  }

  predicate OwnerKeptOrCleared(m: Manifest, m': Manifest) {
    m'.owner.Some? ==>
      && m.owner.Some?
      && m'.owner.value.token == m.owner.value.token
      && m'.owner.value.instance == m.owner.value.instance
  }

  lemma CommitOwner(y: Sys, a: Step, id: JobId)
    requires Inv(y) && Enabled(y, a) && Target(y, a) == Some(id) && (a.ClaimCommit? || a.FinishCommit? || a.FinishCrash?)
    ensures id in y.store.manifests && id in Apply(y, a).store.manifests
    ensures OwnerKeptOrCleared(y.store.manifests[id], Apply(y, a).store.manifests[id])
            || (a.ClaimCommit? && !Owned(y, id)
                && Apply(y, a).store.manifests[id].owner == Some(y.claims[a.pid].lease))
  {
    assert RecordOk(y.store, id);
    if a.ClaimCommit? {
      assert ReadOk(y.store, y.claims[a.pid].read);
    } else {
      assert ReadOk(y.store, y.finishes[a.pid].read);
    }
  }

  lemma DirectOwner(y: Sys, a: Step, id: JobId)
    requires Enabled(y, a) && Target(y, a) == Some(id) && id in y.store.manifests && y.store.manifests[id].id == id
    requires a.MarkRunning? || a.Cancel? || a.CancelCrash? || a.RetryLink? || a.RecoverStale? || a.RecoverUnknown?
    ensures id in Apply(y, a).store.manifests
    ensures OwnerKeptOrCleared(y.store.manifests[id], Apply(y, a).store.manifests[id])
  {
  }

  /** A job has an owner after a step only if it kept its owner's token, or was just claimed. */
  lemma OwnerOrigin(y: Sys, a: Step, id: JobId)
    requires Inv(y) && Enabled(y, a) && Owned(Apply(y, a), id)
    ensures (Owned(y, id) && OwnerKeptOrCleared(y.store.manifests[id], Apply(y, a).store.manifests[id]))
            || (a.ClaimCommit? && y.claims[a.pid].read.id == id && !Owned(y, id)
                && Apply(y, a).store.manifests[id].owner == Some(y.claims[a.pid].lease))
  {
    if id in y.store.manifests {
      assert RecordOk(y.store, id);
      if Target(y, a) != Some(id) {
        StepFrame(y, a, id);
      } else if a.ClaimCommit? || a.FinishCommit? || a.FinishCrash? {
        CommitOwner(y, a, id);
      } else {
        DirectOwner(y, a, id);
      }
    } else {
      NewJobUnowned(y, a, id);
    }
  }

  lemma DirectKeys(y: Sys, a: Step, i: JobId)
    requires Enabled(y, a) && Target(y, a) == Some(i) && i in y.store.manifests && y.store.manifests[i].id == i
    requires a.MarkRunning? || a.Cancel? || a.CancelCrash? || a.RetryLink? || a.RecoverStale? || a.RecoverUnknown?
    ensures Apply(y, a).store.manifests.Keys == y.store.manifests.Keys
  {
    hide Upsert, LastTerminal, LeafRevision, MutationAllowed, Stale;
  }

  /** Only the first half of a create adds a manifest. */
  lemma KeysKept(y: Sys, a: Step)
    requires Inv(y) && Enabled(y, a) && !a.CreateBegin?
    ensures Apply(y, a).store.manifests.Keys == y.store.manifests.Keys
  {
    hide Upsert, IndexOk, CreatesOk, LeafRevision;
    if a.ClaimCommit? || a.FinishCommit? || a.FinishCrash? || Target(y, a).None? {
    } else {
      hide Apply;
      assert RecordOk(y.store, Target(y, a).value);
      DirectKeys(y, a, Target(y, a).value);
    }
  }

  lemma NewJobUnowned(y: Sys, a: Step, id: JobId)
    requires Inv(y) && Enabled(y, a) && id !in y.store.manifests
    ensures !Owned(Apply(y, a), id)
  {
    hide StoreOk, CreatesOk, ClaimsOk, FinishesOk;
    if !a.CreateBegin? {
      hide Apply;
      KeysKept(y, a);
    }
  }

  lemma OwnerKeptStep(ys: seq<Sys>, steps: seq<Step>, clock: int, j: nat, id: JobId, t: Token)
    requires Run(ys, steps) && ys[0] == Init(clock) && j < |steps|
    requires Owns(ys[j], id, t) && Owned(ys[j + 1], id)
    ensures Owns(ys[j + 1], id, t)
  {
    InitInv(clock);
    RunKeepsInv(ys, steps, j);
    OwnerOrigin(ys[j], steps[j], id);
  }

  /** While a job stays owned it stays owned by the same token. */
  lemma {:induction false} OwnerKept(ys: seq<Sys>, steps: seq<Step>, clock: int, i: nat, j: nat, id: JobId, t: Token)
    requires Run(ys, steps) && ys[0] == Init(clock) && i <= j < |ys|
    requires Owns(ys[i], id, t)
    requires forall k :: i <= k <= j ==> Owned(ys[k], id)
    ensures Owns(ys[j], id, t)
  {
    if i < j {
      OwnerKept(ys, steps, clock, i, j - 1, id, t);
      OwnerKeptStep(ys, steps, clock, j - 1, id, t);
    }
  }

  // ----- fencing -----

  /** The token a step presents for job `id`, and whether that lease was unexpired when it was checked. */
  ghost predicate PresentsLease(y: Sys, a: Step, id: JobId, t: Token)
    requires id in y.store.manifests && y.store.manifests[id].owner.Some?
  {
    var l := y.store.manifests[id].owner.value;
    match a
    case MarkRunning(_, token, instance, _) =>
      token == Some(t) && instance == l.instance && l.expiresAt > y.clock
    case FinishCommit(pid) =>
      && pid in y.finishes
      && y.finishes[pid].token == Some(t) && y.finishes[pid].instance == l.instance
      && l.expiresAt > y.finishes[pid].at
    case FinishCrash(pid) =>
      && pid in y.finishes
      && y.finishes[pid].token == Some(t) && y.finishes[pid].instance == l.instance
      && l.expiresAt > y.finishes[pid].at
    case _ => false
  }

  lemma ChangeIsFenced(y: Sys, a: Step, id: JobId)
    requires Inv(y) && Enabled(y, a) && Owned(y, id)
    requires a.MarkRunning? || a.FinishCommit? || a.FinishCrash?
    requires id in Apply(y, a).store.manifests && Apply(y, a).store.manifests[id] != y.store.manifests[id]
    ensures PresentsLease(y, a, id, y.store.manifests[id].owner.value.token)
  {
    if Target(y, a) != Some(id) {
      StepFrame(y, a, id);
    } else if a.FinishCommit? || a.FinishCrash? {
      assert ReadOk(y.store, y.finishes[a.pid].read);
    }
  }

  /**
   The fencing theorem: from a claim with token `t` until the owner is next cleared,
   every change `mark_job_running` or a finish makes to the job presented `t`, under a
   lease unexpired when it was checked.
   */
  lemma FencedWhileOwned(ys: seq<Sys>, steps: seq<Step>, clock: int, i: nat, j: nat, id: JobId, t: Token)
    requires Run(ys, steps) && ys[0] == Init(clock) && i <= j < |steps|
    requires Owns(ys[i], id, t)
    requires forall k :: i <= k <= j ==> Owned(ys[k], id)
    requires steps[j].MarkRunning? || steps[j].FinishCommit? || steps[j].FinishCrash?
    requires Owned(ys[j], id) && id in ys[j + 1].store.manifests
    requires ys[j + 1].store.manifests[id] != ys[j].store.manifests[id]
    ensures PresentsLease(ys[j], steps[j], id, t)
  {
    OwnerKept(ys, steps, clock, i, j, id, t);
    InitInv(clock);
    RunKeepsInv(ys, steps, j);
    ChangeIsFenced(ys[j], steps[j], id);
  }

  /** On an owned job, any other token, an expired lease or another instance changes nothing at all. */
  lemma ForeignTokenChangesNothing(y: Sys, id: JobId, token: Option<Token>, instance: nat, ttl: nat, pid: nat, o: Outcome)
    requires Owned(y, id) && Enabled(y, MarkRunning(id, token, instance, ttl))
    requires Enabled(y, FinishBegin(pid, id, o, token, instance))
    requires var l := y.store.manifests[id].owner.value;
      token != Some(l.token) || instance != l.instance || l.expiresAt <= y.clock
    ensures Apply(y, MarkRunning(id, token, instance, ttl)) == y
    ensures Apply(y, FinishBegin(pid, id, o, token, instance)) == y
  {
  }

  /** A finish whose job was written since it was checked changes nothing in the store. */
  lemma LateFinishChangesNothing(y: Sys, pid: nat)
    requires Inv(y) && Enabled(y, FinishCommit(pid))
    requires y.store.manifests[y.finishes[pid].read.id] != y.finishes[pid].read
    ensures Apply(y, FinishCommit(pid)).store == y.store && Apply(y, FinishCrash(pid)).store == y.store
  {
    assert ReadOk(y.store, y.finishes[pid].read);
  }

  /**
   The ownerless window, exactly: `mark_job_running` takes effect if and only if the job
   is not terminal and either has no owner, whatever token is presented, or the
   presented token holds the unexpired lease.
   */
  lemma MarkTakesEffectIff(y: Sys, id: JobId, token: Option<Token>, instance: nat, ttl: nat)
    requires Inv(y) && Enabled(y, MarkRunning(id, token, instance, ttl))
    ensures var m := y.store.manifests[id];
      Apply(y, MarkRunning(id, token, instance, ttl)).store.manifests[id] != m
      <==> !Terminal(m.status)
           && (m.owner.None? || (token.Some? && LeaseHeld(m, token.value, instance, y.clock)))
  {
    assert RecordOk(y.store, id);
  }

  /** The same window for a finish whose write follows after any delay without other writes to the job. */
  lemma FinishTakesEffectIff(y: Sys, id: JobId, token: Option<Token>, instance: nat, pid: nat, o: Outcome, delay: nat)
    requires Inv(y) && Enabled(y, FinishBegin(pid, id, o, token, instance))
    ensures var m := y.store.manifests[id];
      var y1 := Apply(y, FinishBegin(pid, id, o, token, instance));
      var y2 := Apply(y1, Tick(delay));
      (pid in y2.finishes
       && Enabled(y2, FinishCommit(pid))
       && Apply(y2, FinishCommit(pid)).store.manifests[id].status == OutcomeStatus(o))
      <==> !Terminal(m.status)
           && (m.owner.None? || (token.Some? && LeaseHeld(m, token.value, instance, y.clock)))
  {
    assert RecordOk(y.store, id);
  }

  // ----- a token is used up -----

  /** No two owners or pending claims share a token. */
  ghost predicate TokensDistinct(y: Sys) {
    && (forall i, j :: Owned(y, i) && Owned(y, j) && i != j ==>
          y.store.manifests[i].owner.value.token != y.store.manifests[j].owner.value.token)
    && (forall i, pid :: Owned(y, i) && pid in y.claims ==>
          y.store.manifests[i].owner.value.token != y.claims[pid].lease.token)
    && (forall p, q :: p in y.claims && q in y.claims && p != q ==>
          y.claims[p].lease.token != y.claims[q].lease.token)
  }

  lemma ClaimsOrigin(y: Sys, a: Step, pid: nat)
    requires Enabled(y, a) && pid in Apply(y, a).claims
    ensures (pid in y.claims && y.claims[pid] == Apply(y, a).claims[pid])
            || (a.ClaimBegin? && a.pid == pid && Apply(y, a).claims[pid].lease.token == a.drawn)
  {
  }

  lemma TokensDistinctStep(y: Sys, a: Step)
    requires Inv(y) && Enabled(y, a) && TokensDistinct(y)
    ensures TokensDistinct(Apply(y, a))
  {
    var y' := Apply(y, a);
    forall i, j | Owned(y', i) && Owned(y', j) && i != j
      ensures y'.store.manifests[i].owner.value.token != y'.store.manifests[j].owner.value.token
    {
      OwnerOrigin(y, a, i);
      OwnerOrigin(y, a, j);
    }
    forall i, pid | Owned(y', i) && pid in y'.claims
      ensures y'.store.manifests[i].owner.value.token != y'.claims[pid].lease.token
    {
      OwnerOrigin(y, a, i);
      ClaimsOrigin(y, a, pid);
    }
    forall p, q | p in y'.claims && q in y'.claims && p != q
      ensures y'.claims[p].lease.token != y'.claims[q].lease.token
    {
      ClaimsOrigin(y, a, p);
      ClaimsOrigin(y, a, q);
    }
  }

  lemma {:induction false} RunTokensDistinct(ys: seq<Sys>, steps: seq<Step>, clock: int, k: nat)
    requires Run(ys, steps) && ys[0] == Init(clock) && k < |ys|
    ensures TokensDistinct(ys[k])
  {
    if k > 0 {
      RunTokensDistinct(ys, steps, clock, k - 1);
      InitInv(clock);
      RunKeepsInv(ys, steps, k - 1);
      TokensDistinctStep(ys[k - 1], steps[k - 1]);
    }
  }

  /** Token `t` was drawn and is held by nobody: not by an owner, not by a pending claim. */
  ghost predicate Spent(y: Sys, t: Token) {
    t in y.issued && (forall i :: !Owns(y, i, t)) && (forall pid :: pid in y.claims ==> y.claims[pid].lease.token != t)
  }

  lemma SpentStep(y: Sys, a: Step, t: Token)
    requires Inv(y) && Enabled(y, a) && Spent(y, t)
    ensures Spent(Apply(y, a), t)
  {
    hide StoreOk, CreatesOk, FinishesOk;
    var y' := Apply(y, a);
    forall i ensures !Owns(y', i, t) {
      if Owns(y', i, t) {
        assert !Owns(y, i, t);
        OwnerOrigin(y, a, i);
      }
    }
    forall pid | pid in y'.claims ensures y'.claims[pid].lease.token != t {
      ClaimsOrigin(y, a, pid);
    }
  }

  lemma ReleaseSpends(y: Sys, a: Step, id: JobId, t: Token)
    requires Inv(y) && Enabled(y, a) && TokensDistinct(y)
    requires Owns(y, id, t) && !Owns(Apply(y, a), id, t)
    ensures Spent(Apply(y, a), t)
  {
    hide StoreOk, CreatesOk, FinishesOk;
    var y' := Apply(y, a);
    forall i ensures !Owns(y', i, t) {
      if Owns(y', i, t) {
        OwnerOrigin(y, a, i);
      }
    }
    forall pid | pid in y'.claims ensures y'.claims[pid].lease.token != t {
      ClaimsOrigin(y, a, pid);
    }
  }

  lemma ReleaseSpendsInRun(ys: seq<Sys>, steps: seq<Step>, clock: int, i: nat, id: JobId, t: Token)
    requires Run(ys, steps) && ys[0] == Init(clock) && i < |steps|
    requires Owns(ys[i], id, t) && !Owns(ys[i + 1], id, t)
    ensures Spent(ys[i + 1], t)
  {
    InitInv(clock);
    RunKeepsInv(ys, steps, i);
    RunTokensDistinct(ys, steps, clock, i);
    ReleaseSpends(ys[i], steps[i], id, t);
  }

  lemma SpentInRun(ys: seq<Sys>, steps: seq<Step>, clock: int, j: nat, t: Token)
    requires Run(ys, steps) && ys[0] == Init(clock) && j < |steps| && Spent(ys[j], t)
    ensures Spent(ys[j + 1], t)
  {
    InitInv(clock);
    RunKeepsInv(ys, steps, j);
    SpentStep(ys[j], steps[j], t);
  }

  lemma {:induction false} SpentStays(ys: seq<Sys>, steps: seq<Step>, clock: int, i: nat, j: nat, t: Token)
    requires Run(ys, steps) && ys[0] == Init(clock) && i <= j < |ys| && Spent(ys[i], t)
    ensures Spent(ys[j], t)
  {
    if i < j {
      SpentStays(ys, steps, clock, i, j - 1, t);
      SpentInRun(ys, steps, clock, j - 1, t);
    }
  }

  /** Once a token has stopped owning its job it never owns any job again. */
  lemma TokenNeverReturns(ys: seq<Sys>, steps: seq<Step>, clock: int, i: nat, j: nat, id: JobId, t: Token)
    requires Run(ys, steps) && ys[0] == Init(clock) && i < j < |ys|
    requires Owns(ys[i], id, t) && !Owns(ys[i + 1], id, t)
    ensures Spent(ys[j], t)
  {
    ReleaseSpendsInRun(ys, steps, clock, i, id, t);
    SpentStays(ys, steps, clock, i + 1, j, t);
  }

  // ----- why callers must not use an id before it is indexed -----

  /** Of two creates racing on one scope, the loser leaves a queued manifest that no index entry names. */
  lemma LosingCreateLeavesOrphan(y: Sys, p: nat, q: nat)
    requires Inv(y) && p in y.creates && q in y.creates && p != q
    requires y.creates[p].manifest.scope == y.creates[q].manifest.scope
    requires y.creates[p].expected == y.store.indexRevision && y.creates[q].expected == y.store.indexRevision
    ensures var y1 := Apply(y, CreateCommit(p));
      && Enabled(y1, CreateCommit(q))
      && var y2 := Apply(y1, CreateCommit(q));
      && y2.store == y1.store
      && Live(y2.store, y.creates[p].manifest.id)
      && y.creates[q].manifest.id in y2.store.manifests
      && y2.store.manifests[y.creates[q].manifest.id] == y.creates[q].manifest
      && !Indexed(y2.store, y.creates[q].manifest.id)
  {
    UpsertEffect(y.store.index, SummaryOf(y.creates[p].manifest));
    assert SummaryOf(y.creates[p].manifest) in Apply(y, CreateCommit(p)).store.index;
  }

  /** Marking such a job running keeps exclusivity if and only if its scope has no other active job. */
  lemma MarkingUnindexedJob(s: Store, id: JobId, token: Option<Token>, ttl: nat, now: int)
    requires StoreOk(s) && id in s.manifests && !Indexed(s, id)
    ensures Exclusive(AfterMarkRunning(s, id, token, ttl, now).index)
            <==> FindActive(s.index, s.manifests[id].scope, Some(id)).None?
  {
    assert RecordOk(s, id);
    var s' := AfterMarkRunning(s, id, token, ttl, now);
    var e := SummaryOf(s'.manifests[id]);
    UpsertEffect(s.index, e);
    var active := FindActive(s.index, s.manifests[id].scope, Some(id));
    if active.Some? {
      assert active.value in s'.index && e in s'.index && active.value.id != e.id;
    }
  }

  // ----- no job is stuck -----

  lemma FreshOf(keys: set<int>) returns (fresh_: nat)
    ensures forall k :: k in keys ==> k < fresh_
  {
    if keys == {} {
      fresh_ := 0;
    } else {
      NotEmpty(keys);
      var k: int :| k in keys;
      var p := FreshOf(keys - {k});
      fresh_ := if k < p then p else k + 1;
      assert forall x :: x in keys ==> x == k || x in keys - {k};
    }
  }

  lemma NotEmpty(keys: set<int>)
    ensures keys == {} || exists k: int :: k in keys
  {
    if forall k: int :: k !in keys {
      assert keys == {};
    }
  }

  lemma FreshPid<T>(m: map<nat, T>) returns (pid: nat)
    ensures pid !in m
  {
    var keys: set<int> := m.Keys;
    pid := FreshOf(keys);
    assert pid in m ==> pid in keys;
  }

  /** A step that neither cancels nor creates; a finish among them holds the job's unexpired lease. */
  ghost predicate Benign(y: Sys, a: Step) {
    || a.Tick? || a.RecoverStale? || a.RecoverUnknown? || a.ClaimBegin? || a.ClaimCommit? || a.FinishCommit?
    || (a.FinishBegin? && a.id in y.store.manifests && a.token.Some?
        && LeaseHeld(y.store.manifests[a.id], a.token.value, a.instance, y.clock))
  }

  /** `steps` lead from `y` to `y'` and change no job but `id`. */
  ghost predicate LeadsTo(y: Sys, ys: seq<Sys>, steps: seq<Step>, id: JobId) {
    && Run(ys, steps) && ys[0] == y
    && (forall k {:trigger steps[k]} :: 0 <= k < |steps| ==> Benign(ys[k], steps[k]))
    && (forall i :: i in y.store.manifests && i != id ==> SameRecords(y.store, ys[|steps|].store, i))
  }

  ghost predicate Ends(y: Sys, id: JobId) {
    id in y.store.manifests && Terminal(y.store.manifests[id].status)
  }

  /** Two benign steps on one job, the second changing its records. */
  lemma TwoSteps(y: Sys, a: Step, b: Step, id: JobId)
    requires Inv(y) && Enabled(y, a) && Benign(y, a) && Enabled(Apply(y, a), b) && Benign(Apply(y, a), b)
    requires Apply(y, a).store == y.store && Target(Apply(y, a), b) == Some(id)
    ensures LeadsTo(y, [y, Apply(y, a), Apply(Apply(y, a), b)], [a, b], id)
    ensures Inv(Apply(Apply(y, a), b))
  {
    hide StoreOk, CreatesOk, ClaimsOk, FinishesOk, TokensOk, Apply, Enabled, Benign, SameRecords;
    var y1 := Apply(y, a);
    StepKeepsInv(y, a);
    StepKeepsInv(y1, b);
    forall i | i in y.store.manifests && i != id ensures SameRecords(y.store, Apply(y1, b).store, i) {
      StepFrame(y1, b, i);
    }
  }

  lemma Chain(y: Sys, ys: seq<Sys>, steps: seq<Step>, zs: seq<Sys>, more: seq<Step>, id: JobId)
    requires LeadsTo(y, ys, steps, id) && LeadsTo(ys[|steps|], zs, more, id)
    ensures LeadsTo(y, ys + zs[1..], steps + more, id)
    ensures (ys + zs[1..])[|steps + more|] == zs[|more|]
  {
    hide Apply, Enabled, Benign;
    var us, all := ys + zs[1..], steps + more;
    forall i | 0 <= i < |all|
      ensures Enabled(us[i], all[i]) && us[i + 1] == Apply(us[i], all[i]) && Benign(us[i], all[i])
    {
      if i >= |steps| {
        assert all[i] == more[i - |steps|];
        assert us[i] == zs[i - |steps|] && us[i + 1] == zs[i - |steps| + 1];
      } else {
        assert all[i] == steps[i];
      }
    }
    forall i | i in y.store.manifests && i != id ensures SameRecords(y.store, us[|all|].store, i) {
      assert SameRecords(y.store, ys[|steps|].store, i);
    }
  }

  lemma ClaimableIsFree(y: Sys, id: JobId)
    requires Inv(y) && Live(y.store, id) && Claimable(y.store.manifests[id].status)
    ensures !OwnerLive(y.store.manifests[id], y.clock)
    ensures FindActive(y.store.index, y.store.manifests[id].scope, Some(id)).None?
  {
    assert RecordOk(y.store, id);
    var e :| e in y.store.index && e.id == id;
    assert Agrees(e, y.store.manifests[id]);
  }

  lemma ClaimTakes(s: Store, id: JobId, lease: Lease, now: int)
    requires StoreOk(s) && Live(s, id) && Claimable(s.manifests[id].status)
    ensures var s' := AfterClaim(s, s.manifests[id], lease, now, now);
      Live(s', id) && s'.manifests[id].owner == Some(lease)
  {
    hide Upsert, IndexOk;
    assert RecordOk(s, id);
    ClaimIsRewrite(s, s.manifests[id], lease, now, now);
    RewriteKeepsStore(s, AfterClaim(s, s.manifests[id], lease, now, now), id);
  }

  lemma ClaimWorks(y: Sys, a: Step, b: Step)
    requires Inv(y) && a.ClaimBegin? && Enabled(y, a) && b == ClaimCommit(a.pid)
    requires Live(y.store, a.id) && Claimable(y.store.manifests[a.id].status)
    ensures var y1 := Apply(y, a);
      && y1.store == y.store && Enabled(y1, b) && Target(y1, b) == Some(a.id)
      && var y2 := Apply(y1, b);
         && y2.clock == y.clock && Live(y2.store, a.id)
         && y2.store.manifests[a.id].owner == Some(Lease(a.instance, a.drawn, y.clock + a.ttl))
  {
    hide AfterClaim, IndexOk;
    ClaimableIsFree(y, a.id);
    assert RecordOk(y.store, a.id);
    ClaimTakes(y.store, a.id, Lease(a.instance, a.drawn, y.clock + a.ttl), y.clock);
  }

  /** A finish under the lease a claim took ends the job. */
  lemma FinishWorks(y: Sys, a: Step, b: Step)
    requires Inv(y) && a.FinishBegin? && Enabled(y, a) && Benign(y, a) && b == FinishCommit(a.pid)
    ensures var y1 := Apply(y, a);
      && y1.store == y.store && Enabled(y1, b) && Target(y1, b) == Some(a.id) && Ends(Apply(y1, b), a.id)
  {
    assert RecordOk(y.store, a.id);
  }

  lemma ClaimAndFinish(y: Sys, id: JobId) returns (zs: seq<Sys>, more: seq<Step>)
    requires Inv(y) && Live(y.store, id) && Claimable(y.store.manifests[id].status)
    ensures LeadsTo(y, zs, more, id) && Ends(zs[|more|], id)
  {
    hide Inv, Apply, Ends, LeadsTo;
    var t := FreshOf(y.issued);
    var pid := FreshPid(y.claims);
    var a, b := ClaimBegin(pid, id, t, 0, 1), ClaimCommit(pid);
    ClaimWorks(y, a, b);
    TwoSteps(y, a, b, id);
    var y2 := Apply(Apply(y, a), b);
    var fid := FreshPid(y2.finishes);
    var c, d := FinishBegin(fid, id, OutSucceeded, Some(t), 0), FinishCommit(fid);
    FinishWorks(y2, c, d);
    TwoSteps(y2, c, d, id);
    var us, vs := [y, Apply(y, a), y2], [y2, Apply(y2, c), Apply(Apply(y2, c), d)];
    Chain(y, us, [a, b], vs, [c, d], id);
    zs, more := us + vs[1..], [a, b] + [c, d];
  }

  lemma RecoveryMoves(s: Store, id: JobId, now: int)
    requires StoreOk(s) && Live(s, id)
    ensures var s' := AfterRecoverUnknown(s, id, now);
      id in s'.manifests && (Terminal(s'.manifests[id].status) || (Live(s', id) && s'.manifests[id].status.Recovering?))
  {
    hide Upsert, IndexOk;
    assert RecordOk(s, id);
    RecoverUnknownIsRewrite(s, id, now);
    RewriteKeepsStore(s, AfterRecoverUnknown(s, id, now), id);
  }

  lemma RecoveryWorks(y: Sys, id: JobId)
    requires Inv(y) && Live(y.store, id) && y.store.manifests[id].status.UnknownOutcome?
    ensures var y' := Apply(y, RecoverUnknown(id));
      Ends(y', id) || (Live(y'.store, id) && y'.store.manifests[id].status.Recovering?)
  {
    hide StoreOk, CreatesOk, ClaimsOk, FinishesOk, TokensOk, AfterRecoverUnknown;
    RecoveryMoves(y.store, id, y.clock);
  }

  lemma RecoverAndFinish(y: Sys, id: JobId) returns (zs: seq<Sys>, more: seq<Step>)
    requires Inv(y) && Live(y.store, id) && y.store.manifests[id].status.UnknownOutcome?
    ensures LeadsTo(y, zs, more, id) && Ends(zs[|more|], id)
  {
    var a, b := Tick(0), RecoverUnknown(id);
    assert Apply(y, a) == y;
    hide Inv, Apply, Ends, LeadsTo;
    RecoveryWorks(y, id);
    TwoSteps(y, a, b, id);
    var y2 := Apply(y, b);
    zs, more := [y, y, y2], [a, b];
    if !Ends(y2, id) {
      var vs, rest := ClaimAndFinish(y2, id);
      Chain(y, zs, more, vs, rest, id);
      zs, more := zs + vs[1..], more + rest;
    }
  }

  lemma StaleMoves(s: Store, id: JobId, now: int)
    requires StoreOk(s) && Live(s, id)
    ensures var s' := AfterStale(s, id, now);
      Live(s', id) && s'.manifests[id].status.UnknownOutcome?
  {
    hide Upsert, IndexOk;
    assert RecordOk(s, id);
    StaleIsRewrite(s, id, now);
    RewriteKeepsStore(s, AfterStale(s, id, now), id);
  }

  lemma StaleWorks(y: Sys, id: JobId) returns (d: nat)
    requires Inv(y) && Live(y.store, id) && y.store.manifests[id].status.Running?
    ensures var y1 := Apply(y, Tick(d));
      && y1.store == y.store
      && var y2 := Apply(y1, RecoverStale(id, 1));
         Live(y2.store, id) && y2.store.manifests[id].status.UnknownOutcome?
  {
    hide StoreOk, CreatesOk, ClaimsOk, FinishesOk, TokensOk, AfterStale;
    var m := y.store.manifests[id];
    var expiry := if m.owner.Some? && m.owner.value.expiresAt > m.updatedAt then m.owner.value.expiresAt else m.updatedAt;
    d := if expiry + 1 > y.clock then expiry + 1 - y.clock else 0;
    StaleMoves(y.store, id, y.clock + d);
  }

  /**
   From every reachable state every indexed unfinished job can reach a terminal status by
   time passing, recovery, a claim and a finish under that claim's lease, with no cancel and
   no change to another job.
   */
  lemma NoStuckJob(ys: seq<Sys>, steps: seq<Step>, clock: int, k: nat, id: JobId) returns (zs: seq<Sys>, more: seq<Step>)
    requires Run(ys, steps) && ys[0] == Init(clock) && k < |ys|
    requires Live(ys[k].store, id)
    ensures LeadsTo(ys[k], zs, more, id) && Ends(zs[|more|], id)
  {
    InitInv(clock);
    RunKeepsInv(ys, steps, k);
    hide Inv, Apply, Ends, LeadsTo, Run;
    var y := ys[k];
    if Claimable(y.store.manifests[id].status) {
      zs, more := ClaimAndFinish(y, id);
    } else if y.store.manifests[id].status.UnknownOutcome? {
      zs, more := RecoverAndFinish(y, id);
    } else {
      var d := StaleWorks(y, id);
      var a, b := Tick(d), RecoverStale(id, 1);
      TwoSteps(y, a, b, id);
      var y2 := Apply(Apply(y, a), b);
      var vs, rest := RecoverAndFinish(y2, id);
      Chain(y, [y, Apply(y, a), y2], [a, b], vs, rest, id);
      zs, more := [y, Apply(y, a), y2] + vs[1..], [a, b] + rest;
    }
  }
}
