/**
 The operations of the job service and the worker are runs of the protocol's steps: each
 store they leave is one the protocol reaches, so all that holds of protocol runs holds of it.
 */
module JobRefinement {
  import opened Wrappers
  import opened JobModel
  import opened JobProtocol
  import opened JobService
  import opened JobWorker

  /** `y'` follows from `y` by protocol steps. */
  ghost predicate Follows(y: Sys, y': Sys) {
    exists ys: seq<Sys>, steps: seq<Step> :: Run(ys, steps) && ys[0] == y && ys[|steps|] == y'
  }

  /** A state with no create, claim or finish in flight that the protocol's invariant holds of. */
  ghost predicate Settled(y: Sys) {
    Inv(y) && y.creates == map[] && y.claims == map[] && y.finishes == map[]
  }

  lemma FollowsItself(y: Sys)
    ensures Follows(y, y)
  {
    assert Run([y], []);
  }

  lemma FollowsOn(y: Sys, y': Sys, a: Step)
    requires Follows(y, y') && Enabled(y', a)
    ensures Follows(y, Apply(y', a))
  {
    hide Enabled, Apply;
    var ys: seq<Sys>, steps: seq<Step> :| Run(ys, steps) && ys[0] == y && ys[|steps|] == y';
    var ys', steps' := ys + [Apply(y', a)], steps + [a];
    forall i | 0 <= i < |steps'| ensures Enabled(ys'[i], steps'[i]) && ys'[i + 1] == Apply(ys'[i], steps'[i]) {
      assert i < |steps| ==> steps'[i] == steps[i];
    }
    assert Run(ys', steps') && ys'[0] == y && ys'[|steps'|] == Apply(y', a);
  }

  /** One protocol step from a state that follows keeps both. */
  lemma Advance(y: Sys, y': Sys, a: Step)
    requires Follows(y, y') && Inv(y') && Enabled(y', a)
    ensures Follows(y, Apply(y', a)) && Inv(Apply(y', a))
  {
    hide Follows, Inv, Enabled, Apply;
    FollowsOn(y, y', a);
    StepKeepsInv(y', a);
  }

  // ----- operations of one step -----

  /** The store an operation of one step leaves, as its contract gives it. */
  lemma SingleSteps(y: Sys, a: Step)
    requires Settled(y) && Enabled(y, a)
    requires a.Cancel? || a.MarkRunning? || a.RetryLink? || a.RecoverStale? || a.RecoverUnknown?
    ensures Follows(y, Apply(y, a)) && Settled(Apply(y, a)) && Apply(y, a).clock == y.clock
    ensures var s, now := y.store, y.clock;
      Apply(y, a).store == match a
        case Cancel(id) => if Terminal(s.manifests[id].status) then s else AfterCancel(s, id, now)
        case MarkRunning(id, token, instance, ttl) =>
          if Terminal(s.manifests[id].status) || !MutationAllowed(s.manifests[id], token, instance, now) then s
          else AfterMarkRunning(s, id, token, ttl, now)
        case RetryLink(id, of_) => AfterRetryLink(s, id, of_)
        case RecoverStale(id, staleAfter) => if Stale(s.manifests[id], staleAfter, now) then AfterStale(s, id, now) else s
        case RecoverUnknown(id) => if s.manifests[id].status.UnknownOutcome? then AfterRecoverUnknown(s, id, now) else s
        case _ => s
  {
    hide Inv, Follows;
    FollowsItself(y);
    Advance(y, y, a);
  }

  /** A sweep is a stale recovery of each listed job in turn. */
  lemma {:induction false} SweepFollows(y: Sys, keys: seq<JobId>, staleAfter: nat) returns (y': Sys)
    requires Settled(y) && forall id :: id in keys ==> id in y.store.manifests
    ensures Follows(y, y') && Settled(y') && y'.clock == y.clock && y'.issued == y.issued
    ensures y'.store == SweepStale(y.store, keys, staleAfter, y.clock) && y'.store.manifests.Keys == y.store.manifests.Keys
  {
    if keys == [] {
      FollowsItself(y);
      y' := y;
    } else {
      var n := |keys| - 1;
      var z := SweepFollows(y, keys[..n], staleAfter);
      Advance(y, z, RecoverStale(keys[n], staleAfter));
      y' := Apply(z, RecoverStale(keys[n], staleAfter));
      IdsMatch(z);
      hide Inv, Follows, Upsert;
    }
  }

  lemma IdsMatch(y: Sys)
    requires Inv(y)
    ensures forall id :: id in y.store.manifests ==> y.store.manifests[id].id == id
  {
    forall id | id in y.store.manifests ensures y.store.manifests[id].id == id {
      assert RecordOk(y.store, id);
    }
  }

  // ----- operations of several steps -----

  /** An attempt at a create, with whatever another create does between its halves. */
  lemma AttemptFollows(y: Sys, id: JobId, r: Request, rivalId: JobId, rival: Option<Request>) returns (y': Sys)
    requires Settled(y) && id !in y.store.manifests && rivalId !in y.store.manifests && id != rivalId
    ensures Follows(y, y') && Settled(y') && y'.clock == y.clock
    ensures y'.store == CreateAttempt(y.store, id, r, rivalId, rival, y.clock).0
    ensures y'.store.manifests.Keys <= y.store.manifests.Keys + {id, rivalId}
  {
    hide Inv, Follows, Upsert, FindByIdem, FindActive;
    FollowsItself(y);
    Advance(y, y, CreateBegin(0, id, r));
    y' := Apply(y, CreateBegin(0, id, r));
    if CreateAnswer(y.store.index, r).Some? {
      return;
    }
    if rival.Some? {
      Advance(y, y', CreateBegin(1, rivalId, rival.value));
      y' := Apply(y', CreateBegin(1, rivalId, rival.value));
      if CreateAnswer(y.store.index, rival.value).None? {
        Advance(y, y', CreateCommit(1));
        y' := Apply(y', CreateCommit(1));
      }
    }
    assert y'.store == Rivalled(AfterCreateBegin(y.store, id, r, y.clock), rivalId, rival, y.clock);
    Advance(y, y', CreateCommit(0));
    y' := Apply(y', CreateCommit(0));
    assert y'.creates == map[];
  }

  lemma CreateFollows(y: Sys, r: Request, ids: seq<JobId>, rivals: seq<Option<Request>>) returns (y': Sys)
    requires Settled(y) && FreshIds(ids, y.store.manifests, map[]) && |rivals| == 2
    ensures Follows(y, y') && Settled(y') && y'.clock == y.clock
    ensures y'.store == CreateOutcome(y.store, r, ids, rivals, y.clock).0
  {
    hide Settled, Follows, CreateAttempt;
    y' := AttemptFollows(y, ids[0], r, ids[1], rivals[0]);
    if CreateAttempt(y.store, ids[0], r, ids[1], rivals[0], y.clock).1.None? {
      var z := AttemptFollows(y', ids[2], r, ids[3], rivals[1]);
      FollowsTwice(y, y', z);
      y' := z;
    }
  }

  lemma {:induction false} FollowsChain(a: Sys, zs: seq<Sys>, more: seq<Step>, k: nat)
    requires Run(zs, more) && k < |zs| && Follows(a, zs[0])
    ensures Follows(a, zs[k])
  {
    hide Enabled, Apply, Follows;
    if k > 0 {
      FollowsChain(a, zs, more, k - 1);
      assert more[k - 1] == more[k - 1];
      FollowsOn(a, zs[k - 1], more[k - 1]);
    }
  }

  lemma FollowsTwice(a: Sys, b: Sys, c: Sys)
    requires Follows(a, b) && Follows(b, c)
    ensures Follows(a, c)
  {
    hide Enabled, Apply;
    var zs: seq<Sys>, more: seq<Step> :| Run(zs, more) && zs[0] == b && zs[|more|] == c;
    FollowsChain(a, zs, more, |more|);
  }

  /** A claim is the two halves of a claim of the best eligible job. */
  lemma ClaimFollows(y: Sys, types: set<nat>, instance: nat, token: Token, ttl: nat) returns (y': Sys)
    requires Settled(y) && token !in y.issued && ttl >= 1
    ensures Follows(y, y') && Settled(y') && y'.clock == y.clock && y'.issued <= y.issued + {token}
    ensures y'.store == AfterClaimNext(y.store, types, Lease(instance, token, y.clock + ttl), y.clock)
  {
    hide Inv, Follows, AfterClaim, NextClaim;
    NextClaimIsBest(y.store, types, y.clock);
    FollowsItself(y);
    y' := y;
    if NextClaim(y.store, types, y.clock).Some? {
      var e := NextClaim(y.store, types, y.clock).value;
      IdsMatch(y);
      assert Indexed(y.store, e.id);
      Advance(y, y', ClaimBegin(0, e.id, token, instance, ttl));
      y' := Apply(y', ClaimBegin(0, e.id, token, instance, ttl));
      Advance(y, y', ClaimCommit(0));
      y' := Apply(y', ClaimCommit(0));
      assert y'.claims == map[];
    }
  }

  /** A finish is the two halves of a finish with nothing between them. */
  lemma FinishFollows(y: Sys, id: JobId, o: Outcome, token: Option<Token>, instance: nat) returns (y': Sys)
    requires Settled(y) && Indexed(y.store, id) && id in y.store.manifests
    ensures Follows(y, y') && Settled(y') && y'.clock == y.clock && y'.issued == y.issued
    ensures var m := y.store.manifests[id];
      y'.store == if Terminal(m.status) || !MutationAllowed(m, token, instance, y.clock) then y.store
                  else AfterFinish(y.store, m, o, y.clock, y.clock)
  {
    hide Inv, Follows, AfterFinish;
    IdsMatch(y);
    FollowsItself(y);
    Advance(y, y, FinishBegin(0, id, o, token, instance));
    y' := Apply(y, FinishBegin(0, id, o, token, instance));
    if y' != y {
      Advance(y, y', FinishCommit(0));
      y' := Apply(y', FinishCommit(0));
      assert y'.finishes == map[];
    }
  }

  /** One turn of a worker: a claim, the time its handler takes, and a finish. */
  lemma WorkFollows(y: Sys, u: Setup, types: set<nat>, token: nat) returns (y': Sys)
    requires Settled(y) && token !in y.issued && u.ttl >= 1
    ensures Follows(y, y') && Settled(y') && y'.issued <= y.issued + {token}
    ensures Work(y'.store, y'.clock, token + 1) == WorkNext(u, types, Work(y.store, y.clock, token))
  {
    hide Inv, Follows, AfterClaim, AfterFinish, NextClaim, AfterClaimNext, Worked, Indexed;
    IdsMatch(y);
    ClaimedJob(y.store, types, Lease(u.instance, token, y.clock + u.ttl), y.clock);
    var z := ClaimFollows(y, types, u.instance, token, u.ttl);
    y' := z;
    if NextClaim(y.store, types, y.clock).Some? {
      var e := NextClaim(y.store, types, y.clock).value;
      var has, run := y.store.manifests[e.id].jobType in u.handlers, u.runs(e.id);
      ClaimedIsIndexed(y.store, types, Lease(u.instance, token, y.clock + u.ttl), y.clock);
      Advance(y, z, Tick(TimeSpent(has, run)));
      var late := Apply(z, Tick(TimeSpent(has, run)));
      y' := FinishFollows(late, e.id, Recorded(has, run), Some(token), u.instance);
      FollowsTwice(y, late, y');
    }
  }

  lemma ClaimedIsIndexed(s: Store, types: set<nat>, lease: Lease, now: int)
    requires forall id :: id in s.manifests ==> s.manifests[id].id == id
    ensures NextClaim(s, types, now).Some? ==> Indexed(AfterClaimNext(s, types, lease, now), NextClaim(s, types, now).value.id)
  {
    hide NextClaim, AfterClaim, LogWorked, JobKept;
    NextClaimIsBest(s, types, now);
    if NextClaim(s, types, now).Some? {
      var e := NextClaim(s, types, now).value;
      ClaimWorks(s, s.manifests[e.id], lease, now);
      var s1 := AfterClaim(s, s.manifests[e.id], lease, now, now);
      assert SummaryOf(s1.manifests[e.id]) in s1.index && SummaryOf(s1.manifests[e.id]).id == e.id;
    }
  }

  /** A batch of turns with fresh tokens is a run of the protocol too. */
  lemma {:induction false} BatchFollows(y: Sys, u: Setup, types: set<nat>, token: nat, n: nat) returns (y': Sys)
    requires Settled(y) && u.ttl >= 1 && forall t :: t >= token ==> t !in y.issued
    ensures Follows(y, y') && Settled(y') && (forall t :: t >= token + n ==> t !in y'.issued)
    ensures Work(y'.store, y'.clock, token + n) == WorkOn(u, types, Work(y.store, y.clock, token), n)
  {
    hide Settled, Follows, WorkNext;
    if n == 0 {
      FollowsItself(y);
      y' := y;
    } else {
      var z := BatchFollows(y, u, types, token, n - 1);
      y' := WorkFollows(z, u, types, token + n - 1);
      FollowsTwice(y, z, y');
    }
  }
}
