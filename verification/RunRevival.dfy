/**
 What late writes can do to a conversation run: which states they reach, and exactly which
 ended runs can come back to life and execute plans again.
 */
module RunRevival {
  import opened Wrappers
  import opened RunModel
  import opened RunProtocol

  /** `y'` follows from `y` by some steps. */
  ghost predicate Follows(y: Sys, y': Sys) {
    exists ys: seq<Sys>, steps: seq<Step> :: Chain(ys, steps) && ys[0] == y && ys[|steps|] == y'
  }

  /** A state some run passes through. */
  ghost predicate Reachable(y: Sys) {
    exists clock, revision :: Follows(Init(clock, revision), y)
  }

  lemma FollowsItself(y: Sys)
    ensures Follows(y, y)
  {
    assert Chain([y], []);
  }

  lemma FollowsOn(y: Sys, y': Sys, a: Step)
    requires Follows(y, y') && Enabled(y', a)
    ensures Follows(y, Apply(y', a))
  {
    hide Enabled, Apply;
    var ys: seq<Sys>, steps: seq<Step> :| Chain(ys, steps) && ys[0] == y && ys[|steps|] == y';
    var ys', steps' := ys + [Apply(y', a)], steps + [a];
    forall i | 0 <= i < |steps'| ensures Enabled(ys'[i], steps'[i]) && ys'[i + 1] == Apply(ys'[i], steps'[i]) {
      assert i < |steps| ==> steps'[i] == steps[i];
    }
    assert Chain(ys', steps') && ys'[0] == y && ys'[|steps'|] == Apply(y', a);
  }

  lemma ReachableStart()
    ensures Reachable(Init(0, 0))
  {
    FollowsItself(Init(0, 0));
  }

  lemma ReachableStep(y: Sys, a: Step)
    requires Reachable(y) && Enabled(y, a)
    ensures Reachable(Apply(y, a))
  {
    hide Follows, Enabled, Apply;
    var clock, revision :| Follows(Init(clock, revision), y);
    FollowsOn(Init(clock, revision), y, a);
  }

  lemma {:induction false} ChainKeepsInv(ys: seq<Sys>, steps: seq<Step>, k: nat)
    requires Chain(ys, steps) && k < |ys| && Inv(ys[0])
    ensures Inv(ys[k])
  {
    hide Inv, Apply, Enabled;
    if k > 0 {
      ChainKeepsInv(ys, steps, k - 1);
      assert steps[k - 1] == steps[k - 1];
      StepKeepsInv(ys[k - 1], steps[k - 1]);
    }
  }

  lemma ReachableKeepsInv(y: Sys)
    requires Reachable(y)
    ensures Inv(y)
  {
    hide Apply, Enabled;
    var clock, revision :| Follows(Init(clock, revision), y);
    var ys: seq<Sys>, steps: seq<Step> :| Chain(ys, steps) && ys[0] == Init(clock, revision) && ys[|steps|] == y;
    ChainKeepsInv(ys, steps, |steps|);
  }

  // ----- which ended runs come back -----

  /**
   A lease write in flight read a revision that a run now at `revision` may still come to:
   one not below it, or above the one some cancel in flight will give back.
   */
  ghost predicate Threatened(y: Sys, revision: nat) {
    exists p :: p in y.acquires && (y.acquires[p].read.revision >= revision || GivenBack(y, y.acquires[p].read.revision))
  }

  ghost predicate GivenBack(y: Sys, revision: nat) {
    exists c :: c in y.cancels && y.cancels[c].revision < revision
  }

  ghost predicate Revivable(y: Sys) {
    Threatened(y, y.run.revision)
  }

  /** No step makes an ended run revivable, and as long as it is not, none makes it anything but ended. */
  lemma SafeStep(y: Sys, a: Step)
    requires Inv(y) && Enabled(y, a) && Terminal(y.run.status) && !Revivable(y)
    ensures Terminal(Apply(y, a).run.status) && !Revivable(Apply(y, a))
  {
    hide Inv, Judge, PlanAfter, PlanAfterCrash, StaleRun;
    EndedStep(y, a);
    var y' := Apply(y, a);
    assert y'.acquires.Keys <= y.acquires.Keys && y'.cancels.Keys <= y.cancels.Keys;
    forall p | p in y'.acquires ensures y'.acquires[p].read.revision < y'.run.revision && !GivenBack(y', y'.acquires[p].read.revision) {
      assert y'.acquires[p] == y.acquires[p] && !GivenBack(y, y.acquires[p].read.revision);
    }
  }

  function Executions(y: Sys, p: PlanId): nat {
    if p in y.plans then y.plans[p].executions else 0
  }

  /** Some plan is executed on the way from `y` to `y'`. */
  ghost predicate ExecutesMore(y: Sys, y': Sys) {
    exists p :: p in y'.plans && Executions(y', p) > Executions(y, p)
  }

  lemma {:induction false} SafeChain(ys: seq<Sys>, steps: seq<Step>, k: nat)
    requires Chain(ys, steps) && k < |ys| && Inv(ys[0]) && Terminal(ys[0].run.status) && !Revivable(ys[0])
    ensures Terminal(ys[k].run.status) && !Revivable(ys[k]) && forall p :: Executions(ys[k], p) == Executions(ys[0], p)
  {
    hide Inv, Apply, Enabled, Revivable;
    if k > 0 {
      SafeChain(ys, steps, k - 1);
      ChainKeepsInv(ys, steps, k - 1);
      assert steps[k - 1] == steps[k - 1];
      SafeStep(ys[k - 1], steps[k - 1]);
      EndedStep(ys[k - 1], steps[k - 1]);
      if steps[k - 1].AddPlan? {
        AddPlanExecutesNothing(ys[k - 1], steps[k - 1]);
      }
    }
  }

  lemma AddPlanExecutesNothing(y: Sys, a: Step)
    requires Enabled(y, a) && a.AddPlan?
    ensures forall p :: Executions(Apply(y, a), p) == Executions(y, p)
  {
    PlanFrame(y, a);
  }

  // ----- how a revivable run comes back -----

  lemma {:induction false} AppendEvents(y: Sys, z: Sys, n: nat) returns (y': Sys)
    requires Follows(y, z) && Inv(z) && Terminal(z.run.status)
    ensures Follows(y, y') && Inv(y') && y'.acquires == z.acquires && y'.plans == z.plans
    ensures Terminal(y'.run.status) && y'.run.revision == z.run.revision + n
    decreases n
  {
    hide Follows, Inv;
    if n == 0 {
      y' := z;
    } else {
      var mid := AppendEvents(y, z, n - 1);
      FollowsOn(y, mid, AppendEvent);
      StepKeepsInv(mid, AppendEvent);
      y' := Apply(mid, AppendEvent);
    }
  }

  lemma FreshPlan(plans: map<PlanId, Plan>) returns (p: PlanId)
    ensures p !in plans
  {
    p := Above(plans.Keys);
  }

  lemma {:induction false} Above(keys: set<PlanId>) returns (p: PlanId)
    ensures forall k :: k in keys ==> k < p
    decreases keys
  {
    p := 0;
    if exists k :: k in keys {
      var one :| one in keys;
      var q := Above(keys - {one});
      p := if q > one then q else one + 1;
      forall k | k in keys ensures k < p {
        assert k == one || k in keys - {one};
      }
    }
  }

  /** A lease write whose revision check passes brings the run back, and a plan of it can then be executed. */
  lemma RevivedExecutes(y: Sys, z: Sys, pid: nat) returns (mid: Sys, y': Sys)
    requires Follows(y, z) && Inv(z) && pid in z.acquires && z.acquires[pid].read.revision == z.run.revision
    ensures Follows(y, mid) && mid.run.status.Running?
    ensures Follows(y, y') && exists p :: p in y'.plans && p !in z.plans && y'.plans[p].executions == 1
  {
    hide Follows, Inv;
    assert z.acquires[pid].read.status.Running? by { AcquiresReadRunning(z, pid); }
    var t := z.acquires[pid].lease.token;
    FollowsOn(y, z, AcquireWrite(pid));
    mid := Apply(z, AcquireWrite(pid));
    var p := FreshPlan(mid.plans);
    FollowsOn(y, mid, AddPlan(p, ToolInvocation, true));
    y' := Apply(mid, AddPlan(p, ToolInvocation, true));
    FollowsOn(y, y', CommitWaiting(t));
    y' := Apply(y', CommitWaiting(t));
    FollowsOn(y, y', Decide(p, Approved, true));
    y' := Apply(y', Decide(p, Approved, true));
    assert p in y'.plans && p !in z.plans && y'.plans[p].executions == 1;
  }

  lemma AcquiresReadRunning(y: Sys, pid: nat)
    requires Inv(y) && pid in y.acquires
    ensures y.acquires[pid].read.status.Running?
  {
    assert AcquireOk(y, pid);
  }

  lemma RevivableComesBack(y: Sys) returns (mid: Sys, y': Sys)
    requires Inv(y) && Terminal(y.run.status) && Revivable(y)
    ensures Follows(y, mid) && mid.run.status.Running?
    ensures Follows(y, y') && ExecutesMore(y, y')
  {
    hide Follows, Inv;
    FollowsItself(y);
    var pid :| pid in y.acquires && (y.acquires[pid].read.revision >= y.run.revision || GivenBack(y, y.acquires[pid].read.revision));
    var want := y.acquires[pid].read.revision;
    var z := y;
    if want < y.run.revision {
      var c :| c in y.cancels && y.cancels[c].revision < want;
      FollowsOn(y, y, CancelWrite(c));
      StepKeepsInv(y, CancelWrite(c));
      z := Apply(y, CancelWrite(c));
    }
    z := AppendEvents(y, z, want - z.run.revision);
    mid, y' := RevivedExecutes(y, z, pid);
    var p :| p in y'.plans && p !in z.plans && y'.plans[p].executions == 1;
    assert Executions(y', p) > Executions(y, p);
  }

  /** An ended run stays ended whatever follows, exactly if it is not revivable. */
  lemma EndedForGoodIff(y: Sys)
    requires Reachable(y) && Terminal(y.run.status)
    ensures (forall y' :: Follows(y, y') ==> Terminal(y'.run.status)) <==> !Revivable(y)
  {
    hide Inv, Revivable, Reachable;
    ReachableKeepsInv(y);
    if Revivable(y) {
      var mid, _ := RevivableComesBack(y);
    } else {
      forall y' | Follows(y, y') ensures Terminal(y'.run.status) {
        SafeFollows(y, y');
      }
    }
  }

  lemma SafeFollows(y: Sys, y': Sys)
    requires Inv(y) && Terminal(y.run.status) && !Revivable(y) && Follows(y, y')
    ensures Terminal(y'.run.status) && !ExecutesMore(y, y')
  {
    hide Inv, Apply, Enabled, Revivable;
    var ys: seq<Sys>, steps: seq<Step> :| Chain(ys, steps) && ys[0] == y && ys[|steps|] == y';
    SafeChain(ys, steps, |steps|);
  }

  /** Some plan of an ended run can still be executed exactly if the run is revivable. */
  lemma EndedExecutesIff(y: Sys)
    requires Reachable(y) && Terminal(y.run.status)
    ensures (exists y' :: Follows(y, y') && ExecutesMore(y, y')) <==> Revivable(y)
  {
    hide Inv, Revivable, Reachable;
    ReachableKeepsInv(y);
    if Revivable(y) {
      var _, y' := RevivableComesBack(y);
    } else {
      forall y' | Follows(y, y') ensures !ExecutesMore(y, y') {
        SafeFollows(y, y');
      }
    }
  }

  /**
   A completed rejection cancels the run and executes nothing. From then on no plan of the run
   is ever executed, whatever follows, exactly if at the rejection no lease write was in
   flight that had read a revision the run may still come to.
   */
  lemma RejectionEndsExecution(y: Sys, p: PlanId, ok: bool)
    requires Reachable(y) && p in y.plans && Judge(y.run, y.plans[p], Rejected).Proceed?
    ensures var y' := Apply(y, Decide(p, Rejected, ok));
      && y'.run.status.CancelledRun? && y'.plans[p].status.PlanRejected? && !ExecutesMore(y, y')
      && ((forall z :: Follows(y', z) ==> !ExecutesMore(y, z)) <==> !Threatened(y, y.run.revision + 3))
  {
    hide Reachable, Follows, Threatened;
    var y' := Apply(y, Decide(p, Rejected, ok));
    ReachableStep(y, Decide(p, Rejected, ok));
    EndedExecutesIff(y');
    SameThreat(y, y', y.run.revision + 3);
    assert forall q :: Executions(y', q) == Executions(y, q);
    forall z ensures ExecutesMore(y, z) <==> ExecutesMore(y', z) {
    }
  }

  lemma SameThreat(y: Sys, y': Sys, revision: nat)
    requires y'.acquires == y.acquires && y'.cancels == y.cancels
    ensures Threatened(y', revision) == Threatened(y, revision)
  {
    forall n ensures GivenBack(y', n) == GivenBack(y, n) {
    }
  }

  // ----- such runs -----

  /** A run with one execution at work. */
  function Taken(ttl: nat): Sys {
    Sys(0, Manifest(Running, Some(Lease(0, 7, ttl)), None, 0, 1), {7}, map[], map[], {}, map[7 := Exec(0, Working)], map[], [])
  }

  lemma TakenRun(ttl: nat)
    requires ttl >= 1
    ensures Reachable(Taken(ttl))
  {
    hide Reachable;
    ReachableStart();
    ReachableStep(Init(0, 0), AcquireRead(0, 7, 0, ttl));
    var read := Apply(Init(0, 0), AcquireRead(0, 7, 0, ttl));
    ReachableStep(read, AcquireWrite(0));
    assert read.acquires - {0} == map[] && read.issued == {7};
    assert Apply(read, AcquireWrite(0)) == Taken(ttl);
  }

  /** An execution that passed its failure check before the run was cancelled fails the cancelled run. */
  lemma CancelledRunIsOverwritten() returns (y: Sys)
    ensures Reachable(y) && y.run.status.CancelledRun?
    ensures Enabled(y, FailWrite(7)) && Superseded(y, 7) && Apply(y, FailWrite(7)).run.status.FailedRun?
  {
    hide Reachable;
    TakenRun(60);
    y := Taken(60);
    ReachableStep(y, FailCheck(7));
    y := Apply(y, FailCheck(7));
    ReachableStep(y, CancelRead(0));
    y := Apply(y, CancelRead(0));
    ReachableStep(y, CancelWrite(0));
    y := Apply(y, CancelWrite(0));
  }

  /** A cancel gives back the revision at which a lease was read, and the lease write revives the cancelled run. */
  lemma CancelledRunIsRevived() returns (y: Sys)
    ensures Reachable(y) && y.run.status.CancelledRun?
    ensures Enabled(y, AcquireWrite(0)) && Apply(y, AcquireWrite(0)).run.status.Running?
  {
    hide Reachable;
    ReachableStart();
    y := Init(0, 0);
    ReachableStep(y, CancelRead(0));
    y := Apply(y, CancelRead(0));
    ReachableStep(y, AppendEvent);
    y := Apply(y, AppendEvent);
    ReachableStep(y, AcquireRead(0, 7, 0, 60));
    y := Apply(y, AcquireRead(0, 7, 0, 60));
    ReachableStep(y, AppendEvent);
    y := Apply(y, AppendEvent);
    ReachableStep(y, CancelWrite(0));
    y := Apply(y, CancelWrite(0));
  }

  /** An execution whose lease has expired commits its message and then its status. */
  lemma ExpiredLeaseCommits() returns (y: Sys)
    ensures Reachable(y) && y.run.owner.Some? && y.run.owner.value.expiresAt < y.clock
    ensures Enabled(y, CommitMessage(7)) && var messaged := Apply(y, CommitMessage(7));
      Enabled(messaged, CommitFinal(7, true)) && Apply(messaged, CommitFinal(7, true)).run.status.Completed?
  {
    hide Reachable;
    TakenRun(1);
    y := Taken(1);
    ReachableStep(y, Tick(5));
    y := Apply(y, Tick(5));
  }

  const READ_BY_CANCEL := Manifest(Running, Some(Lease(0, 7, 1)), None, 0, 1)

  const READ_BY_LEASE := Manifest(Running, Some(Lease(0, 7, 1)), None, 0, 2)

  const READY_PLAN := Plan(ToolInvocation, true, AwaitingApproval, None, 0)

  /** A run that waits for two approvals, with a cancel and a lease write in flight. */
  const WAITING := Sys(5, Manifest(WaitingApproval, None, None, 5, 4), {7, 8},
                       map[1 := PendingAcquire(READ_BY_LEASE, Lease(0, 8, 65), 5)], map[0 := READ_BY_CANCEL], {},
                       map[], map[0 := READY_PLAN, 1 := READY_PLAN], [Wait(7)])

  lemma WaitingIsReachable()
    ensures Reachable(WAITING)
  {
    hide Reachable;
    TakenRun(1);
    var y := Taken(1);
    ReachableStep(y, AddPlan(0, ToolInvocation, true));
    y := Apply(y, AddPlan(0, ToolInvocation, true));
    ReachableStep(y, AddPlan(1, ToolInvocation, true));
    y := Apply(y, AddPlan(1, ToolInvocation, true));
    ReachableStep(y, CancelRead(0));
    y := Apply(y, CancelRead(0));
    ReachableStep(y, AppendEvent);
    y := Apply(y, AppendEvent);
    ReachableStep(y, Tick(5));
    y := Apply(y, Tick(5));
    assert y == Sys(5, READ_BY_LEASE, {7}, map[], map[0 := READ_BY_CANCEL], {}, map[7 := Exec(0, Working)],
                    map[0 := READY_PLAN, 1 := READY_PLAN], []);
    LeaseReadThenWait();
    ReachableStep(y, AcquireRead(1, 8, 0, 60));
    ReachableStep(Apply(y, AcquireRead(1, 8, 0, 60)), CommitWaiting(7));
  }

  lemma LeaseReadThenWait()
    ensures var y := Sys(5, READ_BY_LEASE, {7}, map[], map[0 := READ_BY_CANCEL], {}, map[7 := Exec(0, Working)],
                         map[0 := READY_PLAN, 1 := READY_PLAN], []);
      && Enabled(y, AcquireRead(1, 8, 0, 60))
      && var y' := Apply(y, AcquireRead(1, 8, 0, 60));
         Enabled(y', CommitWaiting(7)) && Apply(y', CommitWaiting(7)) == WAITING
  {
    var execs: map<Token, Exec> := map[7 := Exec(0, Working)];
    assert execs - {7} == map[];
  }

  /** The same run with its first plan rejected, cancelled, and brought back by the lease write. */
  const REVIVED := Sys(5, Manifest(Running, Some(Lease(0, 8, 65)), None, 5, 3), {7, 8}, map[], map[], {},
                       map[8 := Exec(0, Working)],
                       map[0 := Plan(ToolInvocation, true, PlanRejected, Some(Rejected), 0), 1 := READY_PLAN], [Wait(7)])

  lemma RejectedIsRevived()
    ensures Enabled(WAITING, Decide(0, Rejected, true)) && Follows(Apply(WAITING, Decide(0, Rejected, true)), REVIVED)
  {
    hide Follows;
    var y := Apply(WAITING, Decide(0, Rejected, true));
    FollowsItself(y);
    FollowsOn(y, y, CancelWrite(0));
    var z := Apply(y, CancelWrite(0));
    FollowsOn(y, z, AcquireWrite(1));
    assert z.cancels == map[] && z.acquires - {1} == map[];
    assert Apply(z, AcquireWrite(1)) == REVIVED;
  }

  /** A run whose first plan is rejected, by a rejection that completes, goes on to execute its second. */
  lemma RejectedRunExecutes() returns (z: Sys)
    ensures Reachable(WAITING) && Judge(WAITING.run, WAITING.plans[0], Rejected).Proceed?
    ensures Follows(Apply(WAITING, Decide(0, Rejected, true)), z) && Executions(z, 1) == 1 && Executions(WAITING, 1) == 0
  {
    hide Reachable, Follows;
    WaitingIsReachable();
    RejectedIsRevived();
    var y := Apply(WAITING, Decide(0, Rejected, true));
    FollowsOn(y, REVIVED, CommitWaiting(8));
    z := Apply(REVIVED, CommitWaiting(8));
    FollowsOn(y, z, Decide(1, Approved, true));
    z := Apply(z, Decide(1, Approved, true));
  }

  /** A rejection of the first plan that stops early leaves the second to be approved and executed. */
  lemma RejectionStopsEarlyInRun()
    ensures Reachable(WAITING) && Enabled(WAITING, RejectCrash(0))
    ensures var y := Apply(WAITING, RejectCrash(0));
      y.plans[0].status.PlanRejected? && Executions(Apply(y, Decide(1, Approved, true)), 1) == 1
  {
    hide Reachable;
    WaitingIsReachable();
  }
}
