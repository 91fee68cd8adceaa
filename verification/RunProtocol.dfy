/**
 What every run of the conversation-run machine keeps: one commit per lease and approvals
 executed at most once; and exactly when writes are fenced, ends are final, and a rejection
 is the last word.
 */
module RunProtocol {
  import opened Wrappers
  import opened RunModel

  // ----- the invariant -----

  /** An execution that has not ended has written nothing, or just its message. */
  ghost predicate ExecOk(y: Sys, t: Token)
    requires t in y.execs
  {
    && t in y.issued
    && (y.run.owner.Some? && y.run.owner.value.token == t ==> y.run.owner.value.instance == y.execs[t].instance)
    && match y.execs[t].stage
       case Working => forall w :: w in y.log ==> w.token != t
       case Failing => forall w :: w in y.log ==> w.token != t
       case Messaged => forall w :: w in y.log && w.token == t ==> w == Message(t)
  }

  ghost predicate AcquireOk(y: Sys, pid: nat)
    requires pid in y.acquires
  {
    var p := y.acquires[pid];
    && p.lease.token in y.issued && p.lease.token !in y.execs
    && (y.run.owner.Some? ==> y.run.owner.value.token != p.lease.token)
    && (forall w :: w in y.log ==> w.token != p.lease.token)
    && p.read.status.Running?
    && (forall q :: q in y.acquires && q != pid ==> y.acquires[q].lease.token != p.lease.token)
  }

  /** One lease writes at most one message and then at most one status. */
  ghost predicate LogOk(log: seq<Write>) {
    forall i, j :: 0 <= i < j < |log| && log[i].token == log[j].token ==> log[i].Message? && log[j].Final?
  }

  ghost predicate PlanOk(p: Plan) {
    && p.executions <= 1
    && (p.executions == 1 ==> p.status.Executing? || p.status.Executed? || p.status.ExecutionFailed?)
    && (p.status.Executed? || p.status.ExecutionFailed? ==> p.executions == 1)
    && (p.executions == 1 ==> p.decision == Some(Approved))
  }

  ghost predicate Inv(y: Sys) {
    && (y.run.owner.Some? ==> y.run.status.Running? && y.run.owner.value.token in y.issued)
    && (forall t :: t in y.execs ==> ExecOk(y, t))
    && (forall pid :: pid in y.acquires ==> AcquireOk(y, pid))
    && (forall w :: w in y.log ==> w.token in y.issued)
    && LogOk(y.log)
    && (forall p :: p in y.plans ==> PlanOk(y.plans[p]))
  }

  /** The steps of an execution. */
  predicate ByExecution(a: Step) {
    a.CommitMessage? || a.CommitFinal? || a.CommitWaiting? || a.FailCheck? || a.FailWrite?
  }

  lemma AcquireKeepsInv(y: Sys, a: Step)
    requires Inv(y) && Enabled(y, a) && (a.AcquireRead? || a.AcquireWrite?)
    ensures Inv(Apply(y, a))
  {
    hide LogOk, PlanOk;
    var y' := Apply(y, a);
    if a.AcquireWrite? {
      assert AcquireOk(y, a.pid);
    }
    forall t | t in y'.execs ensures ExecOk(y', t) {
      assert t in y.execs ==> ExecOk(y, t);
    }
    forall pid | pid in y'.acquires ensures AcquireOk(y', pid) {
      assert pid in y.acquires ==> AcquireOk(y, pid);
    }
  }

  lemma LogGrows(log: seq<Write>, w: Write)
    requires LogOk(log) && forall x :: x in log && x.token == w.token ==> x.Message? && w.Final?
    ensures LogOk(log + [w])
  {
  }

  lemma CommitKeepsInv(y: Sys, a: Step)
    requires Inv(y) && Enabled(y, a) && (a.CommitMessage? || a.CommitFinal? || a.CommitWaiting?)
    ensures Inv(Apply(y, a))
  {
    hide PlanOk, LogOk;
    var y' := Apply(y, a);
    assert ExecOk(y, a.token);
    if y'.log != y.log {
      LogGrows(y.log, y'.log[|y.log|]);
    }
    forall t | t in y'.execs ensures ExecOk(y', t) {
      assert ExecOk(y, t);
    }
    forall pid | pid in y'.acquires ensures AcquireOk(y', pid) {
      assert AcquireOk(y, pid);
    }
  }

  lemma FailureKeepsInv(y: Sys, a: Step)
    requires Inv(y) && Enabled(y, a) && (a.FailCheck? || a.FailWrite?)
    ensures Inv(Apply(y, a))
  {
    hide PlanOk, LogOk;
    var y' := Apply(y, a);
    assert ExecOk(y, a.token);
    LogGrows(y.log, Final(a.token, FailedRun));
    forall t | t in y'.execs ensures ExecOk(y', t) {
      assert ExecOk(y, t);
    }
    forall pid | pid in y'.acquires ensures AcquireOk(y', pid) {
      assert AcquireOk(y, pid);
    }
  }

  predicate ByPlan(a: Step) {
    a.AddPlan? || a.Decide? || a.ApproveCrash? || a.RejectCrash?
  }

  lemma PlansStayOk(y: Sys, a: Step)
    requires Enabled(y, a) && ByPlan(a) && forall p :: p in y.plans ==> PlanOk(y.plans[p])
    ensures forall p :: p in Apply(y, a).plans ==> PlanOk(Apply(y, a).plans[p])
  {
  }

  lemma PlanStepKeepsInv(y: Sys, a: Step)
    requires Inv(y) && Enabled(y, a) && ByPlan(a)
    ensures Inv(Apply(y, a))
  {
    hide LogOk, PlanOk, PlanAfter, PlanAfterCrash;
    PlansStayOk(y, a);
    var y' := Apply(y, a);
    forall t | t in y'.execs ensures ExecOk(y', t) {
      assert ExecOk(y, t);
    }
    forall pid | pid in y'.acquires ensures AcquireOk(y', pid) {
      assert AcquireOk(y, pid);
    }
  }

  lemma OtherKeepsInv(y: Sys, a: Step)
    requires Inv(y) && Enabled(y, a) && !ByExecution(a) && !ByPlan(a) && !a.AcquireRead? && !a.AcquireWrite?
    ensures Inv(Apply(y, a))
  {
    hide LogOk, PlanOk;
    var y' := Apply(y, a);
    forall t | t in y'.execs ensures ExecOk(y', t) {
      assert ExecOk(y, t);
    }
    forall pid | pid in y'.acquires ensures AcquireOk(y', pid) {
      assert AcquireOk(y, pid);
    }
  }

  lemma StepKeepsInv(y: Sys, a: Step)
    requires Inv(y) && Enabled(y, a)
    ensures Inv(Apply(y, a))
  {
    hide Inv, Apply, Enabled;
    if a.AcquireRead? || a.AcquireWrite? {
      AcquireKeepsInv(y, a);
    } else if a.FailCheck? || a.FailWrite? {
      FailureKeepsInv(y, a);
    } else if ByExecution(a) {
      CommitKeepsInv(y, a);
    } else if ByPlan(a) {
      PlanStepKeepsInv(y, a);
    } else {
      OtherKeepsInv(y, a);
    }
  }

  lemma {:induction false} RunKeepsInv(ys: seq<Sys>, steps: seq<Step>, k: nat)
    requires Run(ys, steps) && k < |ys|
    ensures Inv(ys[k])
  {
    hide Apply, Enabled;
    if k > 0 {
      hide Inv;
      RunKeepsInv(ys, steps, k - 1);
      StepKeepsInv(ys[k - 1], steps[k - 1]);
    }
  }

  // ----- run fencing -----

  /** The lease an execution was given is the run's, and the run has not ended. */
  predicate HoldsLease(y: Sys, t: Token) {
    t in y.execs && LeaseActive(y.run, y.execs[t].instance, t)
  }

  /**
   A commit takes effect exactly when the run has not ended and its owner is the execution's
   instance and token, whatever the clock says about the lease's expiry.
   */
  lemma CommitTakesEffectIff(y: Sys, a: Step)
    requires Enabled(y, a) && (a.CommitMessage? || a.CommitFinal? || a.CommitWaiting?)
    ensures Apply(y, a).log != y.log <==>
      && !Terminal(y.run.status) && y.run.owner.Some?
      && y.run.owner.value.instance == y.execs[a.token].instance && y.run.owner.value.token == a.token
    ensures Apply(y, a).log == y.log ==> Apply(y, a) == y.(execs := y.execs - {a.token})
    ensures forall now :: Enabled(y.(clock := now), a) && Apply(y.(clock := now), a).log == Apply(y, a).log
  {
  }

  /** Every write of an execution is one record, made under its own lease unless it is the failure path's write. */
  lemma WritesAreFenced(ys: seq<Sys>, steps: seq<Step>, i: nat)
    requires Run(ys, steps) && i < |steps| && ys[i + 1].log != ys[i].log
    ensures ByExecution(steps[i])
    ensures |ys[i + 1].log| == |ys[i].log| + 1 && ys[i + 1].log[..|ys[i].log|] == ys[i].log
    ensures ys[i + 1].log[|ys[i].log|].token == steps[i].token
    ensures !steps[i].FailWrite? ==>
      ys[i].run.status.Running? && ys[i].run.owner.Some? && ys[i].run.owner.value.token == steps[i].token
  {
    RunKeepsInv(ys, steps, i);
  }

  lemma LastStep(ys: seq<Sys>, steps: seq<Step>, k: nat)
    requires Run(ys, steps) && k < |steps|
    ensures Enabled(ys[k], steps[k]) && ys[k + 1] == Apply(ys[k], steps[k])
  {
    hide Enabled, Apply;
  }

  lemma FailingStep(y: Sys, a: Step, t: Token)
    requires Enabled(y, a) && t in Apply(y, a).execs && Apply(y, a).execs[t].stage.Failing?
    ensures (t in y.execs && y.execs[t].stage.Failing?) || (a == FailCheck(t) && HoldsLease(y, t))
  {
  }

  /** The failure path's check came before, found the lease held, and the execution has been failing since. */
  lemma {:induction false} FailureWasChecked(ys: seq<Sys>, steps: seq<Step>, i: nat, t: Token) returns (j: nat)
    requires Run(ys, steps) && i < |ys| && t in ys[i].execs && ys[i].execs[t].stage.Failing?
    ensures j < i && steps[j] == FailCheck(t) && HoldsLease(ys[j], t)
    ensures forall m :: j < m <= i ==> t in ys[m].execs && ys[m].execs[t].stage.Failing?
  {
    hide Enabled, Apply, LeaseActive;
    assert i > 0;
    LastStep(ys, steps, i - 1);
    FailingStep(ys[i - 1], steps[i - 1], t);
    if t in ys[i - 1].execs && ys[i - 1].execs[t].stage.Failing? {
      j := FailureWasChecked(ys, steps, i - 1, t);
    } else {
      j := i - 1;
    }
  }

  /** A step that takes the lease of execution `t` away from it. */
  predicate TakesLease(y: Sys, a: Step, t: Token) {
    || a.CancelWrite? || a.RecoverWrite?
    || (a.FailWrite? && a.token != t)
    || (a.AcquireWrite? && a.pid in y.acquires && y.acquires[a.pid].read.revision == y.run.revision)
  }

  /** A failing execution keeps its lease exactly through the steps that do not take it. */
  lemma LeaseStep(y: Sys, a: Step, t: Token)
    requires Inv(y) && Enabled(y, a) && HoldsLease(y, t)
    requires t in Apply(y, a).execs && Apply(y, a).execs[t].stage.Failing?
    ensures HoldsLease(Apply(y, a), t) <==> !TakesLease(y, a, t)
  {
    hide LogOk, PlanOk, PlanAfter, PlanAfterCrash;
    if a.AcquireWrite? {
      assert AcquireOk(y, a.pid);
    }
    assert ExecOk(y, t);
  }

  /**
   The failure path's write comes after a check that found the lease held. It is made under
   that lease exactly when no step in between was a cancel's or a recovery's write, another
   execution's failure, or a lease write that took effect.
   */
  lemma FailureIsFencedIff(ys: seq<Sys>, steps: seq<Step>, i: nat, t: Token) returns (j: nat)
    requires Run(ys, steps) && i < |steps| && steps[i] == FailWrite(t)
    ensures j < i && steps[j] == FailCheck(t) && HoldsLease(ys[j], t)
    ensures HoldsLease(ys[i], t) <==> forall m :: j <= m < i ==> !TakesLease(ys[m], steps[m], t)
  {
    hide Enabled, Apply, HoldsLease;
    LastStep(ys, steps, i);
    assert t in ys[i].execs && ys[i].execs[t].stage.Failing? by { FailWriteEnabled(ys[i], t); }
    j := FailureWasChecked(ys, steps, i, t);
    HeldWhileNotTaken(ys, steps, j, i, t);
  }

  lemma {:induction false} HeldWhileNotTaken(ys: seq<Sys>, steps: seq<Step>, j: nat, i: nat, t: Token)
    requires Run(ys, steps) && j <= i < |ys| && HoldsLease(ys[j], t)
    requires forall m :: j < m <= i ==> t in ys[m].execs && ys[m].execs[t].stage.Failing?
    ensures HoldsLease(ys[i], t) <==> forall m :: j <= m < i ==> !TakesLease(ys[m], steps[m], t)
    decreases i
  {
    hide Enabled, Apply, HoldsLease, TakesLease, Inv;
    if j < i {
      HeldWhileNotTaken(ys, steps, j, i - 1, t);
      RunKeepsInv(ys, steps, i - 1);
      LastStep(ys, steps, i - 1);
      if HoldsLease(ys[i - 1], t) {
        LeaseStep(ys[i - 1], steps[i - 1], t);
      } else {
        StillLost(ys, steps, j, i, t);
      }
    }
  }

  lemma StillLost(ys: seq<Sys>, steps: seq<Step>, j: nat, i: nat, t: Token)
    requires Run(ys, steps) && j < i < |ys| && HoldsLease(ys[j], t) && !HoldsLease(ys[i - 1], t)
    requires forall m :: j < m <= i ==> t in ys[m].execs
    ensures !HoldsLease(ys[i], t)
  {
    hide Enabled, Apply, HoldsLease, Superseded, Inv;
    assert i - 1 > j;
    RunKeepsInv(ys, steps, i - 1);
    HeldOrSuperseded(ys[i - 1], t);
    LastStep(ys, steps, i - 1);
    SupersededStays(ys[i - 1], steps[i - 1], t);
    RunKeepsInv(ys, steps, i);
    HeldOrSuperseded(ys[i], t);
  }

  lemma FailWriteEnabled(y: Sys, t: Token)
    requires Enabled(y, FailWrite(t))
    ensures t in y.execs && y.execs[t].stage.Failing?
  {
  }

  lemma HeldOrSuperseded(y: Sys, t: Token)
    requires Inv(y) && t in y.execs
    ensures HoldsLease(y, t) <==> !Superseded(y, t)
  {
    forall pid | pid in y.acquires ensures y.acquires[pid].lease.token != t {
      assert AcquireOk(y, pid);
    }
    assert ExecOk(y, t);
  }

  /** In every run each lease writes at most one message and, after it, at most one status. */
  lemma OneCommitPerLease(ys: seq<Sys>, steps: seq<Step>, k: nat, i: nat, j: nat)
    requires Run(ys, steps) && k < |ys|
    requires i < j < |ys[k].log| && ys[k].log[i].token == ys[k].log[j].token
    ensures ys[k].log[i].Message? && ys[k].log[j].Final?
  {
    RunKeepsInv(ys, steps, k);
  }

  // ----- ended runs -----

  /** The part of a manifest that says how a run ended. */
  predicate SameEnd(m: Manifest, m': Manifest) {
    m'.status == m.status && m'.owner == m.owner && m'.assistant == m.assistant
  }

  /** A lease write whose revision check passes though the run has ended: a cancel gave an old revision back. */
  predicate Revives(y: Sys, a: Step) {
    && a.AcquireWrite? && a.pid in y.acquires
    && Terminal(y.run.status) && y.acquires[a.pid].read.revision == y.run.revision
  }

  /** A write that follows its check too late: it changes how an ended run ended. */
  predicate Overwrites(y: Sys, a: Step) {
    || Revives(y, a)
    || (Terminal(y.run.status) && match a
        case FailWrite(_) => !y.run.status.FailedRun? || y.run.assistant.Some?
        case CancelWrite(pid) => pid in y.cancels && (!y.run.status.CancelledRun? || y.run.assistant != y.cancels[pid].assistant)
        case RecoverWrite(_) => !y.run.status.FailedRun?
        case _ => false)
  }

  lemma EndedStep(y: Sys, a: Step)
    requires Inv(y) && Enabled(y, a) && Terminal(y.run.status)
    ensures SameEnd(y.run, Apply(y, a).run) <==> !Overwrites(y, a)
    ensures Terminal(Apply(y, a).run.status) <==> !Revives(y, a)
    ensures !a.AddPlan? ==> Apply(y, a).plans == y.plans
    ensures !a.FailWrite? ==> Apply(y, a).log == y.log
  {
    hide ExecOk, LogOk, PlanOk;
    if a.AcquireWrite? {
      assert AcquireOk(y, a.pid);
    }
  }

  lemma SameEndThrough(a: Manifest, b: Manifest, c: Manifest)
    ensures SameEnd(a, a)
    ensures SameEnd(a, b) ==> (SameEnd(a, c) <==> SameEnd(b, c)) && Terminal(b.status) == Terminal(a.status)
  {
  }

  /** A run that has ended keeps its status, owner and message exactly as long as no late write overwrites it. */
  lemma {:induction false} EndIsFinal(ys: seq<Sys>, steps: seq<Step>, i: nat, j: nat)
    requires Run(ys, steps) && i <= j < |ys| && Terminal(ys[i].run.status)
    ensures (forall m :: i <= m <= j ==> SameEnd(ys[i].run, ys[m].run))
            <==> (forall m :: i <= m < j ==> !Overwrites(ys[m], steps[m]))
    decreases j
  {
    hide Inv, Enabled, Apply, Overwrites, Revives, SameEnd, Terminal;
    SameEndThrough(ys[i].run, ys[i].run, ys[i].run);
    if i < j {
      EndIsFinal(ys, steps, i, j - 1);
      RunKeepsInv(ys, steps, j - 1);
      LastStep(ys, steps, j - 1);
      if SameEnd(ys[i].run, ys[j - 1].run) {
        SameEndThrough(ys[i].run, ys[j - 1].run, ys[j].run);
        EndedStep(ys[j - 1], steps[j - 1]);
      }
    }
  }

  /** It stays ended exactly as long as no lease write revives it. */
  lemma {:induction false} EndedStaysEnded(ys: seq<Sys>, steps: seq<Step>, i: nat, j: nat)
    requires Run(ys, steps) && i <= j < |ys| && Terminal(ys[i].run.status)
    ensures (forall m :: i <= m <= j ==> Terminal(ys[m].run.status))
            <==> (forall m :: i <= m < j ==> !Revives(ys[m], steps[m]))
    decreases j
  {
    hide Inv, Enabled, Apply, Revives;
    if i < j {
      EndedStaysEnded(ys, steps, i, j - 1);
      RunKeepsInv(ys, steps, j - 1);
      LastStep(ys, steps, j - 1);
      if Terminal(ys[j - 1].run.status) {
        EndedStep(ys[j - 1], steps[j - 1]);
      }
    }
  }

  /** While it stays ended no plan of the run changes, and plans added are not executed. */
  lemma {:induction false} EndedKeepsPlans(ys: seq<Sys>, steps: seq<Step>, i: nat, j: nat)
    requires Run(ys, steps) && i <= j < |ys| && forall m :: i <= m <= j ==> Terminal(ys[m].run.status)
    ensures forall p :: p in ys[i].plans ==> p in ys[j].plans && ys[j].plans[p] == ys[i].plans[p]
    ensures forall p :: p in ys[j].plans && p !in ys[i].plans ==> ys[j].plans[p].executions == 0
    decreases j
  {
    hide Inv, Apply;
    if i < j {
      EndedKeepsPlans(ys, steps, i, j - 1);
      RunKeepsInv(ys, steps, j - 1);
      LastStep(ys, steps, j - 1);
      EndedStep(ys[j - 1], steps[j - 1]);
      if steps[j - 1].AddPlan? {
        PlanFrame(ys[j - 1], steps[j - 1]);
      }
    }
  }

  lemma PlanFrame(y: Sys, a: Step)
    requires Enabled(y, a) && a.AddPlan?
    ensures Apply(y, a).plans == y.plans[a.plan := Plan(a.kind, a.ready, AwaitingApproval, None, 0)]
  {
  }

  // ----- superseded executions -----

  /** A lease that was taken and is no longer the run's. */
  ghost predicate Superseded(y: Sys, t: Token) {
    && t in y.issued
    && (y.run.owner.Some? ==> y.run.owner.value.token != t)
    && (forall pid :: pid in y.acquires ==> y.acquires[pid].lease.token != t)
  }

  lemma SupersededStays(y: Sys, a: Step, t: Token)
    requires Enabled(y, a) && Superseded(y, t)
    ensures Superseded(Apply(y, a), t)
  {
    hide Judge, StaleRun, PlanAfter, PlanAfterCrash;
  }

  lemma SupersededStep(y: Sys, a: Step, t: Token)
    requires Enabled(y, a) && Superseded(y, t)
    ensures y.log <= Apply(y, a).log
    ensures (exists w :: w in Apply(y, a).log[|y.log|..] && w.token == t) <==> a == FailWrite(t)
  {
    if a == FailWrite(t) {
      assert Final(t, FailedRun) in Apply(y, a).log[|y.log|..];
    }
  }

  /**
   Once its lease has been cleared or taken over, an execution writes exactly if it had passed
   the failure path's check before and now makes that path's write.
   */
  lemma {:induction false} SupersededNeverWrites(ys: seq<Sys>, steps: seq<Step>, i: nat, j: nat, t: Token)
    requires Run(ys, steps) && i <= j < |ys| && Superseded(ys[i], t)
    ensures Superseded(ys[j], t) && ys[i].log <= ys[j].log
    ensures (exists w :: w in ys[j].log[|ys[i].log|..] && w.token == t) <==> (exists m :: i <= m < j && steps[m] == FailWrite(t))
    decreases j
  {
    hide Inv, Superseded, Apply, Enabled;
    if i < j {
      SupersededNeverWrites(ys, steps, i, j - 1, t);
      LastStep(ys, steps, j - 1);
      SupersededStays(ys[j - 1], steps[j - 1], t);
      SupersededStep(ys[j - 1], steps[j - 1], t);
      var a, b, c := ys[i].log, ys[j - 1].log, ys[j].log;
      assert c[|a|..] == b[|a|..] + c[|b|..];
    }
  }

  /** Cancelling, recovering, ending or re-leasing a run supersedes the lease it had. */
  lemma LosingTheLeaseSupersedes(ys: seq<Sys>, steps: seq<Step>, i: nat, t: Token)
    requires Run(ys, steps) && i < |steps|
    requires ys[i].run.owner.Some? && ys[i].run.owner.value.token == t
    requires ys[i + 1].run.owner.None? || ys[i + 1].run.owner.value.token != t
    ensures Superseded(ys[i + 1], t)
  {
    RunKeepsInv(ys, steps, i);
    var y, y' := ys[i], Apply(ys[i], steps[i]);
    forall pid | pid in y'.acquires ensures y'.acquires[pid].lease.token != t {
      assert pid in y.acquires ==> AcquireOk(y, pid);
    }
  }

  // ----- approvals -----

  function Rank(s: PlanStatus): nat {
    match s
    case AwaitingApproval => 0
    case ApprovedPending => 1
    case Executing => 2
    case _ => 3
  }

  /** Each plan is executed at most once, and only once approved. */
  lemma ExecutedAtMostOnce(ys: seq<Sys>, steps: seq<Step>, k: nat, p: PlanId)
    requires Run(ys, steps) && k < |ys| && p in ys[k].plans
    ensures ys[k].plans[p].executions <= 1
    ensures ys[k].plans[p].executions == 1 ==> ys[k].plans[p].decision == Some(Approved)
    ensures ys[k].plans[p].status.Executed? || ys[k].plans[p].status.ExecutionFailed? ==> ys[k].plans[p].executions == 1
  {
    RunKeepsInv(ys, steps, k);
    assert PlanOk(ys[k].plans[p]);
  }

  /** A plan is executed only by a decision made while the run waits for approval and the plan for its first decision. */
  lemma ExecutionNeedsApproval(y: Sys, a: Step, p: PlanId)
    requires Enabled(y, a) && p in y.plans
    ensures p in Apply(y, a).plans
    ensures Rank(Apply(y, a).plans[p].status) >= Rank(y.plans[p].status)
    ensures Apply(y, a).plans[p] != y.plans[p] ==>
      && (a.Decide? || a.ApproveCrash? || a.RejectCrash?) && a.plan == p
      && y.run.status.WaitingApproval? && y.plans[p].status.AwaitingApproval?
      && Rank(Apply(y, a).plans[p].status) > 0
    ensures Apply(y, a).plans[p].executions > y.plans[p].executions ==>
      y.plans[p].ready && !y.plans[p].kind.OtherKind? && !a.RejectCrash? && (a.Decide? ==> a.decision == Approved)
  {
  }

  /** Over a run a plan's status only moves forward, and its decision is never revised. */
  lemma {:induction false} PlansMoveForward(ys: seq<Sys>, steps: seq<Step>, i: nat, j: nat, p: PlanId)
    requires Run(ys, steps) && i <= j < |ys| && p in ys[i].plans
    ensures p in ys[j].plans && Rank(ys[j].plans[p].status) >= Rank(ys[i].plans[p].status)
    ensures Rank(ys[i].plans[p].status) > 0 ==> ys[j].plans[p] == ys[i].plans[p]
  {
    hide Apply, Enabled;
    if i < j {
      PlansMoveForward(ys, steps, i, j - 1, p);
      ExecutionNeedsApproval(ys[j - 1], steps[j - 1], p);
    }
  }

  /** The step decides a plan as approved, and its tool or patch ends as `ok` says. */
  ghost predicate Recorded(steps: seq<Step>, k: nat, p: PlanId, ok: bool)
    requires k <= |steps|
  {
    exists i :: 0 <= i < k && steps[i] == Decide(p, Approved, ok)
  }

  lemma OutcomeStep(y: Sys, a: Step, p: PlanId)
    requires Enabled(y, a) && p in Apply(y, a).plans
    ensures var after := Apply(y, a).plans[p].status;
      && (after.Executed? && !(p in y.plans && y.plans[p].status.Executed?) ==> a == Decide(p, Approved, true))
      && (after.ExecutionFailed? && !(p in y.plans && y.plans[p].status.ExecutionFailed?) ==> a == Decide(p, Approved, false))
  {
    hide StaleRun;
  }

  /** In every run a plan counts as executed only if its approved execution went well, and as failed only if it did not. */
  lemma {:induction false} OutcomeIsRecorded(ys: seq<Sys>, steps: seq<Step>, k: nat, p: PlanId)
    requires Run(ys, steps) && k < |ys| && p in ys[k].plans
    ensures ys[k].plans[p].status.Executed? ==> Recorded(steps, k, p, true)
    ensures ys[k].plans[p].status.ExecutionFailed? ==> Recorded(steps, k, p, false)
  {
    hide Apply, Enabled;
    if k > 0 {
      if p in ys[k - 1].plans {
        OutcomeIsRecorded(ys, steps, k - 1, p);
      }
      assert steps[k - 1] == steps[k - 1];
      OutcomeStep(ys[k - 1], steps[k - 1], p);
    }
  }

  /** In every run an execution's final record says completed only if its runtime completed, and failed only if it did not. */
  lemma {:induction false} FinalIsRecorded(ys: seq<Sys>, steps: seq<Step>, k: nat, t: Token, status: RunStatus)
    requires Run(ys, steps) && k < |ys| && Final(t, status) in ys[k].log
    ensures status.Completed? || status.FailedRun?
    ensures exists i :: 0 <= i < k && (steps[i] == CommitFinal(t, status.Completed?) || (status.FailedRun? && steps[i] == FailWrite(t)))
  {
    hide Apply, Enabled;
    if k > 0 {
      assert steps[k - 1] == steps[k - 1];
      if Final(t, status) in ys[k - 1].log {
        FinalIsRecorded(ys, steps, k - 1, t, status);
      } else {
        FinalStep(ys[k - 1], steps[k - 1], t, status);
      }
    }
  }

  lemma FinalStep(y: Sys, a: Step, t: Token, status: RunStatus)
    requires Enabled(y, a) && Final(t, status) in Apply(y, a).log && Final(t, status) !in y.log
    ensures status.Completed? || status.FailedRun?
    ensures a == CommitFinal(t, status.Completed?) || (status.FailedRun? && a == FailWrite(t))
  {
    hide Judge, PlanAfter, PlanAfterCrash, StaleRun;
  }

  /**
   An approval that stops before its outcome is recorded leaves the run waiting and the plan
   approved or executing; it was executed exactly if the approval got that far, and no later
   step of any run executes it, so a plan marked executing may have run or not.
   */
  lemma ApprovalStoppedEarly(ys: seq<Sys>, steps: seq<Step>, i: nat, j: nat, p: PlanId, point: CrashPoint)
    requires Run(ys, steps) && i < j < |ys| && steps[i] == ApproveCrash(p, point)
    requires p in ys[i].plans && Judge(ys[i].run, ys[i].plans[p], Approved).Proceed?
    ensures var before := ys[i].plans[p];
      && ys[i + 1].run.status.WaitingApproval? && p in ys[j].plans
      && ys[j].plans[p] == Plan(before.kind, before.ready, if point.AfterDecision? then ApprovedPending else Executing,
                                Some(Approved), if point.AfterExecution? then before.executions + 1 else before.executions)
  {
    hide Apply, Enabled;
    assert steps[i] == steps[i];
    CrashLeaves(ys[i], p, point);
    PlansMoveForward(ys, steps, i + 1, j, p);
  }

  lemma CrashLeaves(y: Sys, p: PlanId, point: CrashPoint)
    requires Enabled(y, ApproveCrash(p, point)) && Judge(y.run, y.plans[p], Approved).Proceed?
    ensures var before, y' := y.plans[p], Apply(y, ApproveCrash(p, point));
      && y'.run.status.WaitingApproval? && p in y'.plans && Rank(y'.plans[p].status) > 0
      && y'.plans[p] == Plan(before.kind, before.ready, if point.AfterDecision? then ApprovedPending else Executing,
                             Some(Approved), if point.AfterExecution? then before.executions + 1 else before.executions)
  {
  }

  /**
   A rejection that stops before it cancels the run rejects its plan and leaves the run
   waiting: approving another plan then executes it exactly when that plan still awaits its
   first decision, is ready, and is a tool invocation or a patch.
   */
  lemma RejectionStoppedEarly(y: Sys, p: PlanId, q: PlanId, ok: bool)
    requires p in y.plans && q in y.plans && p != q && Judge(y.run, y.plans[p], Rejected).Proceed?
    ensures var y' := Apply(y, RejectCrash(p));
      && y'.run.status.WaitingApproval? && y'.plans[p].status.PlanRejected? && q in y'.plans
      && (Apply(y', Decide(q, Approved, ok)).plans[q].executions == y.plans[q].executions + 1
          <==> y.plans[q].status.AwaitingApproval? && y.plans[q].ready && !y.plans[q].kind.OtherKind?)
  {
  }
}
