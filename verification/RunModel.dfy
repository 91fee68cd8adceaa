/**
 One conversation run: the executions that lease it, the operations that end it, and the
 approvals it waits for, as a state machine over interleaved steps.

 A lease is taken in two steps, a read and a revision-checked write; an execution commits in
 two, an assistant message and a status, each behind a lease check of its own. The failure
 path, a cancel and a stale recovery check, append two events, and then write the manifest
 unchecked: each is two steps, with the events and any other steps between them. An approval
 decision is one step.
 */
module RunModel {
  import opened Wrappers

  type Token = int
  type PlanId = int

  datatype RunStatus = Running | WaitingApproval | Completed | FailedRun | CancelledRun

  predicate Terminal(s: RunStatus) {
    s.Completed? || s.FailedRun? || s.CancelledRun?
  }

  predicate NonExecutable(s: RunStatus) {
    Terminal(s) || s.WaitingApproval?
  }

  datatype Lease = Lease(instance: nat, token: Token, expiresAt: int)

  /** `assistant` names the execution whose message the manifest points to. */
  datatype Manifest = Manifest(status: RunStatus, owner: Option<Lease>, assistant: Option<Token>, updatedAt: int, revision: nat)

  datatype Kind = ToolInvocation | StagedPatch | OtherKind

  datatype PlanStatus = AwaitingApproval | ApprovedPending | Executing | Executed | ExecutionFailed | PlanRejected

  datatype Decision = Approved | Rejected

  /** `executions` counts how often the plan's tool was invoked or its patch applied. */
  datatype Plan = Plan(kind: Kind, ready: bool, status: PlanStatus, decision: Option<Decision>, executions: nat)

  datatype PendingAcquire = PendingAcquire(read: Manifest, lease: Lease, at: int)

  /** `Failing` executions have passed the failure path's lease check and have yet to write. */
  datatype Stage = Working | Messaged | Failing

  datatype Exec = Exec(instance: nat, stage: Stage)

  /** What executions write: an assistant message, a wait for approval, or a final status. */
  datatype Write = Message(token: Token) | Wait(token: Token) | Final(token: Token, status: RunStatus)

  /** `cancels` holds the manifest each pending cancel read; `recoveries` are the pending stale recoveries. */
  datatype Sys = Sys(
    clock: int,
    run: Manifest,
    issued: set<Token>,
    acquires: map<nat, PendingAcquire>,
    cancels: map<nat, Manifest>,
    recoveries: set<nat>,
    execs: map<Token, Exec>,
    plans: map<PlanId, Plan>,
    log: seq<Write>)

  function Init(clock: int, revision: nat): Sys {
    Sys(clock, Manifest(Running, None, None, clock, revision), {}, map[], map[], {}, map[], map[], [])
  }

  datatype CrashPoint = AfterDecision | AfterExecuting | AfterExecution

  datatype Step =
    | Tick(d: nat)
    | AcquireRead(pid: nat, drawn: Token, instance: nat, ttl: nat)
    | AcquireWrite(pid: nat)
    | AppendEvent
    | AddPlan(plan: PlanId, kind: Kind, ready: bool)
    | CommitMessage(token: Token)
    | CommitFinal(token: Token, ok: bool)
    | CommitWaiting(token: Token)
    | FailCheck(token: Token)
    | FailWrite(token: Token)
    | CancelRead(pid: nat)
    | CancelWrite(pid: nat)
    | RecoverCheck(pid: nat, staleAfter: nat)
    | RecoverWrite(pid: nat)
    | Decide(plan: PlanId, decision: Decision, ok: bool)
    | ApproveCrash(plan: PlanId, point: CrashPoint)
    | RejectCrash(plan: PlanId)

  // ----- guards -----

  predicate OwnerLive(m: Manifest, now: int) {
    m.owner.Some? && m.owner.value.expiresAt > now
  }

  /** An execution's lease counts as active whatever its expiry, until the run ends or changes owner. */
  predicate LeaseActive(m: Manifest, instance: nat, token: Token) {
    !Terminal(m.status) && m.owner.Some? && m.owner.value.instance == instance && m.owner.value.token == token
  }

  predicate StaleRun(m: Manifest, staleAfter: nat, now: int) {
    m.status.Running? && !OwnerLive(m, now) && now - m.updatedAt >= (if staleAfter < 1 then 1 else staleAfter)
  }

  function TargetStatus(d: Decision): PlanStatus {
    match d
    case Approved => ApprovedPending
    case Rejected => PlanRejected
  }

  datatype DecisionError = UnknownApproval | NotPending | AlreadyResolved | NotReady

  datatype Verdict = Repeat | Refuse(error: DecisionError) | Proceed

  function Judge(run: Manifest, p: Plan, d: Decision): Verdict {
    if d.Approved? && p.decision == Some(d) && (p.status.Executed? || p.status.ExecutionFailed?) then Repeat
    else if p.status == TargetStatus(d) && p.decision == Some(d) then Repeat
    else if !run.status.WaitingApproval? then Refuse(NotPending)
    else if !p.status.AwaitingApproval? then Refuse(AlreadyResolved)
    else if d.Approved? && !p.ready then Refuse(NotReady)
    else Proceed
  }

  // ----- effects -----

  /** `n` event appends or writes of the manifest. */
  function Bumped(m: Manifest, n: nat, now: int): Manifest {
    m.(updatedAt := now, revision := m.revision + n)
  }

  function PlanAfter(p: Plan, d: Decision, ok: bool): Plan {
    if d.Rejected? then p.(status := PlanRejected, decision := Some(d))
    else if p.kind.OtherKind? then p.(status := ApprovedPending, decision := Some(d))
    else p.(status := if ok then Executed else ExecutionFailed, decision := Some(d), executions := p.executions + 1)
  }

  function RunAfterDecision(m: Manifest, kind: Kind, d: Decision, now: int): Manifest {
    if d.Rejected? then Bumped(m, 3, now).(status := CancelledRun, owner := None)
    else if kind.OtherKind? then Bumped(m, 1, now)
    else Bumped(m, 6, now).(status := Running, owner := None)
  }

  function PlanAfterCrash(p: Plan, point: CrashPoint): Plan {
    match point
    case AfterDecision => p.(status := ApprovedPending, decision := Some(Approved))
    case AfterExecuting => p.(status := Executing, decision := Some(Approved))
    case AfterExecution => p.(status := Executing, decision := Some(Approved), executions := p.executions + 1)
  }

  predicate Enabled(y: Sys, a: Step) {
    match a
    case AcquireRead(pid, drawn, _, ttl) => pid !in y.acquires && drawn !in y.issued && ttl >= 1
    case AcquireWrite(pid) => pid in y.acquires
    case AddPlan(plan, _, _) => plan !in y.plans
    case CommitMessage(t) => t in y.execs && y.execs[t].stage.Working?
    case CommitFinal(t, _) => t in y.execs && y.execs[t].stage.Messaged?
    case CommitWaiting(t) => t in y.execs && y.execs[t].stage.Working?
    case FailCheck(t) => t in y.execs && y.execs[t].stage.Working?
    case FailWrite(t) => t in y.execs && y.execs[t].stage.Failing?
    case CancelRead(pid) => pid !in y.cancels
    case CancelWrite(pid) => pid in y.cancels
    case RecoverCheck(pid, _) => pid !in y.recoveries
    case RecoverWrite(pid) => pid in y.recoveries
    case Decide(plan, _, _) => plan in y.plans
    case ApproveCrash(plan, _) => plan in y.plans && !y.plans[plan].kind.OtherKind?
    case RejectCrash(plan) => plan in y.plans
    case _ => true
  }

  /** An execution ends the run's lease with a write, or finds its lease gone and stops. */
  function Ended(y: Sys, t: Token, m: Manifest, w: Write): Sys
    requires t in y.execs
  {
    if LeaseActive(y.run, y.execs[t].instance, t)
    then y.(run := m, execs := y.execs - {t}, log := y.log + [w])
    else y.(execs := y.execs - {t})
  }

  function Apply(y: Sys, a: Step): Sys
    requires Enabled(y, a)
  {
    var m := y.run;
    match a
    case Tick(d) => y.(clock := y.clock + d)
    case AcquireRead(pid, drawn, instance, ttl) =>
      if NonExecutable(m.status) || OwnerLive(m, y.clock) then y
      else y.(issued := y.issued + {drawn},
              acquires := y.acquires[pid := PendingAcquire(m, Lease(instance, drawn, y.clock + ttl), y.clock)])
    case AcquireWrite(pid) =>
      var p := y.acquires[pid];
      if m.revision != p.read.revision then y.(acquires := y.acquires - {pid})
      else y.(run := p.read.(owner := Some(p.lease), updatedAt := p.at, revision := p.read.revision + 1),
              acquires := y.acquires - {pid}, execs := y.execs[p.lease.token := Exec(p.lease.instance, Working)])
    case AppendEvent => y.(run := Bumped(m, 1, y.clock))
    case AddPlan(plan, kind, ready) => y.(plans := y.plans[plan := Plan(kind, ready, AwaitingApproval, None, 0)])
    case CommitMessage(t) =>
      if LeaseActive(m, y.execs[t].instance, t)
      then y.(run := Bumped(m, 2, y.clock), execs := y.execs[t := y.execs[t].(stage := Messaged)], log := y.log + [Message(t)])
      else y.(execs := y.execs - {t})
    case CommitFinal(t, ok) =>
      var status := if ok then Completed else FailedRun;
      Ended(y, t, Bumped(m, 1, y.clock).(status := status, owner := None, assistant := Some(t)), Final(t, status))
    case CommitWaiting(t) =>
      Ended(y, t, Bumped(m, 2, y.clock).(status := WaitingApproval, owner := None, assistant := None), Wait(t))
    case FailCheck(t) =>
      if LeaseActive(m, y.execs[t].instance, t) then y.(execs := y.execs[t := y.execs[t].(stage := Failing)])
      else y.(execs := y.execs - {t})
    case FailWrite(t) =>
      y.(run := Bumped(m, 1, y.clock).(status := FailedRun, owner := None, assistant := None),
         execs := y.execs - {t}, log := y.log + [Final(t, FailedRun)])
    case CancelRead(pid) => if Terminal(m.status) then y else y.(cancels := y.cancels[pid := m])
    case CancelWrite(pid) =>
      y.(run := Bumped(y.cancels[pid], 1, y.clock).(status := CancelledRun, owner := None), cancels := y.cancels - {pid})
    case RecoverCheck(pid, staleAfter) =>
      if StaleRun(m, staleAfter, y.clock) then y.(recoveries := y.recoveries + {pid}) else y
    case RecoverWrite(pid) =>
      y.(run := Bumped(m, 1, y.clock).(status := FailedRun, owner := None), recoveries := y.recoveries - {pid})
    case Decide(plan, d, ok) =>
      var p := y.plans[plan];
      if Judge(m, p, d) != Proceed then y
      else y.(run := RunAfterDecision(m, p.kind, d, y.clock), plans := y.plans[plan := PlanAfter(p, d, ok)])
    case ApproveCrash(plan, point) =>
      var p := y.plans[plan];
      if Judge(m, p, Approved) != Proceed then y
      else y.(run := Bumped(m, 1, y.clock), plans := y.plans[plan := PlanAfterCrash(p, point)])
    case RejectCrash(plan) =>
      var p := y.plans[plan];
      if Judge(m, p, Rejected) != Proceed then y
      else y.(run := Bumped(m, 1, y.clock), plans := y.plans[plan := PlanAfter(p, Rejected, false)])
  }

  /** States passed through, and the steps between them. */
  ghost predicate Chain(ys: seq<Sys>, steps: seq<Step>) {
    && |ys| == |steps| + 1
    && forall i {:trigger steps[i]} :: 0 <= i < |steps| ==> Enabled(ys[i], steps[i]) && ys[i + 1] == Apply(ys[i], steps[i])
  }

  ghost predicate Run(ys: seq<Sys>, steps: seq<Step>) {
    Chain(ys, steps) && exists clock, revision :: ys[0] == Init(clock, revision)
  }
}
