/**
 The run service step by step: each operation is proved to leave exactly the state the
 run machine's steps give.
 */
module RunService {
  import opened Wrappers
  import opened RunModel

  /** Two events appended. */
  function TwoEvents(y: Sys): Sys {
    Apply(Apply(y, AppendEvent), AppendEvent)
  }

  class RunService {
    const instance: nat
    const ttl: nat
    var clock: int
    var run: Manifest
    var issued: set<Token>
    ghost var acquires: map<nat, PendingAcquire>
    ghost var cancels: map<nat, Manifest>
    ghost var recoveries: set<nat>
    var execs: map<Token, Exec>
    var plans: map<PlanId, Plan>
    var log: seq<Write>

    ghost function Snapshot(): Sys
      reads this
    {
      Sys(clock, run, issued, acquires, cancels, recoveries, execs, plans, log)
    }

    constructor (instance: nat, ttlSeconds: int, now: int, revision: nat)
      ensures Snapshot() == Init(now, revision) && this.instance == instance && ttl >= 1
    {
      this.instance, ttl, clock := instance, if ttlSeconds < 1 then 1 else ttlSeconds, now;
      run := Manifest(Running, None, None, now, revision);
      issued, acquires, cancels, recoveries, execs, plans, log := {}, map[], map[], {}, map[], map[], [];
    }

    /** Both halves of a lease with nothing between them. */
    method TryAcquireRunLease(ghost pid: nat, drawn: Token) returns (lease: Option<Lease>)
      requires pid !in acquires && drawn !in issued && ttl >= 1
      modifies `run, `issued, `execs
      ensures var read := Apply(old(Snapshot()), AcquireRead(pid, drawn, instance, ttl));
        && lease.Some? == (read != old(Snapshot()))
        && Snapshot() == if lease.Some? then Apply(read, AcquireWrite(pid)) else old(Snapshot())
      ensures var m := old(run);
        if m.status.Running? && (m.owner.None? || m.owner.value.expiresAt <= clock) then
          && lease == Some(Lease(instance, drawn, clock + ttl))
          && run == Manifest(Running, lease, m.assistant, clock, m.revision + 1)
          && execs == old(execs)[drawn := Exec(instance, Working)] && issued == old(issued) + {drawn}
        else lease == None && run == m && execs == old(execs) && issued == old(issued)
    {
      if NonExecutable(run.status) {
        return None;
      }
      if run.owner.Some? && run.owner.value.expiresAt > clock {
        return None;
      }
      assert old(acquires)[pid := PendingAcquire(run, Lease(instance, drawn, clock + ttl), clock)] - {pid} == acquires;
      lease := Some(Lease(instance, drawn, clock + ttl));
      run := run.(owner := lease, updatedAt := clock, revision := run.revision + 1);
      issued, execs := issued + {drawn}, execs[drawn := Exec(instance, Working)];
    }

    /** The run is open and this instance owns it by this token, whatever the time. */
    ghost predicate Held(m: Manifest, token: Token) {
      && (m.status.Running? || m.status.WaitingApproval?)
      && m.owner.Some? && m.owner.value.instance == instance && m.owner.value.token == token
    }

    method RunLeaseIsActive(token: Token) returns (active: bool)
      ensures active == LeaseActive(run, instance, token)
      ensures active <==> Held(run, token)
    {
      if Terminal(run.status) {
        return false;
      }
      return run.owner.Some? && run.owner.value.instance == instance && run.owner.value.token == token;
    }

    method AppendRunEvent()
      modifies `run
      ensures run == Bumped(old(run), 1, clock)
    {
      run := run.(updatedAt := clock, revision := run.revision + 1);
    }

    /** The commit of an execution whose runtime returned a final result, with nothing between its two checks. */
    method CommitResult(token: Token, completed: bool)
      requires token in execs && execs[token] == Exec(instance, Working)
      modifies `run, `execs, `log
      ensures var messaged := Apply(old(Snapshot()), CommitMessage(token));
        Snapshot() == if token in messaged.execs then Apply(messaged, CommitFinal(token, completed)) else messaged
      ensures execs == old(execs) - {token}
      ensures var m, status := old(run), if completed then Completed else FailedRun;
        if Held(m, token) then
          && run == Manifest(status, None, Some(token), clock, m.revision + 3)
          && log == old(log) + [Message(token), Final(token, status)]
        else run == m && log == old(log)
    {
      var active := RunLeaseIsActive(token);
      if !active {
        execs := execs - {token};
        return;
      }
      log := log + [Message(token)];
      AppendRunEvent();
      AppendRunEvent();
      assert old(execs)[token := Exec(instance, Messaged)] - {token} == old(execs) - {token};
      active := RunLeaseIsActive(token);
      execs := execs - {token};
      if !active {
        return;
      }
      var status := if completed then Completed else FailedRun;
      run := run.(status := status, assistant := Some(token), owner := None, updatedAt := clock, revision := run.revision + 1);
      log := log + [Final(token, status)];
    }

    method CommitWaitingApproval(token: Token)
      requires token in execs && execs[token] == Exec(instance, Working)
      modifies `run, `execs, `log
      ensures Snapshot() == Apply(old(Snapshot()), CommitWaiting(token))
      ensures execs == old(execs) - {token}
      ensures var m := old(run);
        if Held(m, token) then
          run == Manifest(WaitingApproval, None, None, clock, m.revision + 2) && log == old(log) + [Wait(token)]
        else run == m && log == old(log)
    {
      var active := RunLeaseIsActive(token);
      execs := execs - {token};
      if !active {
        return;
      }
      AppendRunEvent();
      run := run.(status := WaitingApproval, assistant := None, owner := None, updatedAt := clock, revision := run.revision + 1);
      log := log + [Wait(token)];
    }

    /** The failure path alone: the check, two events, and the write of whatever manifest it then finds. */
    method FailRunAfterRuntimeException(token: Token)
      requires token in execs && execs[token] == Exec(instance, Working)
      modifies `run, `execs, `log
      ensures var checked := Apply(old(Snapshot()), FailCheck(token));
        Snapshot() == if token in checked.execs then Apply(TwoEvents(checked), FailWrite(token)) else checked
      ensures execs == old(execs) - {token}
      ensures var m := old(run);
        if Held(m, token) then
          run == Manifest(FailedRun, None, None, clock, m.revision + 3) && log == old(log) + [Final(token, FailedRun)]
        else run == m && log == old(log)
    {
      if Terminal(run.status) {
        execs := execs - {token};
        return;
      }
      var active := RunLeaseIsActive(token);
      if !active {
        execs := execs - {token};
        return;
      }
      execs := execs[token := Exec(instance, Failing)];
      assert execs - {token} == old(execs) - {token};
      RecordFailure(token);
    }

    /** Two events, and the write of a failed run. */
    method RecordFailure(token: Token)
      modifies `run, `execs, `log
      ensures run == Manifest(FailedRun, None, None, clock, old(run).revision + 3)
      ensures execs == old(execs) - {token} && log == old(log) + [Final(token, FailedRun)]
    {
      AppendRunEvent();
      AppendRunEvent();
      run := run.(status := FailedRun, assistant := None, owner := None, updatedAt := clock, revision := run.revision + 1);
      log := log + [Final(token, FailedRun)];
      execs := execs - {token};
    }

    /** A cancel alone; the manifest written back is the one read before the two event appends. */
    method CancelRun(ghost pid: nat)
      requires pid !in cancels
      modifies `run
      ensures var read := Apply(old(Snapshot()), CancelRead(pid));
        Snapshot() == if pid in read.cancels then Apply(TwoEvents(read), CancelWrite(pid)) else read
      ensures var m := old(run);
        run == if m.status.Running? || m.status.WaitingApproval? then Manifest(CancelledRun, None, m.assistant, clock, m.revision + 1)
               else m
    {
      var manifest := run;
      if Terminal(manifest.status) {
        return;
      }
      assert cancels[pid := manifest] - {pid} == cancels;
      AppendRunEvent();
      AppendRunEvent();
      run := manifest.(status := CancelledRun, owner := None, updatedAt := clock, revision := manifest.revision + 1);
    }

    /** A stale recovery alone. */
    method RecoverStaleRun(ghost pid: nat, staleAfter: nat)
      requires pid !in recoveries
      modifies `run
      ensures var checked := Apply(old(Snapshot()), RecoverCheck(pid, staleAfter));
        Snapshot() == if pid in checked.recoveries then Apply(TwoEvents(checked), RecoverWrite(pid)) else checked
      ensures var m := old(run);
        run == if m.status.Running? && (m.owner.None? || m.owner.value.expiresAt <= clock)
                  && clock - m.updatedAt >= staleAfter && clock - m.updatedAt >= 1
               then Manifest(FailedRun, None, m.assistant, clock, m.revision + 3)
               else m
    {
      if !run.status.Running? {
        return;
      }
      if run.owner.Some? && run.owner.value.expiresAt > clock {
        return;
      }
      var threshold := if staleAfter < 1 then 1 else staleAfter;
      if clock - run.updatedAt < threshold {
        return;
      }
      assert recoveries + {pid} - {pid} == recoveries;
      AppendRunEvent();
      AppendRunEvent();
      run := run.(status := FailedRun, owner := None, updatedAt := clock, revision := run.revision + 1);
    }

    /** A plan with this status has been decided by `d` already, and repeating the decision finds it so. */
    ghost predicate RestsOn(status: PlanStatus, d: Decision) {
      match d
      case Approved => status == ApprovedPending || status == Executed || status == ExecutionFailed
      case Rejected => status == PlanRejected
    }

    /** `ok` is how the tool invocation or the patch ends, should the decision lead to one. */
    method ResolveRunApproval(id: PlanId, d: Decision, ok: bool) returns (r: Result<PlanStatus, DecisionError>)
      modifies `run, `plans
      ensures id !in old(plans) ==> r == Err(UnknownApproval) && Snapshot() == old(Snapshot())
      ensures id in old(plans) ==>
        && Snapshot() == Apply(old(Snapshot()), Decide(id, d, ok)) && id in plans
        && match Judge(old(run), old(plans)[id], d)
           case Refuse(e) => r == Err(e)
           case _ => r == Ok(plans[id].status)
      ensures id in old(plans) ==>
        var p, m := old(plans)[id], old(run);
        if p.decision == Some(d) && RestsOn(p.status, d) then r == Ok(p.status) && run == m && plans == old(plans)
        else if m.status != WaitingApproval then r == Err(NotPending) && run == m && plans == old(plans)
        else if p.status != AwaitingApproval then r == Err(AlreadyResolved) && run == m && plans == old(plans)
        else if d == Approved && !p.ready then r == Err(NotReady) && run == m && plans == old(plans)
        else if d == Rejected then
          && r == Ok(PlanRejected) && plans == old(plans)[id := Plan(p.kind, p.ready, PlanRejected, Some(d), p.executions)]
          && run == Manifest(CancelledRun, None, m.assistant, clock, m.revision + 3)
        else if p.kind == OtherKind then
          && r == Ok(ApprovedPending) && plans == old(plans)[id := Plan(p.kind, p.ready, ApprovedPending, Some(d), p.executions)]
          && run == Manifest(WaitingApproval, m.owner, m.assistant, clock, m.revision + 1)
        else
          var status := if ok then Executed else ExecutionFailed;
          && r == Ok(status) && plans == old(plans)[id := Plan(p.kind, p.ready, status, Some(d), p.executions + 1)]
          && run == Manifest(Running, None, m.assistant, clock, m.revision + 6)
    {
      if id !in plans {
        return Err(UnknownApproval);
      }
      var plan := plans[id];
      var target := if d.Approved? then ApprovedPending else PlanRejected;
      hide PlanAfter, RunAfterDecision;
      if d.Approved? && plan.decision == Some(d) && (plan.status.Executed? || plan.status.ExecutionFailed?) {
        return Ok(plan.status);
      }
      if plan.status == target && plan.decision == Some(d) {
        return Ok(plan.status);
      }
      if !run.status.WaitingApproval? {
        return Err(NotPending);
      }
      if !plan.status.AwaitingApproval? {
        return Err(AlreadyResolved);
      }
      if d.Approved? && !plan.ready {
        return Err(NotReady);
      }
      CarryOut(id, d, ok);
      return Ok(plans[id].status);
    }

    /** What a decision that proceeds does: it is recorded, and cancels the run or executes the plan. */
    method CarryOut(id: PlanId, d: Decision, ok: bool)
      requires id in plans && run.status.WaitingApproval?
      modifies `run, `plans
      ensures var p, m := old(plans)[id], old(run);
        && plans == old(plans)[id := PlanAfter(p, d, ok)] && run == RunAfterDecision(m, p.kind, d, clock)
        && plans[id] == Plan(p.kind, p.ready,
             if d == Rejected then PlanRejected else if p.kind == OtherKind then ApprovedPending
             else if ok then Executed else ExecutionFailed,
             Some(d), if d == Approved && p.kind != OtherKind then p.executions + 1 else p.executions)
        && run == if d == Rejected then Manifest(CancelledRun, None, m.assistant, clock, m.revision + 3)
                  else if p.kind == OtherKind then Manifest(WaitingApproval, m.owner, m.assistant, clock, m.revision + 1)
                  else Manifest(Running, None, m.assistant, clock, m.revision + 6)
    {
      var plan := plans[id].(status := if d.Approved? then ApprovedPending else PlanRejected, decision := Some(d));
      plans := plans[id := plan];
      AppendRunEvent();
      if d.Rejected? {
        AppendRunEvent();
        run := run.(status := CancelledRun, owner := None, updatedAt := clock, revision := run.revision + 1);
      } else if !plan.kind.OtherKind? {
        ExecuteApproved(id, ok);
      }
    }

    /** Marks the plan executing, invokes it once, records how that ended, and lets the run go on. */
    method ExecuteApproved(id: PlanId, ok: bool)
      requires id in plans
      modifies `run, `plans
      ensures plans == old(plans)[id := old(plans)[id].(status := if ok then Executed else ExecutionFailed,
                                                        executions := old(plans)[id].executions + 1)]
      ensures run == Bumped(old(run), 5, clock).(status := Running, owner := None)
    {
      var plan := plans[id].(status := Executing);
      plans := plans[id := plan];
      AppendRunEvent();
      AppendRunEvent();
      plan := plan.(executions := plan.executions + 1);
      AppendRunEvent();
      plan := plan.(status := if ok then Executed else ExecutionFailed);
      plans := plans[id := plan];
      AppendRunEvent();
      run := run.(status := Running, owner := None, updatedAt := clock, revision := run.revision + 1);
    }
  }
}
