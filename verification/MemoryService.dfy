/**
 The memory operations and the sync worker, step by step. Each is proved to leave
 exactly the state `MemoryModel.Apply` gives, so `Outbox` speaks for them.
 */
module MemoryService {
  import opened Wrappers
  import opened MemoryModel
  import opened MemoryOutcomes
  import opened Outbox

  lemma NoTurn(h: Hub, attempts: seq<Attempt>)
    ensures Turns(h, attempts, 0) == h && FailuresOf(h.records, h.queue, attempts, 0) == []
  {
  }

  lemma NextTurn(h: Hub, attempts: seq<Attempt>, k: nat)
    requires k < |h.queue| && k < |attempts|
    ensures Turns(h, attempts, k + 1).external
            == AfterAttempt(h.records, Turns(h, attempts, k).external, h.queue[k], attempts[k])
    ensures FailuresOf(h.records, h.queue, attempts, k + 1)
            == FailuresOf(h.records, h.queue, attempts, k)
               + if Acked(h.records, h.queue[k], attempts[k]) then [] else [Retried(h.queue[k], attempts[k])]
  {
    hide AfterAttempt, Acked;
    TurnsConserve(h, attempts, k);
    TurnsKeepRecords(h, attempts, k);
    assert Turns(h, attempts, k).queue[0] == h.queue[k];
  }

  class MemoryService {
    var clock: int
    var records: map<Key, Record>
    var globals: set<MemoryId>
    var workspaces: set<MemoryId>
    var queue: seq<Entry>
    var lastSeq: nat
    var external: map<Slot, Record>
    ghost var latest: map<MemoryId, Record>
    ghost var touched: set<Slot>

    ghost function Contents(): Hub
      reads this
    {
      Hub(records, globals, workspaces, queue, lastSeq, external, latest, touched)
    }

    constructor (now: int)
      ensures Contents() == EMPTY_HUB && clock == now
    {
      clock := now;
      records, globals, workspaces, queue, lastSeq, external := map[], {}, {}, [], 0, map[];
      latest, touched := map[], {};
    }

    method WriteRecord(r: Record)
      modifies `records
      ensures records == old(records)[KeyOf(r) := r]
    {
      records := records[KeyOf(r) := r];
    }

    method UpsertIndexRecord(scope: Scope, id: MemoryId)
      modifies `globals, `workspaces
      ensures globals == (if scope.Global? then old(globals) + {id} else old(globals))
      ensures workspaces == (if scope.Workspace? then old(workspaces) + {id} else old(workspaces))
    {
      if scope.Global? {
        globals := globals + {id};
      } else {
        workspaces := workspaces + {id};
      }
    }

    method RemoveIndexRecord(scope: Scope, id: MemoryId)
      modifies `globals, `workspaces
      ensures globals == (if scope.Global? then old(globals) - {id} else old(globals))
      ensures workspaces == (if scope.Workspace? then old(workspaces) - {id} else old(workspaces))
    {
      if scope.Global? {
        globals := globals - {id};
      } else {
        workspaces := workspaces - {id};
      }
    }

    method UpdateSyncState(r: Record, eventSeq: nat)
      modifies `queue
      ensures queue == Enqueued(old(queue), r, eventSeq)
      ensures OnePerSlot(old(queue)) ==> AsksFor(queue, r, eventSeq) && InOrder(queue)
    {
      hide SyncAction, AsksFor, InOrder;
      if OnePerSlot(queue) {
        EventQueues(queue, r, eventSeq);
      }
      var pending := WithoutMemory(queue, r.id);
      ghost var kept := pending;
      var targets := [Milvus, Neo4j];
      for k := 0 to 2
        invariant pending == kept + (if k > 0 then NewEntry(r, Milvus, eventSeq) else [])
                             + (if k > 1 then NewEntry(r, Neo4j, eventSeq) else [])
      {
        var action := SyncAction(r, targets[k]);
        if action.Skip? {
          continue;
        }
        pending := pending + [Entry(targets[k], action, r.id, KeyOf(r), eventSeq, Pending, 0)];
      }
      queue := SortQueue(pending);
    }

    method AppendSyncEvent(r: Record)
      modifies `queue, `lastSeq, `latest, `touched
      ensures Contents() == old(Contents()).(
        queue := Enqueued(old(queue), r, old(lastSeq) + 1), lastSeq := old(lastSeq) + 1, latest := old(latest)[r.id := r],
        touched := old(touched) + Touches(r, Milvus) + Touches(r, Neo4j))
    {
      UpdateSyncState(r, lastSeq + 1);
      lastSeq := lastSeq + 1;
      latest, touched := latest[r.id := r], touched + Touches(r, Milvus) + Touches(r, Neo4j);
    }

    method Persist(r: Record)
      modifies `records, `globals, `workspaces, `queue, `lastSeq, `latest, `touched
      ensures Contents() == Persisted(old(Contents()), r, None)
    {
      WriteRecord(r);
      UpsertIndexRecord(r.scope, r.id);
      AppendSyncEvent(r);
    }

    /** The record an upsert writes, or why it is refused; a proposal appends its own event later. */
    method UpsertRecord(id: MemoryId, q: UpsertRequest, denied: bool) returns (r: Result<Record, MemoryError>)
      modifies `records, `globals, `workspaces
      ensures r == Upserted(old(Contents()), id, q, denied, clock)
      ensures Contents() ==
        if r.Err? then old(Contents())
        else old(Contents()).(
          records := old(records)[KeyOf(r.value) := r.value],
          globals := Listed(old(globals), id, r.value.scope.Global?, false),
          workspaces := Listed(old(workspaces), id, r.value.scope.Workspace?, false))
    {
      var scope := NormalizeScope(q.type_, q.scope);
      var key := Key(scope, id);
      if key in records && BlocksUpsert(records[key]) {
        return Err(PreviouslyDisabled);
      }
      if denied {
        return Err(PreviouslyDisabled);
      }
      if q.sensitive && (q.type_.UserProfile? || q.type_.UserPreference?) {
        return Err(SensitiveRejected);
      }
      var record := Record(id, scope, q.type_, q.field, q.value, q.summary, q.content, Active, q.enabled, q.sensitive, clock,
                           if key in records then records[key].revision + 1 else 1);
      WriteRecord(record);
      UpsertIndexRecord(scope, id);
      return Ok(record);
    }

    method UpsertMemory(id: MemoryId, q: UpsertRequest, denied: bool) returns (r: Result<Record, MemoryError>)
      modifies `records, `globals, `workspaces, `queue, `lastSeq, `latest, `touched
      ensures r == Upserted(old(Contents()), id, q, denied, clock)
      ensures Contents() == Apply(old(Contents()), Upsert(id, q, denied), clock)
    {
      r := UpsertRecord(id, q, denied);
      if r.Ok? {
        AppendSyncEvent(r.value);
      }
    }

    method ProposeMemory(id: MemoryId, q: UpsertRequest, denied: bool) returns (r: Result<Record, MemoryError>)
      modifies `records, `globals, `workspaces, `queue, `lastSeq, `latest, `touched
      ensures r == Proposed(old(Contents()), id, q, denied, clock)
      ensures Contents() == Apply(old(Contents()), Propose(id, q, denied), clock)
    {
      r := UpsertRecord(id, q, denied);
      if r.Err? {
        return;
      }
      ghost var first := r.value;
      var record := r.value.(status := PendingApproval, enabled := false, revision := r.value.revision + 1);
      assert old(records)[KeyOf(first) := first][KeyOf(record) := record] == old(records)[KeyOf(record) := record];
      Persist(record);
      return Ok(record);
    }

    method GetMemory(id: MemoryId) returns (r: Option<Record>)
      ensures r == Find(Contents(), id)
    {
      var g, w := Key(Global, id), Key(Workspace, id);
      var found: seq<Record> := [];
      if id in globals && g in records {
        found := [records[g]];
      }
      if id in workspaces && w in records {
        if found != [] && found[0].updatedAt < records[w].updatedAt {
          found := [records[w]] + found;
        } else {
          found := found + [records[w]];
        }
      }
      return if found == [] then None else Some(found[0]);
    }

    method PatchText(r: Record, p: PatchRequest) returns (record: Record)
      ensures record == r.(summary := Or(p.summary, r.summary), content := Or(p.content, r.content),
                           field := Or(p.field, r.field), value := Or(p.value, r.value))
    {
      record := r;
      if p.summary.Some? {
        record := record.(summary := p.summary.value);
      }
      if p.content.Some? {
        record := record.(content := p.content.value);
      }
      if p.field.Some? {
        record := record.(field := p.field.value);
      }
      if p.value.Some? {
        record := record.(value := p.value.value);
      }
    }

    method PatchState(r: Record, p: PatchRequest) returns (record: Record)
      ensures record == PatchOf(r, p, clock).(summary := r.summary, content := r.content, field := r.field, value := r.value)
    {
      record := r;
      if p.scope.Some? {
        record := record.(scope := NormalizeScope(record.type_, p.scope.value));
      }
      if p.enabled.Some? {
        record := record.(enabled := p.enabled.value);
      }
      if p.status == Some(ToDisabled) {
        record := record.(status := Disabled, enabled := false);
      } else if p.status == Some(ToActive) {
        record := record.(status := Active);
        if p.enabled.None? && !record.sensitive {
          record := record.(enabled := true);
        }
      }
      record := record.(updatedAt := clock, revision := record.revision + 1);
    }

    method PatchMemory(id: MemoryId, p: PatchRequest) returns (r: Result<Record, MemoryError>)
      modifies `records, `globals, `workspaces, `queue, `lastSeq, `latest, `touched
      ensures r == Patched(old(Contents()), id, p, clock)
      ensures Contents() == Apply(old(Contents()), Patch(id, p), clock)
    {
      hide Persisted, Find;
      var found := GetMemory(id);
      if found.None? {
        return Err(MemoryNotFound);
      }
      var record := PatchText(found.value, p);
      record := PatchState(record, p);
      PersistMoved(record, found.value.scope);
      return Ok(record);
    }

    method PersistMoved(r: Record, oldScope: Scope)
      modifies `records, `globals, `workspaces, `queue, `lastSeq, `latest, `touched
      ensures Contents() == Persisted(old(Contents()), r, Some(oldScope))
    {
      hide Enqueued, Touches;
      WriteRecord(r);
      if oldScope != r.scope {
        RemoveIndexRecord(oldScope, r.id);
      }
      UpsertIndexRecord(r.scope, r.id);
      AppendSyncEvent(r);
    }

    method ReviewMemory(id: MemoryId, approve: bool) returns (r: Result<Record, MemoryError>)
      modifies `records, `globals, `workspaces, `queue, `lastSeq, `latest, `touched
      ensures r == Reviewed(old(Contents()), id, approve, clock)
      ensures Contents() == Apply(old(Contents()), if approve then Approve(id) else Reject(id), clock)
      ensures match Find(old(Contents()), id)
        case None => r == Err(MemoryNotFound)
        case Some(m) =>
          if m.type_ != ProjectFact && m.type_ != ProjectRule then r == Err(NotReviewable)
          else if m.status != PendingApproval then r == Err(NotPending)
          else r == Ok(Record(m.id, m.scope, m.type_, m.field, m.value, m.summary, m.content,
                              if approve then Active else Rejected, if approve then !m.sensitive else false, m.sensitive,
                              clock, m.revision + 1))
      ensures OnePerSlot(old(queue)) && r.Ok? ==>
        var action := Some(if approve && !r.value.sensitive then DoUpsert else DoDelete);
        Waits(queue, r.value, Milvus, action, lastSeq) && Waits(queue, r.value, Neo4j, action, lastSeq)
    {
      hide Enqueued, Waits;
      var found := GetMemory(id);
      if found.None? {
        return Err(MemoryNotFound);
      }
      var record := found.value;
      if !record.type_.ProjectFact? && !record.type_.ProjectRule? {
        return Err(NotReviewable);
      }
      if !record.status.PendingApproval? {
        return Err(NotPending);
      }
      if approve {
        record := record.(status := Active, enabled := !record.sensitive);
      } else {
        record := record.(status := Rejected, enabled := false);
      }
      record := record.(updatedAt := clock, revision := record.revision + 1);
      Persist(record);
      if OnePerSlot(old(queue)) {
        EventQueues(old(queue), record, lastSeq);
      }
      return Ok(record);
    }

    method DeleteMemory(id: MemoryId) returns (r: Result<Record, MemoryError>)
      modifies `records, `globals, `workspaces, `queue, `lastSeq, `latest, `touched
      ensures r == Removed(old(Contents()), id, clock)
      ensures Contents() == Apply(old(Contents()), Delete(id), clock)
    {
      hide Enqueued;
      var found := GetMemory(id);
      if found.None? {
        return Err(MemoryNotFound);
      }
      var record := found.value.(status := Deleted, enabled := false, updatedAt := clock,
                                 revision := found.value.revision + 1);
      Persist(record);
      return Ok(record);
    }

    /** One attempt at a target; a failed call may leave its slot in any state. */
    method ProcessOne(e: Entry, a: Attempt) returns (ok: bool)
      modifies `external
      ensures ok == Acked(records, e, a)
      ensures external == AfterAttempt(records, old(external), e, a)
    {
      if a.Fails? {
        if a.left.Some? {
          external := SetSlot(external, SlotOf(e), a.left.value);
        }
        return false;
      }
      if e.action.DoDelete? {
        external := SetSlot(external, SlotOf(e), None);
        return true;
      }
      if !e.action.DoUpsert? {
        return true;
      }
      if e.key !in records {
        return false;
      }
      external := SetSlot(external, SlotOf(e), Some(records[e.key]));
      return true;
    }

    /** The successes leave the queue; the failures go to its back and nothing else changes places. */
    method ProcessPending(limit: int, attempts: seq<Attempt>) returns (succeeded: nat, failed: nat)
      requires |attempts| >= Selected(Contents(), limit)
      modifies `queue, `external
      ensures Contents() == Apply(old(Contents()), Process(limit, attempts), clock)
      ensures succeeded + failed == Selected(old(Contents()), limit)
      ensures |queue| + succeeded == |old(queue)|
    {
      hide Turns, AfterAttempt, Acked, FailuresOf;
      ghost var h := Contents();
      var bound := Clamp(limit);
      var selected := if bound < |queue| then queue[..bound] else queue;
      var remaining := queue[|selected|..];
      ghost var rest := remaining;
      succeeded, failed := 0, 0;
      NoTurn(h, attempts);
      for k := 0 to |selected|
        invariant queue == old(queue)
        invariant succeeded + failed == k && |remaining| == |rest| + failed
        invariant external == Turns(h, attempts, k).external
        invariant remaining == rest + FailuresOf(records, queue, attempts, k)
      {
        NextTurn(h, attempts, k);
        var ok := ProcessOne(selected[k], attempts[k]);
        if ok {
          succeeded := succeeded + 1;
          continue;
        }
        failed := failed + 1;
        remaining := remaining + [Retried(selected[k], attempts[k])];
      }
      queue := remaining;
      TurnsConserve(h, attempts, |selected|);
      TurnsKeepRecords(h, attempts, |selected|);
    }
  }
}
