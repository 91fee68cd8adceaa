/**
 What every run of memory operations and queue processing keeps: one entry per slot, and
 external indexes that agree with the canonical records once the queue has let them.
 */
module Outbox {
  import opened Wrappers
  import opened MemoryModel

  // ----- the queue after an event -----

  ghost predicate OnePerSlot(queue: seq<Entry>) {
    forall i, j :: 0 <= i < j < |queue| ==> SlotOf(queue[i]) != SlotOf(queue[j])
  }

  lemma {:induction false} WithoutMemoryOnePerSlot(queue: seq<Entry>, id: MemoryId)
    requires OnePerSlot(queue)
    ensures OnePerSlot(WithoutMemory(queue, id))
  {
    if queue != [] {
      var n := |queue| - 1;
      WithoutMemoryOnePerSlot(queue[..n], id);
      assert forall e :: e in queue[..n] ==> SlotOf(e) != SlotOf(queue[n]);
    }
  }

  lemma {:induction false} InsertOnePerSlot(xs: seq<Entry>, e: Entry)
    requires OnePerSlot(xs) && forall x :: x in xs ==> SlotOf(x) != SlotOf(e)
    ensures OnePerSlot(InsertEntry(xs, e))
  {
    if xs != [] {
      var n := |xs| - 1;
      InsertOnePerSlot(xs[..n], e);
      assert forall x :: x in xs[..n] ==> x in xs && SlotOf(x) != SlotOf(xs[n]);
    }
  }

  lemma {:induction false} SortOnePerSlot(xs: seq<Entry>)
    requires OnePerSlot(xs)
    ensures OnePerSlot(SortQueue(xs))
  {
    if xs != [] {
      var n := |xs| - 1;
      SortOnePerSlot(xs[..n]);
      assert forall x :: x in xs[..n] ==> SlotOf(x) != SlotOf(xs[n]);
      InsertOnePerSlot(SortQueue(xs[..n]), xs[n]);
    }
  }

  /** The queue after an event: other memories' entries as they were, and this memory's as the event asks. */
  lemma EnqueuedExact(queue: seq<Entry>, r: Record, eventSeq: nat)
    requires OnePerSlot(queue)
    ensures OnePerSlot(Enqueued(queue, r, eventSeq))
    ensures forall e :: e in Enqueued(queue, r, eventSeq) <==>
      || (e in queue && e.memory != r.id)
      || (!SyncAction(r, e.target).Skip?
          && e == Entry(e.target, SyncAction(r, e.target), r.id, KeyOf(r), eventSeq, Pending, 0))
  {
    hide SyncAction;
    var kept := WithoutMemory(queue, r.id);
    WithoutMemoryOnePerSlot(queue, r.id);
    SortOnePerSlot(kept + NewEntry(r, Milvus, eventSeq) + NewEntry(r, Neo4j, eventSeq));
    forall e ensures e in NewEntry(r, Milvus, eventSeq) + NewEntry(r, Neo4j, eventSeq) <==> e in NewEntry(r, e.target, eventSeq) {
      assert e.target.Milvus? || e.target.Neo4j?;
    }
  }

  // ----- agreement -----

  /** An external index holds the memory's current record, or does not hold the memory, as its latest event asked. */
  ghost predicate Agrees(h: Hub, id: MemoryId, t: Target)
    requires id in h.latest
  {
    match SyncAction(h.latest[id], t)
    case DoUpsert => (id, t) in h.external && h.external[(id, t)] == h.latest[id]
    case DoDelete => (id, t) !in h.external
    case Skip => true
  }

  ghost predicate Queued(queue: seq<Entry>, slot: Slot) {
    exists e :: e in queue && SlotOf(e) == slot
  }

  /** An entry carries out what its memory's latest event asked for. */
  ghost predicate EntryOk(h: Hub, e: Entry) {
    && e.memory in h.latest
    && e.action == SyncAction(h.latest[e.memory], e.target) && !e.action.Skip?
    && e.key == KeyOf(h.latest[e.memory])
    && SlotOf(e) in h.touched
  }

  ghost predicate LatestOk(h: Hub, id: MemoryId)
    requires id in h.latest
  {
    var r := h.latest[id];
    && r.id == id && KeyOf(r) in h.records && h.records[KeyOf(r)] == r
    && (r.scope.Global? ==> id in h.globals) && (r.scope.Workspace? ==> id in h.workspaces)
  }

  ghost predicate Inv(h: Hub) {
    && OnePerSlot(h.queue)
    && (forall e :: e in h.queue ==> EntryOk(h, e))
    && (forall id :: id in h.latest ==> LatestOk(h, id))
    && (forall id :: id in h.globals || id in h.workspaces ==> id in h.latest)
    && (forall key :: key in h.records ==> h.records[key].id == key.id && h.records[key].scope == key.scope)
    && (forall id, t :: id in h.latest && !Queued(h.queue, (id, t)) ==> Agrees(h, id, t))
    && (forall slot :: slot in h.external ==> slot in h.touched)
  }

  lemma PersistedEntries(h: Hub, r: Record, from: Option<Scope>)
    requires Inv(h)
    ensures var h' := Persisted(h, r, from);
      && OnePerSlot(h'.queue)
      && (forall e :: e in h'.queue ==> EntryOk(h', e))
  {
    hide Enqueued;
    var h' := Persisted(h, r, from);
    EnqueuedExact(h.queue, r, h.lastSeq + 1);
    forall e | e in h'.queue ensures EntryOk(h', e) {
      if e.memory != r.id {
        assert EntryOk(h, e);
      } else {
        assert e.target.Milvus? || e.target.Neo4j?;
        assert SlotOf(e) in Touches(r, e.target);
      }
    }
  }

  lemma PersistedAgrees(h: Hub, r: Record, from: Option<Scope>, id: MemoryId, t: Target)
    requires Inv(h) && id in Persisted(h, r, from).latest
    requires !Queued(Persisted(h, r, from).queue, (id, t))
    ensures Agrees(Persisted(h, r, from), id, t)
  {
    hide Enqueued;
    var queue' := Persisted(h, r, from).queue;
    EnqueuedExact(h.queue, r, h.lastSeq + 1);
    if id == r.id {
      var e := Entry(t, SyncAction(r, t), r.id, KeyOf(r), h.lastSeq + 1, Pending, 0);
      assert SlotOf(e) == (id, t);
    } else {
      assert Queued(h.queue, (id, t)) ==> Queued(queue', (id, t));
      assert Agrees(h, id, t);
    }
  }

  lemma PersistedKeepsInv(h: Hub, r: Record, from: Option<Scope>)
    requires Inv(h)
    ensures Inv(Persisted(h, r, from))
  {
    hide Enqueued, SyncAction, Agrees, Queued, EntryOk, OnePerSlot;
    PersistedEntries(h, r, from);
    var h' := Persisted(h, r, from);
    forall id, t | id in h'.latest && !Queued(h'.queue, (id, t)) ensures Agrees(h', id, t) {
      PersistedAgrees(h, r, from, id, t);
    }
    forall id | id in h'.latest ensures LatestOk(h', id) {
      assert id != r.id ==> LatestOk(h, id);
    }
  }

  /** Working one entry brings its slot into agreement, or keeps the entry. */
  lemma TurnKeepsInv(h: Hub, a: Attempt)
    requires Inv(h) && h.queue != []
    ensures Inv(Turn(h, a))
  {
    var h' := Turn(h, a);
    var e := h.queue[0];
    assert e in h.queue && EntryOk(h, e) && LatestOk(h, e.memory);
    forall x | x in h'.queue ensures EntryOk(h', x) {
      assert x in h.queue[1..] ==> x in h.queue && EntryOk(h, x);
    }
    if !Acked(h.records, e, a) {
      assert Retried(e, a) in h'.queue && Queued(h'.queue, SlotOf(e));
    }
    forall slot | slot != SlotOf(e) && Queued(h.queue, slot) ensures Queued(h'.queue, slot) {
      var x :| x in h.queue && SlotOf(x) == slot;
      assert x in h'.queue;
    }
    forall id, t | id in h'.latest && !Queued(h'.queue, (id, t)) ensures Agrees(h', id, t) {
      assert (id, t) != SlotOf(e) ==> Agrees(h, id, t);
    }
  }

  lemma {:induction false} TurnsKeepInv(h: Hub, attempts: seq<Attempt>, n: nat)
    requires Inv(h) && n <= |h.queue| && n <= |attempts|
    ensures Inv(Turns(h, attempts, n))
  {
    hide Inv, Turn;
    if n > 0 {
      TurnsKeepInv(h, attempts, n - 1);
      TurnKeepsInv(Turns(h, attempts, n - 1), attempts[n - 1]);
    }
  }

  lemma {:induction false} RunKeepsInv(hs: seq<Hub>, ops: seq<Op>, clock: seq<int>, k: nat)
    requires Run(hs, ops, clock) && k < |hs|
    ensures Inv(hs[k])
  {
    hide Inv, Persisted, Decided, Turns;
    if k == 0 {
      EmptyHubInv();
    } else {
      RunKeepsInv(hs, ops, clock, k - 1);
      var h, op := hs[k - 1], ops[k - 1];
      if op.Process? {
        TurnsKeepInv(h, op.attempts, Selected(h, op.limit));
      } else if Decided(h, op, clock[k - 1]).Ok? {
        PersistedKeepsInv(h, Decided(h, op, clock[k - 1]).value, FoundIn(h, op));
      }
    }
  }

  lemma EmptyHubInv()
    ensures Inv(EMPTY_HUB)
  {
  }

  /**
   After any run, a slot has at most one entry; and a slot without one whose latest event
   was not a skip agrees with the canonical record.
   */
  lemma OutboxAgreement(hs: seq<Hub>, ops: seq<Op>, clock: seq<int>, k: nat, id: MemoryId, t: Target)
    requires Run(hs, ops, clock) && k < |hs|
    ensures forall i, j :: 0 <= i < j < |hs[k].queue| ==> SlotOf(hs[k].queue[i]) != SlotOf(hs[k].queue[j])
    ensures id in hs[k].latest && !Queued(hs[k].queue, (id, t)) ==>
      match SyncAction(hs[k].latest[id], t)
      case DoUpsert => KeyOf(hs[k].latest[id]) in hs[k].records && (id, t) in hs[k].external && hs[k].external[(id, t)] == hs[k].records[KeyOf(hs[k].latest[id])]
      case DoDelete => (id, t) !in hs[k].external
      case Skip => true
  {
    hide SyncAction;
    RunKeepsInv(hs, ops, clock, k);
    if id in hs[k].latest && !Queued(hs[k].queue, (id, t)) {
      assert Agrees(hs[k], id, t) && LatestOk(hs[k], id);
    }
  }

  /** A memory listed in one scope only is found as the record its latest event named. */
  lemma LatestIsFound(hs: seq<Hub>, ops: seq<Op>, clock: seq<int>, k: nat, id: MemoryId)
    requires Run(hs, ops, clock) && k < |hs|
    requires id in hs[k].globals <==> id !in hs[k].workspaces
    ensures id in hs[k].latest && Find(hs[k], id) == Some(hs[k].latest[id])
  {
    RunKeepsInv(hs, ops, clock, k);
    assert LatestOk(hs[k], id);
  }

  /** A memory whose every event was a skip, such as a candidate never approved, is in no external index. */
  lemma OnlySkipsStayOut(hs: seq<Hub>, ops: seq<Op>, clock: seq<int>, k: nat, slot: Slot)
    requires Run(hs, ops, clock) && k < |hs|
    requires forall i :: 0 <= i <= k && slot.0 in hs[i].latest ==> SyncAction(hs[i].latest[slot.0], slot.1).Skip?
    ensures slot !in hs[k].external && !Queued(hs[k].queue, slot)
  {
    RunKeepsInv(hs, ops, clock, k);
    SkipsNeverTouch(hs, ops, clock, k, slot);
  }

  lemma {:induction false} TurnsKeepRecords(h: Hub, attempts: seq<Attempt>, n: nat)
    requires n <= |h.queue| && n <= |attempts|
    ensures Turns(h, attempts, n) == h.(queue := Turns(h, attempts, n).queue, external := Turns(h, attempts, n).external)
  {
    if n > 0 {
      TurnsKeepRecords(h, attempts, n - 1);
    }
  }

  lemma {:induction false} SkipsNeverTouch(hs: seq<Hub>, ops: seq<Op>, clock: seq<int>, k: nat, slot: Slot)
    requires Run(hs, ops, clock) && k < |hs|
    requires forall i :: 0 <= i <= k && slot.0 in hs[i].latest ==> SyncAction(hs[i].latest[slot.0], slot.1).Skip?
    ensures slot !in hs[k].touched
  {
    hide Decided, Enqueued, SyncAction;
    if k > 0 {
      SkipsNeverTouch(hs, ops, clock, k - 1, slot);
      var h, op := hs[k - 1], ops[k - 1];
      if op.Process? {
        TurnsKeepRecords(h, op.attempts, Selected(h, op.limit));
      }
    }
  }

  // ----- after a skip -----

  /** The operation appends a sync event of memory `id`. */
  predicate EventOn(h: Hub, op: Op, now: int, id: MemoryId) {
    !op.Process? && Decided(h, op, now).Ok? && Decided(h, op, now).value.id == id
  }

  /** What an external index holds for a memory. */
  function Held(h: Hub, slot: Slot): Option<Record> {
    if slot in h.external then Some(h.external[slot]) else None
  }

  ghost predicate LastSkipped(h: Hub, id: MemoryId, t: Target) {
    id in h.latest && SyncAction(h.latest[id], t).Skip?
  }

  lemma SkippedNotQueued(h: Hub, id: MemoryId, t: Target)
    requires Inv(h) && LastSkipped(h, id, t)
    ensures !Queued(h.queue, (id, t))
  {
    forall e | e in h.queue ensures SlotOf(e) != (id, t) {
      assert EntryOk(h, e);
    }
  }

  lemma TurnFreezes(h: Hub, a: Attempt, id: MemoryId, t: Target)
    requires Inv(h) && h.queue != [] && LastSkipped(h, id, t)
    ensures Held(Turn(h, a), (id, t)) == Held(h, (id, t))
  {
    hide Inv, SyncAction, Acked, Retried;
    SkippedNotQueued(h, id, t);
    assert SlotOf(h.queue[0]) != (id, t);
  }

  lemma {:induction false} TurnsFreeze(h: Hub, attempts: seq<Attempt>, n: nat, id: MemoryId, t: Target)
    requires Inv(h) && LastSkipped(h, id, t) && n <= |h.queue| && n <= |attempts|
    ensures Held(Turns(h, attempts, n), (id, t)) == Held(h, (id, t))
  {
    hide Inv, SyncAction, Turn, Held;
    if n > 0 {
      TurnsFreeze(h, attempts, n - 1, id, t);
      TurnsKeepInv(h, attempts, n - 1);
      TurnsKeepRecords(h, attempts, n - 1);
      var before := Turns(h, attempts, n - 1);
      assert before.latest == h.latest;
      TurnFreezes(before, attempts[n - 1], id, t);
    }
  }

  lemma StepFreezes(h: Hub, op: Op, now: int, id: MemoryId, t: Target)
    requires Inv(h) && Enabled(h, op) && LastSkipped(h, id, t) && !EventOn(h, op, now, id)
    ensures Held(Apply(h, op, now), (id, t)) == Held(h, (id, t))
    ensures id in Apply(h, op, now).latest && Apply(h, op, now).latest[id] == h.latest[id]
  {
    hide Inv, SyncAction, Decided, Enqueued, Turns;
    if op.Process? {
      TurnsFreeze(h, op.attempts, Selected(h, op.limit), id, t);
      TurnsKeepRecords(h, op.attempts, Selected(h, op.limit));
    }
  }

  lemma EventFreezes(h: Hub, op: Op, now: int, id: MemoryId, t: Target)
    requires Enabled(h, op) && EventOn(h, op, now, id)
    ensures Held(Apply(h, op, now), (id, t)) == Held(h, (id, t))
  {
    hide Decided, Enqueued;
  }

  lemma RunSteps(hs: seq<Hub>, ops: seq<Op>, clock: seq<int>, k: nat)
    requires Run(hs, ops, clock) && k < |ops|
    ensures Enabled(hs[k], ops[k]) && hs[k + 1] == Apply(hs[k], ops[k], clock[k])
  {
    hide Apply, Enabled;
    assert ops[k] == ops[k];
  }

  /**
   From a skip until the memory's next event its index slot is frozen: it holds exactly what
   it held just before the skip. A memory that asks for no index entry thus agrees with its
   slot, which is then absent, exactly when the slot was absent before the skip.
   */
  lemma {:induction false} SkipFreezes(hs: seq<Hub>, ops: seq<Op>, clock: seq<int>, i: nat, j: nat, id: MemoryId, t: Target)
    requires Run(hs, ops, clock) && i < j < |hs|
    requires EventOn(hs[i], ops[i], clock[i], id) && LastSkipped(hs[i + 1], id, t)
    requires forall m :: i < m < j ==> !EventOn(hs[m], ops[m], clock[m], id)
    ensures Held(hs[j], (id, t)) == Held(hs[i], (id, t)) && !Queued(hs[j].queue, (id, t))
    ensures id in hs[j].latest && hs[j].latest[id] == hs[i + 1].latest[id]
    decreases j
  {
    hide Inv, Apply, EventOn, Enabled, SyncAction, Held, Queued;
    if j == i + 1 {
      RunSteps(hs, ops, clock, i);
      EventFreezes(hs[i], ops[i], clock[i], id, t);
    } else {
      SkipFreezes(hs, ops, clock, i, j - 1, id, t);
      RunSteps(hs, ops, clock, j - 1);
      RunKeepsInv(hs, ops, clock, j - 1);
      StepFreezes(hs[j - 1], ops[j - 1], clock[j - 1], id, t);
    }
    RunKeepsInv(hs, ops, clock, j);
    SkippedNotQueued(hs[j], id, t);
  }

  /**
   A memory whose index change was done and that is then proposed anew, or otherwise skipped:
   until its next event the slot agrees, being absent, exactly when the event before the skip
   asked for a deletion; after an upsert it goes on holding the old record.
   */
  lemma ReproposedStaysIndexed(hs: seq<Hub>, ops: seq<Op>, clock: seq<int>, i: nat, j: nat, id: MemoryId, t: Target)
    requires Run(hs, ops, clock) && i < j < |hs|
    requires EventOn(hs[i], ops[i], clock[i], id) && LastSkipped(hs[i + 1], id, t)
    requires forall m :: i < m < j ==> !EventOn(hs[m], ops[m], clock[m], id)
    requires id in hs[i].latest && !LastSkipped(hs[i], id, t) && !Queued(hs[i].queue, (id, t))
    ensures Held(hs[j], (id, t)).None? <==> SyncAction(hs[i].latest[id], t).DoDelete?
    ensures SyncAction(hs[i].latest[id], t).DoUpsert? ==> Held(hs[j], (id, t)) == Some(hs[i].latest[id])
  {
    hide SyncAction, Decided, Enqueued;
    SkipFreezes(hs, ops, clock, i, j, id, t);
    RunKeepsInv(hs, ops, clock, i);
    assert Agrees(hs[i], id, t);
  }

  const SAFETY_NOTE := UpsertRequest(None, SafetyBoundary, None, None, 1, 1, true, false)

  const SAFETY_RECORD := Record(7, Global, SafetyBoundary, None, None, 1, 1, Active, true, false, 0, 1)

  const SAFETY_ENTRY := Entry(Milvus, DoUpsert, 7, Key(Global, 7), 1, Pending, 0)

  lemma NoteIsQueued()
    ensures Apply(EMPTY_HUB, Upsert(7, SAFETY_NOTE, false), 0) == Persisted(EMPTY_HUB, SAFETY_RECORD, None)
    ensures Enqueued([], SAFETY_RECORD, 1) == [SAFETY_ENTRY]
  {
    assert [SAFETY_ENTRY][..0] == [];
    assert WithoutMemory([], 7) + NewEntry(SAFETY_RECORD, Milvus, 1) + NewEntry(SAFETY_RECORD, Neo4j, 1) == [SAFETY_ENTRY];
    assert SortQueue([SAFETY_ENTRY]) == [SAFETY_ENTRY];
    hide Enqueued;
  }

  /** Such a run: a memory is indexed, then proposed anew, and waits for approval while still indexed. */
  lemma IndexedThenReproposed()
    ensures var h1 := Apply(EMPTY_HUB, Upsert(7, SAFETY_NOTE, false), 0);
      && |h1.queue| == 1
      && var h2 := Turn(h1, Succeeds);
         var h3 := Apply(h2, Propose(7, SAFETY_NOTE, false), 1);
         && h3.queue == [] && h3.latest[7].status == PendingApproval
         && Held(h3, (7, Milvus)) == Some(SAFETY_RECORD)
  {
    hide Enqueued, Turn;
    NoteIsQueued();
    var h1 := Persisted(EMPTY_HUB, SAFETY_RECORD, None);
    var h2 := Turn(h1, Succeeds);
    TurnSucceeds(h1, SAFETY_ENTRY);
    var waiting := Record(7, Global, SafetyBoundary, None, None, 1, 1, PendingApproval, false, false, 1, 3);
    assert Apply(h2, Propose(7, SAFETY_NOTE, false), 1) == Persisted(h2, waiting, None);
    SkipLeavesNothing(waiting, h2.lastSeq + 1);
  }

  lemma TurnSucceeds(h: Hub, e: Entry)
    requires h.queue == [e] && e.action.DoUpsert? && e.key in h.records
    ensures Turn(h, Succeeds) == h.(queue := [], external := h.external[SlotOf(e) := h.records[e.key]])
  {
  }

  lemma SkipLeavesNothing(r: Record, eventSeq: nat)
    requires r.status.PendingApproval?
    ensures Enqueued([], r, eventSeq) == []
  {
  }

  // ----- conservation and fairness -----

  /** The entries of the first `n` turns that failed, in order. */
  function FailuresOf(records: map<Key, Record>, items: seq<Entry>, attempts: seq<Attempt>, n: nat): seq<Entry>
    requires n <= |items| && n <= |attempts|
  {
    if n == 0 then []
    else
      FailuresOf(records, items, attempts, n - 1)
      + if Acked(records, items[n - 1], attempts[n - 1]) then [] else [Retried(items[n - 1], attempts[n - 1])]
  }

  lemma TurnMovesFront(h: Hub, a: Attempt, items: seq<Entry>, n: nat, back: seq<Entry>)
    requires n < |items| && h.queue == items[n..] + back
    ensures Turn(h, a).queue == items[n + 1..] + (back + if Acked(h.records, items[n], a) then [] else [Retried(items[n], a)])
  {
    hide Acked, AfterAttempt, Retried;
    assert h.queue[0] == items[n];
    assert h.queue[1..] == items[n + 1..] + back;
  }

  /** One call removes exactly the successes of its selected prefix; failures go to the back, in order. */
  lemma {:induction false} TurnsConserve(h: Hub, attempts: seq<Attempt>, n: nat)
    requires n <= |h.queue| && n <= |attempts|
    ensures Turns(h, attempts, n).queue == h.queue[n..] + FailuresOf(h.records, h.queue, attempts, n)
  {
    hide Turn, Acked, Retried;
    if n > 0 {
      TurnsConserve(h, attempts, n - 1);
      TurnsKeepRecords(h, attempts, n - 1);
      TurnMovesFront(Turns(h, attempts, n - 1), attempts[n - 1], h.queue, n - 1,
                     FailuresOf(h.records, h.queue, attempts, n - 1));
    }
  }

  /** `k` calls in a row with the same limit and no event between them. */
  function Calls(h: Hub, limit: int, rounds: seq<seq<Attempt>>, k: nat): Hub
    requires k <= |rounds| && forall r :: r in rounds ==> |r| >= |h.queue|
    ensures |Calls(h, limit, rounds, k).queue| <= |h.queue|
  {
    if k == 0 then h
    else
      var before := Calls(h, limit, rounds, k - 1);
      TurnsConserve(before, rounds[k - 1], Selected(before, limit));
      FailuresBound(before.records, before.queue, rounds[k - 1], Selected(before, limit));
      Turns(before, rounds[k - 1], Selected(before, limit))
  }

  lemma {:induction false} FailuresBound(records: map<Key, Record>, items: seq<Entry>, attempts: seq<Attempt>, n: nat)
    requires n <= |items| && n <= |attempts|
    ensures |FailuresOf(records, items, attempts, n)| <= n
    ensures forall e :: e in FailuresOf(records, items, attempts, n) ==> SlotOf(e) in Slots(items[..n])
  {
    if n > 0 {
      FailuresBound(records, items, attempts, n - 1);
      assert items[..n] == items[..n - 1] + [items[n - 1]];
      SlotsConcat(items[..n - 1], [items[n - 1]]);
      assert items[n - 1] in items[..n];
    }
  }

  function Slots(items: seq<Entry>): set<Slot> {
    set e | e in items :: SlotOf(e)
  }

  lemma SlotsConcat(a: seq<Entry>, b: seq<Entry>)
    ensures Slots(a + b) == Slots(a) + Slots(b)
  {
  }

  /** The slots worked on by the first `k` calls. */
  function Attempted(h: Hub, limit: int, rounds: seq<seq<Attempt>>, k: nat): set<Slot>
    requires k <= |rounds| && forall r :: r in rounds ==> |r| >= |h.queue|
  {
    if k == 0 then {}
    else
      var before := Calls(h, limit, rounds, k - 1);
      Attempted(h, limit, rounds, k - 1) + Slots(before.queue[..Selected(before, limit)])
  }

  function Min(a: nat, b: nat): (r: nat)
    ensures r <= a && r <= b && (r == a || r == b)
  {
    if a < b then a else b
  }

  function Reach(k: nat, limit: nat): nat {
    if k == 0 then 0 else Reach(k - 1, limit) + limit
  }

  lemma {:induction false} ReachIsProduct(k: nat, limit: nat)
    ensures Reach(k, limit) == k * limit
  {
    if k > 0 {
      ReachIsProduct(k - 1, limit);
    }
  }

  /** What a call does to a queue whose first `fresh_` entries have not been attempted yet. */
  lemma CallStep(h: Hub, limit: int, attempts: seq<Attempt>, todo: seq<Entry>, back: seq<Entry>)
    returns (back': seq<Entry>)
    requires h.queue == todo + back && |attempts| >= |h.queue|
    ensures var n := Min(Clamp(limit), |todo|);
      && Turns(h, attempts, Selected(h, limit)).queue == todo[n..] + back'
      && Slots(h.queue[..Selected(h, limit)]) <= Slots(todo[..n]) + Slots(back)
      && Slots(todo[..n]) <= Slots(h.queue[..Selected(h, limit)])
      && Slots(back') <= Slots(todo[..n]) + Slots(back)
  {
    hide Acked, Turns;
    var m, n := Selected(h, limit), Min(Clamp(limit), |todo|);
    TurnsConserve(h, attempts, m);
    var failures := FailuresOf(h.records, h.queue, attempts, m);
    FailuresBound(h.records, h.queue, attempts, m);
    if m <= |todo| {
      assert h.queue[..m] == todo[..n];
      assert h.queue[m..] == todo[n..] + back;
      back' := back + failures;
      SlotsConcat(back, failures);
      assert Turns(h, attempts, m).queue == todo[n..] + back';
    } else {
      assert todo[n..] == [] && todo[..n] == todo;
      assert h.queue[..m] == todo + back[..m - |todo|];
      assert h.queue[m..] == back[m - |todo|..];
      back' := h.queue[m..] + failures;
      assert Turns(h, attempts, m).queue == todo[n..] + back';
      SlotsConcat(h.queue[m..], failures);
    }
  }

  lemma SplitAtLimit(queue: seq<Entry>, done: nat, limit: nat)
    ensures var p, n := Min(done, |queue|), Min(done + limit, |queue|);
      var todo := queue[p..];
      && todo[Min(limit, |todo|)..] == queue[n..]
      && Slots(queue[..n]) == Slots(queue[..p]) + Slots(todo[..Min(limit, |todo|)])
  {
    var p, n := Min(done, |queue|), Min(done + limit, |queue|);
    var todo := queue[p..];
    assert queue[..n] == queue[..p] + todo[..Min(limit, |todo|)];
    SlotsConcat(queue[..p], todo[..Min(limit, |todo|)]);
  }

  /** After `k` calls the entries not reached yet are still in order, ahead of all that were retried. */
  ghost predicate Rotated(h: Hub, limit: int, rounds: seq<seq<Attempt>>, k: nat, back: seq<Entry>)
    requires k <= |rounds| && forall r :: r in rounds ==> |r| >= |h.queue|
  {
    var n := Min(Reach(k, Clamp(limit)), |h.queue|);
    && Calls(h, limit, rounds, k).queue == h.queue[n..] + back
    && Attempted(h, limit, rounds, k) == Slots(h.queue[..n])
    && Slots(back) <= Slots(h.queue[..n])
  }

  lemma RotateOnce(h: Hub, limit: int, rounds: seq<seq<Attempt>>, k: nat, back: seq<Entry>) returns (back': seq<Entry>)
    requires k < |rounds| && forall r :: r in rounds ==> |r| >= |h.queue|
    requires Rotated(h, limit, rounds, k, back)
    ensures Rotated(h, limit, rounds, k + 1, back')
  {
    hide Turns, Slots, Selected, Acked, Min, Clamp;
    var done := Reach(k, Clamp(limit));
    SplitAtLimit(h.queue, done, Clamp(limit));
    back' := CallStep(Calls(h, limit, rounds, k), limit, rounds[k], h.queue[Min(done, |h.queue|)..], back);
  }

  lemma NothingRotated(h: Hub, limit: int, rounds: seq<seq<Attempt>>)
    requires forall r :: r in rounds ==> |r| >= |h.queue|
    ensures Rotated(h, limit, rounds, 0, [])
  {
    hide Clamp;
    assert h.queue[0..] + [] == h.queue;
    assert h.queue[..0] == [];
  }

  lemma {:induction false} CallsRotate(h: Hub, limit: int, rounds: seq<seq<Attempt>>, k: nat) returns (back: seq<Entry>)
    requires k <= |rounds| && forall r :: r in rounds ==> |r| >= |h.queue|
    ensures Rotated(h, limit, rounds, k, back)
  {
    hide Rotated;
    if k == 0 {
      NothingRotated(h, limit, rounds);
      back := [];
    } else {
      var back0 := CallsRotate(h, limit, rounds, k - 1);
      back := RotateOnce(h, limit, rounds, k - 1, back0);
    }
  }

  /**
   With no new events, the first `k` calls attempt exactly the first `k` times the limit of
   the queued entries: all of them once that reaches the queue's length, and not before.
   */
  lemma EveryEntryIsAttempted(h: Hub, limit: int, rounds: seq<seq<Attempt>>, k: nat)
    requires Inv(h) && k <= |rounds| && forall r :: r in rounds ==> |r| >= |h.queue|
    ensures forall i :: 0 <= i < |h.queue| ==>
      (SlotOf(h.queue[i]) in Attempted(h, limit, rounds, k) <==> i < k * Clamp(limit))
  {
    var _ := CallsRotate(h, limit, rounds, k);
    ReachIsProduct(k, Clamp(limit));
    var n := Min(k * Clamp(limit), |h.queue|);
    forall i | 0 <= i < |h.queue| ensures SlotOf(h.queue[i]) in Slots(h.queue[..n]) <==> i < n {
      if i < n {
        assert h.queue[i] in h.queue[..n];
      }
    }
  }
}
