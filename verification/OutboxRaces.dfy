/**
 The outbox of a user's global memories, which all workspaces share, while every workspace
 has its own queue: events and `process_pending` calls of any workspaces interleave, and a
 call writes back the queue it read, whatever was queued meanwhile.
 */
module OutboxRaces {
  import opened Wrappers
  import opened MemoryModel
  import opened Outbox

  type WorkspaceId = nat

  /** A workspace's queue and the number of its newest sync event. */
  datatype Box = Box(queue: seq<Entry>, lastSeq: nat)

  /** A call under way: the entries it selected, how many of them it attempted, those that failed, and the queue behind. */
  datatype Call = Call(items: seq<Entry>, done: nat, failures: seq<Entry>, behind: seq<Entry>)

  /** The hub's own queue is not used. */
  datatype World = World(hub: Hub, boxes: map<WorkspaceId, Box>, calls: map<WorkspaceId, Call>)

  datatype Step =
    | Event(w: WorkspaceId, op: Op, now: int)
    | Read(w: WorkspaceId, limit: int)
    | Try(w: WorkspaceId, attempt: Attempt)
    | Write(w: WorkspaceId)

  function BoxOf(y: World, w: WorkspaceId): Box {
    if w in y.boxes then y.boxes[w] else Box([], 0)
  }

  /** The hub as workspace `w` sees it. */
  function View(y: World, w: WorkspaceId): Hub {
    y.hub.(queue := BoxOf(y, w).queue, lastSeq := BoxOf(y, w).lastSeq)
  }

  function Stored(y: World, w: WorkspaceId, h: Hub): World {
    y.(hub := h.(queue := [], lastSeq := 0), boxes := y.boxes[w := Box(h.queue, h.lastSeq)])
  }

  predicate Can(y: World, s: Step) {
    match s
    case Event(w, op, now) =>
      !op.Process? && (Decided(View(y, w), op, now).Ok? ==> Decided(View(y, w), op, now).value.scope.Global?)
    case Read(w, _) => w !in y.calls
    case Try(w, _) => w in y.calls && y.calls[w].done < |y.calls[w].items|
    case Write(w) => w in y.calls && y.calls[w].done == |y.calls[w].items|
  }

  /** A call after its next attempt. */
  function Advanced(records: map<Key, Record>, c: Call, a: Attempt): (c': Call)
    requires c.done < |c.items|
    ensures c'.done <= |c'.items|
  {
    var e := c.items[c.done];
    c.(done := c.done + 1, failures := c.failures + if Acked(records, e, a) then [] else [Retried(e, a)])
  }

  function Next(y: World, s: Step): World
    requires Can(y, s)
  {
    match s
    case Event(w, op, now) => Stored(y, w, Apply(View(y, w), op, now))
    case Read(w, limit) =>
      var n := Selected(View(y, w), limit);
      y.(calls := y.calls[w := Call(BoxOf(y, w).queue[..n], 0, [], BoxOf(y, w).queue[n..])])
    case Try(w, a) =>
      var c := y.calls[w];
      y.(hub := y.hub.(external := AfterAttempt(y.hub.records, y.hub.external, c.items[c.done], a)),
         calls := y.calls[w := Advanced(y.hub.records, c, a)])
    case Write(w) =>
      y.(boxes := y.boxes[w := BoxOf(y, w).(queue := y.calls[w].behind + y.calls[w].failures)], calls := y.calls - {w})
  }

  const QUIET := World(EMPTY_HUB, map[], map[])

  ghost predicate Chain(ys: seq<World>, steps: seq<Step>) {
    && |ys| == |steps| + 1
    && forall i {:trigger steps[i]} :: 0 <= i < |steps| ==> Can(ys[i], steps[i]) && ys[i + 1] == Next(ys[i], steps[i])
  }

  ghost predicate Started(ys: seq<World>, steps: seq<Step>) {
    Chain(ys, steps) && ys[0] == QUIET
  }

  lemma ChainSteps(ys: seq<World>, steps: seq<Step>, k: nat)
    requires Chain(ys, steps) && k < |steps|
    ensures Can(ys[k], steps[k]) && ys[k + 1] == Next(ys[k], steps[k])
  {
    hide Can, Next;
    assert steps[k] == steps[k];
  }

  // ----- a call that nothing interrupts -----

  ghost predicate Uninterrupted(steps: seq<Step>, w: WorkspaceId, limit: int, attempts: seq<Attempt>, n: nat) {
    && |steps| == n + 2 && n <= |attempts| && steps[0] == Read(w, limit) && steps[n + 1] == Write(w)
    && forall i :: 0 <= i < n ==> steps[i + 1] == Try(w, attempts[i])
  }

  /** The call after `k` attempts, and what the external indexes hold then. */
  function CallAfter(h: Hub, attempts: seq<Attempt>, n: nat, k: nat): Call
    requires k <= n <= |h.queue| && n <= |attempts|
  {
    Call(h.queue[..n], k, FailuresOf(h.records, h.queue, attempts, k), h.queue[n..])
  }

  lemma TryIsTurn(h: Hub, attempts: seq<Attempt>, n: nat, k: nat)
    requires k < n <= |h.queue| && n <= |attempts|
    ensures Advanced(h.records, CallAfter(h, attempts, n, k), attempts[k]) == CallAfter(h, attempts, n, k + 1)
    ensures AfterAttempt(h.records, Turns(h, attempts, k).external, h.queue[k], attempts[k]) == Turns(h, attempts, k + 1).external
  {
    hide AfterAttempt, Acked, Retried;
    TurnsConserve(h, attempts, k);
    TurnsKeepRecords(h, attempts, k);
  }

  /** The world after a call's first `k` attempts, when nothing came between them. */
  function Midway(y: World, w: WorkspaceId, attempts: seq<Attempt>, n: nat, k: nat): World
    requires k <= n <= |BoxOf(y, w).queue| && n <= |attempts|
  {
    y.(hub := y.hub.(external := Turns(View(y, w), attempts, k).external),
       calls := y.calls[w := CallAfter(View(y, w), attempts, n, k)])
  }

  lemma MidwayBegins(y: World, w: WorkspaceId, limit: int, attempts: seq<Attempt>, n: nat)
    requires Can(y, Read(w, limit)) && n == Selected(View(y, w), limit) && n <= |attempts|
    ensures Next(y, Read(w, limit)) == Midway(y, w, attempts, n, 0)
  {
  }

  lemma MidwayMoves(y: World, w: WorkspaceId, attempts: seq<Attempt>, n: nat, k: nat)
    requires k < n <= |BoxOf(y, w).queue| && n <= |attempts|
    ensures Can(Midway(y, w, attempts, n, k), Try(w, attempts[k]))
    ensures Next(Midway(y, w, attempts, n, k), Try(w, attempts[k])) == Midway(y, w, attempts, n, k + 1)
  {
    hide AfterAttempt, Advanced, Turns, FailuresOf, Apply, Decided;
    TryIsTurn(View(y, w), attempts, n, k);
  }

  lemma {:induction false} TriesAreTurns(ys: seq<World>, steps: seq<Step>, w: WorkspaceId, limit: int, attempts: seq<Attempt>, n: nat, k: nat)
    requires Chain(ys, steps) && Uninterrupted(steps, w, limit, attempts, n) && k <= n
    requires n == Selected(View(ys[0], w), limit)
    ensures ys[k + 1] == Midway(ys[0], w, attempts, n, k)
  {
    hide Next, Can, Midway, Selected;
    ChainSteps(ys, steps, k);
    if k == 0 {
      MidwayBegins(ys[0], w, limit, attempts, n);
    } else {
      TriesAreTurns(ys, steps, w, limit, attempts, n, k - 1);
      MidwayMoves(ys[0], w, attempts, n, k - 1);
    }
  }

  lemma MidwayEnds(y: World, w: WorkspaceId, attempts: seq<Attempt>, n: nat)
    requires n <= |BoxOf(y, w).queue| && n <= |attempts| && w !in y.calls && y.hub.queue == [] && y.hub.lastSeq == 0
    ensures Can(Midway(y, w, attempts, n, n), Write(w))
    ensures Next(Midway(y, w, attempts, n, n), Write(w)) == Stored(y, w, Turns(View(y, w), attempts, n))
  {
    hide FailuresOf, Turns;
    TurnsConserve(View(y, w), attempts, n);
    TurnsKeepRecords(View(y, w), attempts, n);
    assert (y.calls[w := CallAfter(View(y, w), attempts, n, n)] - {w}) == y.calls;
  }

  /** A call with no event and no other call's step between its own is one step of the memory model. */
  lemma UninterruptedCall(ys: seq<World>, steps: seq<Step>, w: WorkspaceId, limit: int, attempts: seq<Attempt>, now: int)
    requires Chain(ys, steps) && Enabled(View(ys[0], w), Process(limit, attempts))
    requires Uninterrupted(steps, w, limit, attempts, Selected(View(ys[0], w), limit))
    requires ys[0].hub.queue == [] && ys[0].hub.lastSeq == 0
    ensures ys[|steps|] == Stored(ys[0], w, Apply(View(ys[0], w), Process(limit, attempts), now))
  {
    var n := Selected(View(ys[0], w), limit);
    ChainSteps(ys, steps, 0);
    hide Selected, Next, Midway, Stored, Turns;
    TriesAreTurns(ys, steps, w, limit, attempts, n, n);
    ChainSteps(ys, steps, n + 1);
    MidwayEnds(ys[0], w, attempts, n);
  }

  // ----- what queues hold -----

  ghost predicate NoSkips(queue: seq<Entry>) {
    forall e :: e in queue ==> !e.action.Skip?
  }

  /** What a call will leave of the queue it read, if the rest of its attempts succeed or not. */
  function Remaining(c: Call): seq<Entry>
    requires c.done <= |c.items|
  {
    c.items[c.done..] + c.behind + c.failures
  }

  /** The entries of a workspace that are yet to be worked: those a call read, once one has begun. */
  function Unworked(y: World, w: WorkspaceId): seq<Entry>
    requires w in y.calls ==> y.calls[w].done <= |y.calls[w].items|
  {
    if w in y.calls then Remaining(y.calls[w]) else BoxOf(y, w).queue
  }

  ghost predicate Sound(queue: seq<Entry>) {
    OnePerSlot(queue) && NoSkips(queue)
  }

  ghost predicate WorldInv(y: World) {
    && (forall w :: w in y.boxes ==> Sound(y.boxes[w].queue))
    && (forall w :: w in y.calls ==> y.calls[w].done <= |y.calls[w].items| && Sound(Remaining(y.calls[w])))
  }

  lemma OnePerSlotMoves(front: seq<Entry>, e: Entry, e': Entry, back: seq<Entry>)
    requires OnePerSlot([e] + front + back) && SlotOf(e') == SlotOf(e)
    ensures OnePerSlot(front + back + [e']) && OnePerSlot(front + back)
  {
    var before, after := [e] + front + back, front + back + [e'];
    assert forall i :: 0 <= i < |front + back| ==> before[i + 1] == after[i] == (front + back)[i];
    assert after[|front + back|] == e' && before[0] == e;
    forall i, j | 0 <= i < j < |after| ensures SlotOf(after[i]) != SlotOf(after[j]) {
      if j < |front + back| {
        assert SlotOf(before[i + 1]) != SlotOf(before[j + 1]);
      } else {
        assert SlotOf(before[0]) != SlotOf(before[i + 1]);
      }
    }
  }

  lemma TryRemains(records: map<Key, Record>, c: Call, a: Attempt)
    requires c.done < |c.items|
    ensures var e, rest := c.items[c.done], c.items[c.done + 1..] + c.behind;
      && Remaining(c) == [e] + rest + c.failures
      && Remaining(Advanced(records, c, a)) == rest + c.failures + (if Acked(records, e, a) then [] else [Retried(e, a)])
  {
    hide Acked, Retried;
  }

  lemma TryKeepsSound(records: map<Key, Record>, c: Call, a: Attempt)
    requires c.done < |c.items| && Sound(Remaining(c))
    ensures Sound(Remaining(Advanced(records, c, a)))
  {
    hide Acked, Remaining, Advanced, OnePerSlot;
    TryRemains(records, c, a);
    var e, rest := c.items[c.done], c.items[c.done + 1..] + c.behind;
    OnePerSlotMoves(rest, e, Retried(e, a), c.failures);
    assert rest + c.failures + [] == rest + c.failures;
    assert forall x :: x in rest + c.failures ==> x in [e] + rest + c.failures;
  }

  lemma EventKeepsSound(queue: seq<Entry>, r: Record, eventSeq: nat)
    requires Sound(queue)
    ensures Sound(Enqueued(queue, r, eventSeq))
  {
    hide OnePerSlot, Enqueued, SyncAction;
    EnqueuedExact(queue, r, eventSeq);
  }

  lemma EmptyIsSound()
    ensures Sound([])
  {
  }

  lemma ReadRemains(queue: seq<Entry>, n: nat)
    requires n <= |queue|
    ensures Remaining(Call(queue[..n], 0, [], queue[n..])) == queue
  {
    assert queue[..n] + queue[n..] + [] == queue;
  }

  lemma WriteRemains(c: Call)
    requires c.done == |c.items|
    ensures Remaining(c) == c.behind + c.failures
  {
  }

  lemma StepKeepsWorld(y: World, s: Step)
    requires WorldInv(y) && Can(y, s)
    ensures WorldInv(Next(y, s))
  {
    hide Sound, Decided, Enqueued, Remaining, Advanced, Acked, AfterAttempt, Selected;
    EmptyIsSound();
    match s
    case Event(w, op, now) =>
      if Decided(View(y, w), op, now).Ok? {
        EventKeepsSound(BoxOf(y, w).queue, Decided(View(y, w), op, now).value, BoxOf(y, w).lastSeq + 1);
      }
    case Read(w, limit) =>
      ReadRemains(BoxOf(y, w).queue, Selected(View(y, w), limit));
    case Try(w, a) =>
      TryKeepsSound(y.hub.records, y.calls[w], a);
    case Write(w) =>
      WriteRemains(y.calls[w]);
  }

  lemma QuietWorld()
    ensures WorldInv(QUIET)
  {
  }

  lemma {:induction false} RunKeepsWorld(ys: seq<World>, steps: seq<Step>, k: nat)
    requires Started(ys, steps) && k < |ys|
    ensures WorldInv(ys[k])
  {
    hide WorldInv, Can, Next;
    if k == 0 {
      QuietWorld();
    } else {
      RunKeepsWorld(ys, steps, k - 1);
      ChainSteps(ys, steps, k - 1);
      StepKeepsWorld(ys[k - 1], steps[k - 1]);
    }
  }

  // ----- the last attempt decides -----

  /** The step attempts an entry of the slot. */
  predicate Attempts(y: World, s: Step, slot: Slot) {
    s.Try? && Can(y, s) && SlotOf(EntryTried(y, s)) == slot
  }

  function EntryTried(y: World, s: Step): Entry
    requires s.Try? && Can(y, s)
  {
    y.calls[s.w].items[y.calls[s.w].done]
  }

  lemma StepHolds(y: World, s: Step, slot: Slot)
    requires Can(y, s) && !Attempts(y, s, slot)
    ensures Held(Next(y, s).hub, slot) == Held(y.hub, slot)
  {
    hide Decided, Enqueued, Advanced, Selected, Acked;
  }

  /** From one attempt at a slot to the next it holds the same. */
  lemma {:induction false} HeldSince(ys: seq<World>, steps: seq<Step>, m: nat, k: nat, slot: Slot)
    requires Chain(ys, steps) && m <= k < |ys| && forall i :: m <= i < k ==> !Attempts(ys[i], steps[i], slot)
    ensures Held(ys[k].hub, slot) == Held(ys[m].hub, slot)
    decreases k
  {
    hide Can, Next, Held, Attempts;
    if m < k {
      HeldSince(ys, steps, m, k - 1, slot);
      ChainSteps(ys, steps, k - 1);
      StepHolds(ys[k - 1], steps[k - 1], slot);
    }
  }

  /** What an index holds is what record `r` asks for. */
  predicate Fits(r: Record, t: Target, held: Option<Record>) {
    match SyncAction(r, t)
    case DoUpsert => held == Some(r)
    case DoDelete => held.None?
    case Skip => true
  }

  /** Working the entry with these records does what record `r` asks for. */
  predicate Serves(records: map<Key, Record>, e: Entry, r: Record) {
    e.action == SyncAction(r, e.target) && (e.action.DoUpsert? ==> e.key in records && records[e.key] == r)
  }

  lemma TriedLeaves(y: World, s: Step, r: Record)
    requires s.Try? && Can(y, s) && !EntryTried(y, s).action.Skip? && !SyncAction(r, EntryTried(y, s).target).Skip?
    ensures var e, held := EntryTried(y, s), Held(Next(y, s).hub, SlotOf(EntryTried(y, s)));
      && (Acked(y.hub.records, e, s.attempt) ==> (Fits(r, e.target, held) <==> Serves(y.hub.records, e, r)))
      && (!Acked(y.hub.records, e, s.attempt) ==>
          held == if s.attempt.Fails? && s.attempt.left.Some? then s.attempt.left.value else Held(y.hub, SlotOf(e)))
  {
    hide SyncAction;
  }

  lemma TriedIsNoSkip(y: World, s: Step)
    requires WorldInv(y) && s.Try? && Can(y, s)
    ensures !EntryTried(y, s).action.Skip?
  {
    var c := y.calls[s.w];
    assert c.items[c.done..][0] in Remaining(c);
  }

  /**
   In every run a slot agrees with its memory's latest event exactly as its last attempt
   decides: an attempt that succeeded must have worked an entry asking for the same and read
   the very record that is the latest; a failed one must have left by chance what is asked for.
   */
  lemma LastAttemptDecides(ys: seq<World>, steps: seq<Step>, m: nat, k: nat, id: MemoryId, t: Target)
    requires Started(ys, steps) && m < k < |ys| && Attempts(ys[m], steps[m], (id, t))
    requires forall i :: m < i < k ==> !Attempts(ys[i], steps[i], (id, t))
    requires id in ys[k].hub.latest && !SyncAction(ys[k].hub.latest[id], t).Skip?
    ensures var e, a, r := EntryTried(ys[m], steps[m]), steps[m].attempt, ys[k].hub.latest[id];
      Agrees(ys[k].hub, id, t) <==>
        if Acked(ys[m].hub.records, e, a) then Serves(ys[m].hub.records, e, r)
        else if a.Fails? && a.left.Some? then Fits(r, t, a.left.value)
        else Fits(r, t, Held(ys[m].hub, (id, t)))
  {
    hide WorldInv, Can, Next, Acked, SyncAction, Serves;
    RunKeepsWorld(ys, steps, m);
    ChainSteps(ys, steps, m);
    TriedIsNoSkip(ys[m], steps[m]);
    TriedLeaves(ys[m], steps[m], ys[k].hub.latest[id]);
    HeldSince(ys, steps, m + 1, k, (id, t));
  }

  /** Before any attempt a slot agrees exactly if a deletion is asked for. */
  lemma NeverAttempted(ys: seq<World>, steps: seq<Step>, k: nat, id: MemoryId, t: Target)
    requires Started(ys, steps) && k < |ys| && forall i :: 0 <= i < k ==> !Attempts(ys[i], steps[i], (id, t))
    requires id in ys[k].hub.latest && !SyncAction(ys[k].hub.latest[id], t).Skip?
    ensures Agrees(ys[k].hub, id, t) <==> SyncAction(ys[k].hub.latest[id], t).DoDelete?
  {
    HeldSince(ys, steps, 0, k, (id, t));
    assert Held(QUIET.hub, (id, t)) == None;
  }

  // ----- one workspace at a time -----

  /** The step appends a sync event of memory `id`. */
  predicate EventOf(y: World, s: Step, id: MemoryId) {
    s.Event? && EventOn(View(y, s.w), s.op, s.now, id)
  }

  /** An entry that carries out what its memory's latest event asks for. */
  predicate AsksLatest(h: Hub, e: Entry) {
    && e.memory in h.latest && !e.action.Skip?
    && e.action == SyncAction(h.latest[e.memory], e.target) && e.key == KeyOf(h.latest[e.memory])
  }

  predicate LatestStored(h: Hub, id: MemoryId) {
    id in h.latest ==> h.latest[id].id == id && KeyOf(h.latest[id]) in h.records && h.records[KeyOf(h.latest[id])] == h.latest[id]
  }

  ghost predicate OnlyAsks(h: Hub, id: MemoryId, pending: seq<Entry>) {
    forall e :: e in pending && e.memory == id ==> AsksLatest(h, e)
  }

  ghost predicate IdleAgrees(h: Hub, id: MemoryId, pending: seq<Entry>) {
    forall t :: id in h.latest && !Queued(pending, (id, t)) ==> Agrees(h, id, t)
  }

  /** What is pending does right by the memory. */
  ghost predicate Served(h: Hub, id: MemoryId, pending: seq<Entry>) {
    LatestStored(h, id) && OnlyAsks(h, id, pending) && IdleAgrees(h, id, pending)
  }

  ghost predicate ServedBy(y: World, w: WorkspaceId, id: MemoryId)
    requires WorldInv(y)
  {
    && Served(y.hub, id, Unworked(y, w))
    && forall v, e :: v != w && e in Unworked(y, v) ==> e.memory != id
  }

  /** Only what the predicate reads of the hub and the queue matters to a memory. */
  lemma SameServed(h: Hub, h': Hub, id: MemoryId, pending: seq<Entry>, pending': seq<Entry>)
    requires Served(h, id, pending)
    requires id in h.latest <==> id in h'.latest
    requires id in h.latest ==> h'.latest[id] == h.latest[id]
    requires forall key: Key :: key.id == id && key in h.records ==> key in h'.records && h'.records[key] == h.records[key]
    requires forall t :: Held(h', (id, t)) == Held(h, (id, t))
    requires forall e: Entry :: e.memory == id ==> (e in pending <==> e in pending')
    ensures Served(h', id, pending')
  {
    hide SyncAction;
    forall t | id in h'.latest && !Queued(pending', (id, t)) ensures Agrees(h', id, t) {
      assert !Queued(pending, (id, t));
      assert Agrees(h, id, t) && Held(h', (id, t)) == Held(h, (id, t));
    }
  }

  lemma EventServes(h: Hub, r: Record, from: Option<Scope>)
    requires Sound(h.queue)
    ensures Served(Persisted(h, r, from), r.id, Persisted(h, r, from).queue)
  {
    hide Enqueued, SyncAction;
    EnqueuedExact(h.queue, r, h.lastSeq + 1);
    var h' := Persisted(h, r, from);
    forall t | !Queued(h'.queue, (r.id, t)) ensures SyncAction(r, t).Skip? {
      var e := Entry(t, SyncAction(r, t), r.id, KeyOf(r), h.lastSeq + 1, Pending, 0);
      assert SlotOf(e) == (r.id, t);
    }
  }

  lemma TryServes(h: Hub, c: Call, a: Attempt, id: MemoryId)
    requires c.done < |c.items| && Sound(Remaining(c)) && Served(h, id, Remaining(c))
    ensures Served(h.(external := AfterAttempt(h.records, h.external, c.items[c.done], a)), id, Remaining(Advanced(h.records, c, a)))
  {
    hide Remaining, Advanced, SyncAction;
    TryRemains(h.records, c, a);
    var e, rest := c.items[c.done], c.items[c.done + 1..] + c.behind;
    var was, after := Remaining(c), Remaining(Advanced(h.records, c, a));
    assert e in was;
    var h' := h.(external := AfterAttempt(h.records, h.external, e, a));
    forall x | x in after && x.memory == id ensures AsksLatest(h', x) {
      assert x in rest + c.failures ==> x in was;
    }
    forall t | id in h.latest && !Queued(after, (id, t)) ensures Agrees(h', id, t) {
      if !Acked(h.records, e, a) {
        assert Retried(e, a) in after && SlotOf(Retried(e, a)) == SlotOf(e);
      }
      if SlotOf(e) != (id, t) {
        forall x | x in was ensures SlotOf(x) != (id, t) {
          assert x != e ==> x in after;
        }
        assert Agrees(h, id, t);
      }
    }
  }

  /** What an event does to what is pending: the workspace's queue changes, unless a call will overwrite it. */
  lemma EventLeaves(y: World, s: Step, v: WorkspaceId)
    requires WorldInv(y) && s.Event? && Can(y, s) && WorldInv(Next(y, s))
    ensures var h := Apply(View(y, s.w), s.op, s.now);
      && Next(y, s).hub == h.(queue := [], lastSeq := 0)
      && Unworked(Next(y, s), v) == if v == s.w && v !in y.calls then h.queue else Unworked(y, v)
  {
    hide Sound, Apply, Remaining, Decided;
  }

  lemma OtherEventLeaves(y: World, s: Step, v: WorkspaceId, id: MemoryId)
    requires WorldInv(y) && s.Event? && Can(y, s) && WorldInv(Next(y, s))
    requires Decided(View(y, s.w), s.op, s.now).Ok? && Decided(View(y, s.w), s.op, s.now).value.id != id
    ensures forall e: Entry :: e.memory == id ==> (e in Unworked(Next(y, s), v) <==> e in Unworked(y, v))
  {
    var h := View(y, s.w);
    assert Sound(h.queue);
    EnqueuedExact(h.queue, Decided(h, s.op, s.now).value, h.lastSeq + 1);
    hide Enqueued, Sound, Decided, Remaining, Next, OnePerSlot, SyncAction, Find, Can;
    EventLeaves(y, s, v);
  }

  lemma OtherEventStep(y: World, s: Step, w: WorkspaceId, id: MemoryId)
    requires WorldInv(y) && s.Event? && Can(y, s) && WorldInv(Next(y, s)) && ServedBy(y, w, id)
    requires Decided(View(y, s.w), s.op, s.now).Ok? && Decided(View(y, s.w), s.op, s.now).value.id != id
    ensures ServedBy(Next(y, s), w, id)
  {
    hide Enqueued, Served, Sound, Decided, Remaining, Next, Find, SyncAction;
    forall v ensures forall e: Entry :: e.memory == id ==> (e in Unworked(Next(y, s), v) <==> e in Unworked(y, v)) {
      OtherEventLeaves(y, s, v, id);
    }
    EventLeaves(y, s, w);
    SameServed(y.hub, Next(y, s).hub, id, Unworked(y, w), Unworked(Next(y, s), w));
  }

  lemma OwnEventStep(y: World, s: Step, w: WorkspaceId, id: MemoryId)
    requires WorldInv(y) && s.Event? && Can(y, s) && WorldInv(Next(y, s)) && ServedBy(y, w, id)
    requires EventOf(y, s, id) && s.w == w && w !in y.calls
    ensures ServedBy(Next(y, s), w, id)
  {
    var h := View(y, w);
    var r, from := Decided(h, s.op, s.now).value, FoundIn(h, s.op);
    assert Sound(h.queue);
    EventServes(h, r, from);
    hide Enqueued, Served, Sound, Decided, Remaining, Next;
    forall v ensures v != w ==> Unworked(Next(y, s), v) == Unworked(y, v) {
      EventLeaves(y, s, v);
    }
    EventLeaves(y, s, w);
    var p := Persisted(h, r, from);
    SameServed(p, Next(y, s).hub, id, p.queue, Unworked(Next(y, s), w));
  }

  lemma EventStepServes(y: World, s: Step, w: WorkspaceId, id: MemoryId)
    requires WorldInv(y) && s.Event? && Can(y, s) && WorldInv(Next(y, s)) && ServedBy(y, w, id)
    requires EventOf(y, s, id) ==> s.w == w && w !in y.calls
    ensures ServedBy(Next(y, s), w, id)
  {
    hide Enqueued, Served, Sound, Decided, Remaining, Next, Persisted;
    if Decided(View(y, s.w), s.op, s.now).Err? {
      forall v ensures Unworked(Next(y, s), v) == Unworked(y, v) {
        EventLeaves(y, s, v);
      }
      EventLeaves(y, s, w);
      SameServed(y.hub, Next(y, s).hub, id, Unworked(y, w), Unworked(Next(y, s), w));
    } else if EventOf(y, s, id) {
      OwnEventStep(y, s, w, id);
    } else {
      OtherEventStep(y, s, w, id);
    }
  }

  lemma TryLeaves(y: World, s: Step, v: WorkspaceId, x: Entry)
    requires WorldInv(y) && s.Try? && Can(y, s) && WorldInv(Next(y, s)) && x in Unworked(Next(y, s), v)
    ensures x in Unworked(y, v) || (v == s.w && EntryTried(y, s) in Unworked(y, v) && x.memory == EntryTried(y, s).memory)
  {
    hide Remaining, Advanced, Sound, Acked;
    var c := y.calls[s.w];
    TryRemains(y.hub.records, c, s.attempt);
    if v == s.w {
      assert Unworked(Next(y, s), v) == Remaining(Advanced(y.hub.records, c, s.attempt));
      var e, rest := c.items[c.done], c.items[c.done + 1..] + c.behind;
      assert x in rest + c.failures ==> x in [e] + rest + c.failures;
      assert e in [e] + rest + c.failures;
    } else {
      assert Unworked(Next(y, s), v) == Unworked(y, v);
    }
  }

  lemma TryStepServes(y: World, s: Step, w: WorkspaceId, id: MemoryId)
    requires WorldInv(y) && s.Try? && Can(y, s) && WorldInv(Next(y, s)) && ServedBy(y, w, id)
    ensures ServedBy(Next(y, s), w, id)
  {
    hide Served, Remaining, Advanced, Sound, Acked;
    var c, y' := y.calls[s.w], Next(y, s);
    TryRemains(y.hub.records, c, s.attempt);
    var e := c.items[c.done];
    assert e in Unworked(y, s.w);
    if s.w == w {
      TryServes(y.hub, c, s.attempt, id);
    } else {
      forall t ensures Held(y'.hub, (id, t)) == Held(y.hub, (id, t)) {
        assert SlotOf(e) != (id, t);
      }
      SameServed(y.hub, y'.hub, id, Unworked(y, w), Unworked(y', w));
    }
    forall v, x | v != w && x in Unworked(y', v) ensures x.memory != id {
      TryLeaves(y, s, v, x);
    }
  }

  lemma QueueStepLeaves(y: World, s: Step, v: WorkspaceId)
    requires WorldInv(y) && (s.Read? || s.Write?) && Can(y, s) && WorldInv(Next(y, s))
    ensures Next(y, s).hub == y.hub && Unworked(Next(y, s), v) == Unworked(y, v)
  {
    hide Selected, Sound, Apply, Decided;
  }

  lemma QueueStepServes(y: World, s: Step, w: WorkspaceId, id: MemoryId)
    requires WorldInv(y) && (s.Read? || s.Write?) && Can(y, s) && WorldInv(Next(y, s)) && ServedBy(y, w, id)
    ensures ServedBy(Next(y, s), w, id)
  {
    hide Served, Next, Can, Sound, Remaining;
    forall v ensures Next(y, s).hub == y.hub && Unworked(Next(y, s), v) == Unworked(y, v) {
      QueueStepLeaves(y, s, v);
    }
  }

  lemma QuietServes(w: WorkspaceId, id: MemoryId)
    ensures WorldInv(QUIET) && ServedBy(QUIET, w, id)
  {
  }

  lemma {:induction false} RunServes(ys: seq<World>, steps: seq<Step>, k: nat, w: WorkspaceId, id: MemoryId)
    requires Started(ys, steps) && k < |ys|
    requires forall i :: 0 <= i < k && EventOf(ys[i], steps[i], id) ==> steps[i].w == w && w !in ys[i].calls
    ensures WorldInv(ys[k]) && ServedBy(ys[k], w, id)
  {
    hide WorldInv, Can, Next, ServedBy, EventOf;
    RunKeepsWorld(ys, steps, k);
    if k == 0 {
      QuietServes(w, id);
    } else {
      RunServes(ys, steps, k - 1, w, id);
      ChainSteps(ys, steps, k - 1);
      match steps[k - 1]
      case Event(_, _, _) => EventStepServes(ys[k - 1], steps[k - 1], w, id);
      case Try(_, _) => TryStepServes(ys[k - 1], steps[k - 1], w, id);
      case _ => QueueStepServes(ys[k - 1], steps[k - 1], w, id);
    }
  }

  /**
   A memory whose events all happen in one workspace, each while no call of that workspace is
   under way, keeps the outbox's promise whatever other memories and workspaces do: a slot
   that nothing pending is about agrees with the memory's latest event.
   */
  lemma CarefulMemoryAgrees(ys: seq<World>, steps: seq<Step>, k: nat, w: WorkspaceId, id: MemoryId, t: Target)
    requires Started(ys, steps) && k < |ys| && id in ys[k].hub.latest
    requires forall i :: 0 <= i < k && EventOf(ys[i], steps[i], id) ==> steps[i].w == w && w !in ys[i].calls
    ensures WorldInv(ys[k])
    ensures !Queued(Unworked(ys[k], w), (id, t)) ==> Agrees(ys[k].hub, id, t)
  {
    hide WorldInv, Can, Next, EventOf, Agrees, Queued;
    RunServes(ys, steps, k, w, id);
  }

  // ----- the two failures -----

  const DELETED_NOTE := SAFETY_RECORD.(status := Deleted, enabled := false, updatedAt := 1, revision := 2)

  /** The hub after the note was stored, and after it was deleted, with these external indexes. */
  function NoteHub(r: Record, external: map<Slot, Record>): Hub {
    Hub(map[Key(Global, 7) := r], {7}, {}, [], 0, external, map[7 := r],
        if r == SAFETY_RECORD then {(7, Milvus)} else {(7, Milvus), (7, Neo4j)})
  }

  const NOTE_STORED := World(NoteHub(SAFETY_RECORD, map[]), map[0 := Box([SAFETY_ENTRY], 1)], map[])

  lemma NoteIsStored()
    ensures var s := Event(0, Upsert(7, SAFETY_NOTE, false), 0);
      Can(QUIET, s) && Next(QUIET, s) == NOTE_STORED
  {
    NoteIsQueued();
    hide Apply, Enqueued;
    assert View(QUIET, 0) == EMPTY_HUB;
    assert Persisted(EMPTY_HUB, SAFETY_RECORD, None).(queue := [], lastSeq := 0) == NOTE_STORED.hub;
  }

  /** Deleting the note in workspace `w`. */
  lemma NoteIsDeleted(y: World, w: WorkspaceId)
    requires y.hub == NoteHub(SAFETY_RECORD, y.hub.external)
    ensures var s, box := Event(w, Delete(7), 1), BoxOf(y, w);
      Can(y, s) && Next(y, s) == y.(
        hub := NoteHub(DELETED_NOTE, y.hub.external),
        boxes := y.boxes[w := Box(Enqueued(box.queue, DELETED_NOTE, box.lastSeq + 1), box.lastSeq + 1)])
  {
    hide Enqueued;
    var h := View(y, w);
    assert Decided(h, Delete(7), 1) == Ok(DELETED_NOTE);
    assert Persisted(h, DELETED_NOTE, None).touched == NoteHub(DELETED_NOTE, map[]).touched;
  }

  /** A run and one more step. */
  lemma Extended(ys: seq<World>, steps: seq<Step>, s: Step) returns (ys': seq<World>, steps': seq<Step>)
    requires Started(ys, steps) && Can(ys[|steps|], s)
    ensures Started(ys', steps') && |steps'| == |steps| + 1 && |ys'| == |steps'| + 1 && ys'[|steps'|] == Next(ys[|steps|], s)
  {
    hide Can, Next;
    ys', steps' := ys + [Next(ys[|steps|], s)], steps + [s];
    forall i {:trigger steps'[i]} | 0 <= i < |steps'| ensures Can(ys'[i], steps'[i]) && ys'[i + 1] == Next(ys'[i], steps'[i]) {
      assert i < |steps| ==> steps[i] == steps'[i];
    }
  }

  /** A call of one workspace whose attempts all succeed, up to its write. */
  lemma CallOfOne(y: World, w: WorkspaceId, e: Entry, lastSeq: nat)
    requires w !in y.calls && BoxOf(y, w) == Box([e], lastSeq) && (e.action.DoUpsert? ==> e.key in y.hub.records)
    ensures Can(y, Read(w, 1)) && Next(y, Read(w, 1)) == y.(calls := y.calls[w := Call([e], 0, [], [])])
    ensures var y' := y.(calls := y.calls[w := Call([e], 0, [], [])]);
      Can(y', Try(w, Succeeds)) && Next(y', Try(w, Succeeds)) == y.(
        hub := y.hub.(external := AfterAttempt(y.hub.records, y.hub.external, e, Succeeds)),
        calls := y.calls[w := Call([e], 1, [], [])])
  {
    hide AfterAttempt, Decided, Apply;
    var q := BoxOf(y, w).queue;
    assert q[..1] == [e] && q[1..] == [];
    var y' := y.(calls := y.calls[w := Call([e], 0, [], [])]);
    assert y'.calls[w := Call([e], 1, [], [])] == y.calls[w := Call([e], 1, [], [])];
    assert [] + (if Acked(y.hub.records, e, Succeeds) then [] else [Retried(e, Succeeds)]) == [];
  }

  lemma CallWrites(y: World, w: WorkspaceId)
    requires w in y.calls && y.calls[w].done == |y.calls[w].items| && y.calls[w].failures == [] && y.calls[w].behind == []
    ensures Can(y, Write(w)) && Next(y, Write(w)) == y.(boxes := y.boxes[w := BoxOf(y, w).(queue := [])], calls := y.calls - {w})
  {
    var none: seq<Entry> := [];
    assert y.calls[w].behind + y.calls[w].failures == none;
  }

  lemma FirstStep() returns (ys: seq<World>, steps: seq<Step>)
    ensures Started(ys, steps) && ys[|steps|] == NOTE_STORED
  {
    hide Next, Can;
    NoteIsStored();
    ys, steps := Extended([QUIET], [], Event(0, Upsert(7, SAFETY_NOTE, false), 0));
  }

  /**
   A deletion lost: the note is indexed by a call under way, it is deleted before the call
   writes its queue back, and nothing is left to take it out of the index.
   */
  lemma DeletionIsLost() returns (ys: seq<World>, steps: seq<Step>)
    ensures Started(ys, steps)
    ensures var y := ys[|steps|];
      && y.hub.latest == map[7 := DELETED_NOTE] && Held(y.hub, (7, Milvus)) == Some(SAFETY_RECORD)
      && y.calls == map[] && forall w :: BoxOf(y, w).queue == []
  {
    NoteIsStored();
    CallOfOne(NOTE_STORED, 0, SAFETY_ENTRY, 1);
    hide Next, Can, Enqueued, Started;
    ys, steps := FirstStep();
    ys, steps := Extended(ys, steps, Read(0, 1));
    ys, steps := Extended(ys, steps, Try(0, Succeeds));
    NoteIsDeleted(ys[|steps|], 0);
    ys, steps := Extended(ys, steps, Event(0, Delete(7), 1));
    CallWrites(ys[|steps|], 0);
    ys, steps := Extended(ys, steps, Write(0));
  }

  const DELETE_ENTRIES := [
    Entry(Milvus, DoDelete, 7, Key(Global, 7), 1, Pending, 0), Entry(Neo4j, DoDelete, 7, Key(Global, 7), 1, Pending, 0)]

  lemma DeletionIsQueued()
    ensures Enqueued([], DELETED_NOTE, 1) == DELETE_ENTRIES
  {
    assert WithoutMemory([], 7) + NewEntry(DELETED_NOTE, Milvus, 1) + NewEntry(DELETED_NOTE, Neo4j, 1) == DELETE_ENTRIES;
    assert DELETE_ENTRIES[..1] == [DELETE_ENTRIES[0]] && [DELETE_ENTRIES[0]][..0] == [];
    assert SortQueue([DELETE_ENTRIES[0]]) == [DELETE_ENTRIES[0]];
  }

  const DELETED_ELSEWHERE :=
    World(NoteHub(DELETED_NOTE, map[]), map[0 := Box([SAFETY_ENTRY], 1), 1 := Box(DELETE_ENTRIES, 1)], map[])

  /** The deletion is worked off in workspace 1, with the index still empty. */
  lemma DeletionBegins()
    ensures var s := Read(1, 2);
      && Can(DELETED_ELSEWHERE, s)
      && Next(DELETED_ELSEWHERE, s) == DELETED_ELSEWHERE.(calls := map[1 := Call(DELETE_ENTRIES, 0, [], [])])
  {
    hide Decided, Apply;
    var q := BoxOf(DELETED_ELSEWHERE, 1).queue;
    assert q[..2] == q && q[2..] == [];
  }

  lemma DeletionGoesOn(k: nat)
    requires k < 2
    ensures var y, s := DELETED_ELSEWHERE.(calls := map[1 := Call(DELETE_ENTRIES, k, [], [])]), Try(1, Succeeds);
      Can(y, s) && Next(y, s) == DELETED_ELSEWHERE.(calls := map[1 := Call(DELETE_ENTRIES, k + 1, [], [])])
  {
    hide Decided, Apply;
    var none: map<Slot, Record> := map[];
    var e := DELETE_ENTRIES[k];
    assert e.action.DoDelete?;
    assert none - {SlotOf(e)} == none;
    var c := Call(DELETE_ENTRIES, k, [], []);
    assert Advanced(DELETED_ELSEWHERE.hub.records, c, Succeeds) == Call(DELETE_ENTRIES, k + 1, [], []);
  }

  lemma DeletionWaits() returns (ys: seq<World>, steps: seq<Step>)
    ensures Started(ys, steps) && ys[|steps|] == DELETED_ELSEWHERE
  {
    NoteIsDeleted(NOTE_STORED, 1);
    DeletionIsQueued();
    hide Next, Can, Enqueued, Started;
    ys, steps := FirstStep();
    ys, steps := Extended(ys, steps, Event(1, Delete(7), 1));
    assert ys[|steps|].boxes == DELETED_ELSEWHERE.boxes;
  }

  /** The world once the deletion is done in workspace 1. */
  lemma DeletionIsDone() returns (ys: seq<World>, steps: seq<Step>)
    ensures Started(ys, steps)
    ensures ys[|steps|] == DELETED_ELSEWHERE.(boxes := DELETED_ELSEWHERE.boxes[1 := Box([], 1)])
  {
    hide Next, Can, Enqueued, Started;
    ys, steps := DeletionWaits();
    DeletionBegins();
    ys, steps := Extended(ys, steps, Read(1, 2));
    DeletionGoesOn(0);
    ys, steps := Extended(ys, steps, Try(1, Succeeds));
    DeletionGoesOn(1);
    ys, steps := Extended(ys, steps, Try(1, Succeeds));
    CallWrites(ys[|steps|], 1);
    ys, steps := Extended(ys, steps, Write(1));
  }

  /**
   A deletion undone: the note waits in the queue of one workspace while it is deleted in
   another, whose queue is worked first; working the old entry then indexes the deleted note.
   */
  lemma DeletionIsUndone() returns (ys: seq<World>, steps: seq<Step>)
    ensures Started(ys, steps)
    ensures var y := ys[|steps|];
      && y.hub.latest == map[7 := DELETED_NOTE] && Held(y.hub, (7, Milvus)) == Some(DELETED_NOTE)
      && y.calls == map[] && forall w :: BoxOf(y, w).queue == []
  {
    ys, steps := DeletionIsDone();
    CallOfOne(ys[|steps|], 0, SAFETY_ENTRY, 1);
    hide Next, Can, Enqueued, Started;
    ys, steps := Extended(ys, steps, Read(0, 1));
    ys, steps := Extended(ys, steps, Try(0, Succeeds));
    CallWrites(ys[|steps|], 0);
    ys, steps := Extended(ys, steps, Write(0));
  }
}
