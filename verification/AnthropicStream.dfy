/**
 The Anthropic stream: block events interleaved over many indexes, where a new start begins
 its call anew. Specified and proved in the same way, from the history of the stream.
 */
module AnthropicStream {
  import opened ToolStream
  import opened Wrappers

  // ----- what its history says -----

  datatype Message =
    | Failure
    | Ignored
    | ToolBlockStart(index: int, id: string, name: string)
    | TextDelta(text: string)
    | InputDelta(index: int, partial: string)
    | BlockStop(index: int)
    | MessageDelta(usage: bool, stopReason: string)
    | MessageStop

  /** How many messages are read before the stream stops, fails, or runs out. */
  function MessagesRead(messages: seq<Message>): (n: nat)
    ensures n <= |messages|
    ensures forall i :: 0 <= i < n ==> !messages[i].MessageStop? && !messages[i].Failure?
    ensures n < |messages| ==> messages[n].MessageStop? || messages[n].Failure?
  {
    if messages == [] || messages[0].MessageStop? || messages[0].Failure? then 0 else 1 + MessagesRead(messages[1..])
  }

  /** The index a message opens or adds to. */
  function Opens(m: Message): set<int> {
    if m.ToolBlockStart? || m.InputDelta? then {m.index} else {}
  }

  function IndexesIn(messages: seq<Message>): set<int> {
    if messages == [] then {} else IndexesIn(messages[..|messages| - 1]) + Opens(messages[|messages| - 1])
  }

  /** The partial arguments of index `k` since its block last started. */
  function PartialsOf(messages: seq<Message>, k: int): string {
    if messages == [] then ""
    else
      var past, m := messages[..|messages| - 1], messages[|messages| - 1];
      if m.ToolBlockStart? && m.index == k then ""
      else if m.InputDelta? && m.index == k then PartialsOf(past, k) + m.partial
      else PartialsOf(past, k)
  }

  /** The id and name with which the block of index `k` last started. */
  function BlockOf(messages: seq<Message>, k: int): (string, string) {
    if messages == [] then ("", "")
    else
      var m := messages[|messages| - 1];
      if m.ToolBlockStart? && m.index == k then (m.id, m.name) else BlockOf(messages[..|messages| - 1], k)
  }

  function BlockStarts(messages: seq<Message>, k: int): nat {
    if messages == [] then 0
    else
      var m := messages[|messages| - 1];
      BlockStarts(messages[..|messages| - 1], k) + if m.ToolBlockStart? && m.index == k then 1 else 0
  }

  /** A call as its block gives it. */
  function BlockAt(messages: seq<Message>, k: int): Buffer {
    var names := BlockOf(messages, k);
    Buffer(names.0, names.1, PartialsOf(messages, k), BlockStarts(messages, k) > 0)
  }

  /** The `n`th message stops index `k` after it was opened. */
  predicate StopsBlock(messages: seq<Message>, n: nat, k: int) {
    0 < n <= |messages| && messages[n - 1] == BlockStop(k) && k in IndexesIn(messages[..n])
  }

  /** How many messages are read when index `k` is completed: up to its first stop once opened, or all. */
  function StoppedAfter(messages: seq<Message>, k: int): (n: nat)
    ensures n <= |messages| && forall j: nat :: j < n ==> !StopsBlock(messages, j, k)
    ensures StopsBlock(messages, n, k) || n == |messages|
  {
    if messages == [] then 0
    else
      var past := messages[..|messages| - 1];
      assert forall j: nat :: j <= |past| ==> past[..j] == messages[..j];
      assert forall j: nat :: j <= |past| ==> StopsBlock(past, j, k) == StopsBlock(messages, j, k);
      var n := StoppedAfter(past, k);
      if StopsBlock(past, n, k) then n else |messages|
  }

  predicate Stopped(messages: seq<Message>, k: int) {
    StopsBlock(messages, StoppedAfter(messages, k), k)
  }

  /** The indexes completed by a stop. */
  function StoppedIn(messages: seq<Message>): set<int> {
    set k | k in IndexesIn(messages) && Stopped(messages, k)
  }

  /** The completion of index `k`: its call as the messages up to its completion give it. */
  function StoppedCall(messages: seq<Message>, k: int): Event {
    Call(k, BlockAt(messages[..StoppedAfter(messages, k)], k))
  }

  /** The events a message gives rise to. */
  function MessageEvents(past: seq<Message>, m: Message): seq<Event> {
    match m
    case ToolBlockStart(k, id, name) => [ToolCallStart(k, id, name)]
    case TextDelta(text) => [ContentDelta(text)]
    case InputDelta(k, partial) => [ToolCallDelta(k, BlockOf(past, k).0, BlockOf(past, k).1, partial)]
    case BlockStop(k) => if k in IndexesIn(past) && !Stopped(past, k) then [Call(k, BlockAt(past, k))] else []
    case MessageDelta(usage, reason) =>
      (if usage then [UsageDelta] else []) + if reason != "" then [MessageCompleted(reason)] else []
    case _ => []
  }

  function BlockTranscript(messages: seq<Message>): seq<Event> {
    if messages == [] then [MessageStart]
    else
      var past := messages[..|messages| - 1];
      BlockTranscript(past) + MessageEvents(past, messages[|messages| - 1])
  }

  ghost function BlocksDue(messages: seq<Message>): seq<Event> {
    Calls(Sorted(IndexesIn(messages) - StoppedIn(messages)), k => BlockAt(messages, k))
  }

  // ----- its calls are reassembled -----

  /**
   Of the messages read: each block start starts its call with its id and name; the deltas
   since spell its partial arguments; each opened index is completed once, as it stood at its
   first stop after it was opened, else at the end of a stopped stream. A completion carries
   the id and name of the start and the arguments of the deltas before it, and only a stopped
   stream is closed.
   */
  ghost predicate BlocksReassembled(events: seq<Event>, messages: seq<Message>, closed: bool) {
    && (forall k :: Starts(events, k) == BlockStarts(messages, k) && StartOf(events, k) == BlockOf(messages, k))
    && (forall k :: ArgsOf(events, k, true) == PartialsOf(messages, k))
    && (forall k :: Completions(events, k) == if k in (if closed then IndexesIn(messages) else StoppedIn(messages)) then 1 else 0)
    && (forall e :: e in events && e.ToolCallCompleted? ==> e == StoppedCall(messages, e.index))
    && ArgsAreDeltas(events, true)
    && ClosedAtEnd(events, closed)
  }

  lemma NextMessage(past: seq<Message>, m: Message, k: int)
    ensures IndexesIn(past + [m]) == IndexesIn(past) + Opens(m)
    ensures BlockAt(past + [m], k) ==
            var b := BlockAt(past, k);
            if m.ToolBlockStart? && m.index == k then Buffer(m.id, m.name, "", true)
            else if m.InputDelta? && m.index == k then b.(args := b.args + m.partial)
            else b
    ensures BlockOf(past + [m], k) == if m.ToolBlockStart? && m.index == k then (m.id, m.name) else BlockOf(past, k)
    ensures PartialsOf(past + [m], k) ==
            if m.ToolBlockStart? && m.index == k then ""
            else if m.InputDelta? && m.index == k then PartialsOf(past, k) + m.partial
            else PartialsOf(past, k)
    ensures BlockStarts(past + [m], k) == BlockStarts(past, k) + if m.ToolBlockStart? && m.index == k then 1 else 0
    ensures BlockTranscript(past + [m]) == BlockTranscript(past) + MessageEvents(past, m)
    ensures StoppedAfter(past + [m], k) == if Stopped(past, k) then StoppedAfter(past, k) else |past| + 1
  {
    assert (past + [m])[..|past|] == past;
  }

  lemma {:induction false} IndexesInPrefix(messages: seq<Message>, n: nat)
    requires n <= |messages|
    ensures IndexesIn(messages[..n]) <= IndexesIn(messages)
    decreases |messages|
  {
    if n < |messages| {
      var past := messages[..|messages| - 1];
      assert past[..n] == messages[..n];
      IndexesInPrefix(past, n);
    } else {
      assert messages[..n] == messages;
    }
  }

  /** A stop completes its index if that was opened and not completed before. */
  lemma NextStopped(past: seq<Message>, m: Message, k: int)
    ensures Stopped(past + [m], k) <==> Stopped(past, k) || (m == BlockStop(k) && k in IndexesIn(past))
    ensures Stopped(past, k) ==> StoppedCall(past + [m], k) == StoppedCall(past, k)
    ensures Stopped(past, k) ==> k in IndexesIn(past)
    ensures !Stopped(past, k) ==> StoppedCall(past, k) == Call(k, BlockAt(past, k))
    ensures !Stopped(past, k) && m == BlockStop(k) ==> StoppedCall(past + [m], k) == Call(k, BlockAt(past, k))
  {
    hide IndexesIn, StoppedAfter, BlockAt;
    NextMessage(past, m, k);
    var messages := past + [m];
    var n := StoppedAfter(past, k);
    assert past[..n] == messages[..n];
    assert messages[..|messages|] == messages && past[..|past|] == past;
    if Stopped(past, k) {
      IndexesInPrefix(past, n);
    }
  }

  /** What the events tell of the messages so far and of the calls completed. */
  ghost predicate TellsBlocks(events: seq<Event>, messages: seq<Message>, done: set<int>) {
    && (forall k :: Starts(events, k) == BlockStarts(messages, k) && StartOf(events, k) == BlockOf(messages, k))
    && (forall k :: ArgsOf(events, k, true) == PartialsOf(messages, k))
    && (forall k :: Completions(events, k) == if k in done then 1 else 0)
    && ArgsAreDeltas(events, true) && NotClosed(events)
  }

  /** One message, worked: the events tell of it too, and a call it completes is shown as it stood. */
  lemma TellMessage(events: seq<Event>, past: seq<Message>, m: Message)
    requires TellsBlocks(events, past, StoppedIn(past))
    ensures TellsBlocks(events + MessageEvents(past, m), past + [m], StoppedIn(past + [m]))
  {
    hide ArgsAreDeltas, ArgsOf, Starts, Completions, StartOf, IndexesIn, PartialsOf, BlockOf, BlockStarts, Stopped;
    var added := MessageEvents(past, m);
    var after := events + added;
    forall k ensures k in StoppedIn(past + [m]) <==>
                     k in StoppedIn(past) || (m == BlockStop(k) && k in IndexesIn(past)) {
      NextMessage(past, m, k);
      NextStopped(past, m, k);
    }
    if |added| == 0 {
      assert after == events;
    } else if |added| == 1 {
      assert after == events + [added[0]];
      EmitKeepsArgs(events, added[0], true);
    } else {
      assert after == (events + [added[0]]) + [added[1]];
      EmitKeepsArgs(events, added[0], true);
      EmitKeepsArgs(events + [added[0]], added[1], true);
    }
    forall k ensures Starts(after, k) == BlockStarts(past + [m], k) && StartOf(after, k) == BlockOf(past + [m], k)
                     && ArgsOf(after, k, true) == PartialsOf(past + [m], k)
                     && Completions(after, k) == if k in StoppedIn(past + [m]) then 1 else 0 {
      NextMessage(past, m, k);
      NextStopped(past, m, k);
      if |added| == 1 {
        Emit(events, added[0], k, true);
      } else if |added| == 2 {
        Emit(events, added[0], k, true);
        Emit(events + [added[0]], added[1], k, true);
      }
    }
  }

  lemma {:induction false} BlocksTell(messages: seq<Message>)
    ensures TellsBlocks(BlockTranscript(messages), messages, StoppedIn(messages))
    ensures forall e :: e in BlockTranscript(messages) && e.ToolCallCompleted? ==>
      Stopped(messages, e.index) && e == StoppedCall(messages, e.index)
    decreases |messages|
  {
    hide TellsBlocks, IndexesIn, BlockAt, StoppedIn, StoppedCall, Stopped;
    if messages == [] {
      NoMessages();
    } else {
      var past, m := messages[..|messages| - 1], messages[|messages| - 1];
      assert messages == past + [m];
      BlocksTell(past);
      TellMessage(BlockTranscript(past), past, m);
      forall e | e in BlockTranscript(messages) && e.ToolCallCompleted?
        ensures Stopped(messages, e.index) && e == StoppedCall(messages, e.index) {
        NextStopped(past, m, e.index);
      }
    }
  }

  lemma NoMessages()
    ensures TellsBlocks([MessageStart], [], StoppedIn([]))
  {
    assert [] + [MessageStart] == [MessageStart];
    forall k {
      Emit([], MessageStart, k, true);
    }
  }

  /** Completing the calls due: the events still tell of their blocks, and show each as it stood. */
  lemma TellBlocksDue(messages: seq<Message>)
    ensures TellsBlocks(BlockTranscript(messages) + BlocksDue(messages), messages, IndexesIn(messages))
  {
    hide ArgsAreDeltas, NotClosed, ArgsOf, Starts, Completions, StartOf, IndexesIn, BlockOf, PartialsOf, BlockStarts,
         BlockTranscript, StoppedIn, StoppedCall, Stopped, Ascending;
    var events := BlockTranscript(messages);
    BlocksTell(messages);
    var at := (k: int) => BlockAt(messages, k);
    var due := IndexesIn(messages) - StoppedIn(messages);
    EmitCalls(events, Sorted(due), at, true);
    var after := events + BlocksDue(messages);
    assert after == events + Calls(Sorted(due), at);
    forall k ensures Starts(after, k) == Starts(events, k) && StartOf(after, k) == StartOf(events, k)
                     && ArgsOf(after, k, true) == ArgsOf(events, k, true)
                     && Completions(after, k) == Completions(events, k) + if k in due then 1 else 0 {
      assert TaleOf(after, k, true)
             == TaleOf(events, k, true).(completions := Completions(events, k) + if k in Sorted(due) then 1 else 0);
    }
    StoppedHaveBegun(messages);
    CallsStayOpen(events, Sorted(due), at);
  }

  lemma StoppedHaveBegun(messages: seq<Message>)
    ensures StoppedIn(messages) <= IndexesIn(messages)
  {
  }

  /** The calls due show their blocks as they stood. */
  lemma BlocksDueShow(messages: seq<Message>)
    ensures forall e :: e in BlocksDue(messages) ==> e.ToolCallCompleted? && e == StoppedCall(messages, e.index)
  {
    hide IndexesIn, BlockAt, Ascending, StoppedCall, Stopped;
    var due := IndexesIn(messages) - StoppedIn(messages);
    forall e | e in BlocksDue(messages) ensures e.ToolCallCompleted? && e == StoppedCall(messages, e.index) {
      var j :| 0 <= j < |BlocksDue(messages)| && e == BlocksDue(messages)[j];
      assert Sorted(due)[j] in Sorted(due);
      NextStopped(messages, Ignored, e.index);
    }
  }

  /** The events of any messages reassemble their calls. */
  lemma BlocksReassemble(messages: seq<Message>, closed: bool)
    ensures BlocksReassembled(BlockTranscript(messages) + if closed then BlocksDue(messages) + [StreamClosed] else [], messages, closed)
  {
    hide ArgsAreDeltas, NotClosed, TaleOf, ArgsOf, Starts, Completions, StartOf, IndexesIn, BlockOf, PartialsOf, BlockStarts,
         BlockTranscript, StoppedCall, StoppedIn, Stopped, BlocksDue;
    var events := BlockTranscript(messages);
    BlocksTell(messages);
    if closed {
      TellBlocksDue(messages);
      BlocksDueShow(messages);
      var all := events + BlocksDue(messages);
      assert events + (BlocksDue(messages) + [StreamClosed]) == all + [StreamClosed];
      EmitClose(all, true);
    } else {
      assert events + [] == events;
    }
  }

  // ----- the assembler -----

  /** The buffers hold each call as its block gives it, and the completed indexes are those stopped. */
  ghost predicate MirrorsBlocks(buffers: map<int, Buffer>, completed: set<int>, messages: seq<Message>) {
    && buffers.Keys == IndexesIn(messages) && (forall k :: BufferAt(buffers, k) == BlockAt(messages, k))
    && completed == StoppedIn(messages)
  }

  /** One message's effect on the buffers, and its events. */
  method TakeMessage(events: seq<Event>, buffers: map<int, Buffer>, completed: set<int>, m: Message, ghost past: seq<Message>)
    returns (events': seq<Event>, buffers': map<int, Buffer>, completed': set<int>)
    requires MirrorsBlocks(buffers, completed, past) && !m.Failure? && !m.MessageStop?
    ensures MirrorsBlocks(buffers', completed', past + [m])
    ensures events' == events + MessageEvents(past, m)
  {
    hide IndexesIn, BlockAt, Stopped, BlockOf, BlockTranscript, StoppedAfter, StoppedCall, PartialsOf;
    events', buffers', completed' := events, buffers, completed;
    match m {
      case Ignored =>
      case ToolBlockStart(i, id, name) =>
        buffers' := buffers[i := Buffer(id, name, "", true)];
        events' := events + [ToolCallStart(i, id, name)];
      case TextDelta(text) =>
        events' := events + [ContentDelta(text)];
      case InputDelta(i, partial) =>
        var b := BufferAt(buffers, i);
        BlockNames(past, i);
        assert b == BlockAt(past, i);
        buffers' := buffers[i := b.(args := b.args + partial)];
        events' := events + [ToolCallDelta(i, b.id, b.name, partial)];
      case BlockStop(i) =>
        assert BufferAt(buffers, i) == BlockAt(past, i);
        events', completed' := CompleteBuffered(events, buffers, completed, [i]);
      case MessageDelta(usage, stopReason) =>
        if usage {
          events' := events' + [UsageDelta];
        }
        if stopReason != "" {
          events' := events' + [MessageCompleted(stopReason)];
        }
    }
    forall k ensures k in completed' <==> k in StoppedIn(past + [m]) {
      NextMessage(past, m, k);
      NextStopped(past, m, k);
    }
    NextMessage(past, m, 0);
    forall k ensures BufferAt(buffers', k) == BlockAt(past + [m], k) {
      NextMessage(past, m, k);
      assert BufferAt(buffers, k) == BlockAt(past, k);
    }
    assert buffers'.Keys == IndexesIn(past + [m]);
    assert completed' == StoppedIn(past + [m]);
  }

  lemma BlockNames(messages: seq<Message>, k: int)
    ensures (BlockAt(messages, k).id, BlockAt(messages, k).name) == BlockOf(messages, k)
  {
  }

  lemma {:induction false} MessagesReadIs(messages: seq<Message>, n: nat)
    requires n <= |messages| && forall i :: 0 <= i < n ==> !messages[i].MessageStop? && !messages[i].Failure?
    requires n < |messages| ==> messages[n].MessageStop? || messages[n].Failure?
    ensures MessagesRead(messages) == n
  {
    if n > 0 {
      MessagesReadIs(messages[1..], n - 1);
    }
  }

  /**
   A stopped stream reassembles its calls and closes once, at the end; any other fails with
   the calls reassembled as far as it was read, and is not closed.
   */
  method StreamAnthropic(messages: seq<Message>) returns (events: seq<Event>, end: Result<(), StreamError>)
    ensures var n := MessagesRead(messages);
      && (end.Ok? <==> n < |messages| && messages[n].MessageStop?)
      && (end.Err? ==> (end.error.ProviderFailed? <==> n < |messages|))
      && events == BlockTranscript(messages[..n]) + (if end.Ok? then BlocksDue(messages[..n]) + [StreamClosed] else [])
      && BlocksReassembled(events, messages[..n], end.Ok?)
  {
    hide MirrorsBlocks, BlocksReassembled, BlockTranscript, MessageEvents, Sorted, Calls;
    events := [MessageStart];
    var buffers: map<int, Buffer> := map[];
    var completed: set<int> := {};
    var n := 0;
    StartOfBlocks();
    while n < |messages| && !messages[n].MessageStop?
      invariant 0 <= n <= |messages| && forall i :: 0 <= i < n ==> !messages[i].MessageStop? && !messages[i].Failure?
      invariant events == BlockTranscript(messages[..n]) && MirrorsBlocks(buffers, completed, messages[..n])
    {
      if messages[n].Failure? {
        MessagesReadIs(messages, n);
        BlocksReassemble(messages[..n], false);
        return events, Err(ProviderFailed);
      }
      assert messages[..n + 1] == messages[..n] + [messages[n]];
      NextMessage(messages[..n], messages[n], 0);
      events, buffers, completed := TakeMessage(events, buffers, completed, messages[n], messages[..n]);
      n := n + 1;
    }
    MessagesReadIs(messages, n);
    if n == |messages| {
      BlocksReassemble(messages[..n], false);
      return events, Err(EndedBeforeTerminal);
    }
    BlocksReassemble(messages[..n], true);
    SameBlocks(buffers, completed, messages[..n]);
    var completed';
    events, completed' := CompleteAll(events, buffers, completed);
    return events + [StreamClosed], Ok(());
  }

  lemma StartOfBlocks()
    ensures BlockTranscript([]) == [MessageStart] && MirrorsBlocks(map[], {}, [])
  {
    forall k: int ensures BufferAt(map[], k) == BlockAt([], k) {
    }
  }

  lemma SameBlocks(buffers: map<int, Buffer>, completed: set<int>, messages: seq<Message>)
    requires MirrorsBlocks(buffers, completed, messages)
    ensures Calls(Sorted(buffers.Keys - completed), k => BufferAt(buffers, k)) == BlocksDue(messages)
  {
    hide Sorted, BlockAt, IndexesIn, StoppedIn;
    var targets := Sorted(buffers.Keys - completed);
    forall j | 0 <= j < |targets| ensures BufferAt(buffers, targets[j]) == BlockAt(messages, targets[j]) {
    }
  }
}
