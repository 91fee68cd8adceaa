/**
 The OpenAI-compatible stream: tool calls arrive in fragments interleaved over many indexes
 and leave as events. The adapter keeps buffers and a set of completed indexes; what it must
 emit is specified from the history of the stream alone, and the properties of reassembly
 are proved about that.
 */
module OpenAIStream {
  import opened ToolStream
  import opened Wrappers

  // ----- what its history says -----

  datatype Fragment = Fragment(index: int, id: string, name: string, args: string)

  datatype Frame =
    | Done
    | Broken
    | Unreadable
    | Data(usage: bool, content: string, fragments: seq<Fragment>, finish: string)

  /** How many frames are read before the stream is done, breaks, or runs out. */
  function ReadLength(frames: seq<Frame>): (n: nat)
    ensures n <= |frames|
    ensures forall i :: 0 <= i < n ==> !frames[i].Done? && !frames[i].Broken?
    ensures n < |frames| ==> frames[n].Done? || frames[n].Broken?
  {
    if frames == [] || frames[0].Done? || frames[0].Broken? then 0 else 1 + ReadLength(frames[1..])
  }

  predicate Finishing(frame: Frame) {
    frame.Data? && frame.finish != ""
  }

  predicate EndsNormally(frames: seq<Frame>) {
    var n := ReadLength(frames);
    if n < |frames| then frames[n].Done? else exists i :: 0 <= i < n && Finishing(frames[i])
  }

  function FragmentsOf(frames: seq<Frame>): seq<Fragment> {
    if frames == [] then []
    else
      var n := |frames| - 1;
      FragmentsOf(frames[..n]) + if frames[n].Data? then frames[n].fragments else []
  }

  function IndexesOf(fragments: seq<Fragment>): set<int> {
    set f | f in fragments :: f.index
  }

  function FragmentArgs(fragments: seq<Fragment>, k: int): string {
    if fragments == [] then ""
    else
      var n := |fragments| - 1;
      FragmentArgs(fragments[..n], k) + if fragments[n].index == k then fragments[n].args else ""
  }

  function LastOf(a: string, b: string): string {
    if b != "" then b else a
  }

  /** The id and the name an index goes by: the last non-empty ones its fragments gave. */
  function NamesOf(fragments: seq<Fragment>, k: int): (string, string) {
    if fragments == [] then ("", "")
    else
      var n := |fragments| - 1;
      var before := NamesOf(fragments[..n], k);
      if fragments[n].index == k then (LastOf(before.0, fragments[n].id), LastOf(before.1, fragments[n].name)) else before
  }

  predicate Known(names: (string, string)) {
    names.0 != "" || names.1 != ""
  }

  /** A call as its fragments give it. */
  function CallAt(fragments: seq<Fragment>, k: int): Buffer {
    var names := NamesOf(fragments, k);
    Buffer(names.0, names.1, FragmentArgs(fragments, k), Known(names))
  }

  /** Index `k` has had a fragment when the `m`th frame finishes. */
  predicate FinishesCall(frames: seq<Frame>, m: nat, k: int) {
    0 < m <= |frames| && Finishing(frames[m - 1]) && k in IndexesOf(FragmentsOf(frames[..m]))
  }

  /**
   How many frames are read when index `k` is completed: up to the first finishing frame at
   or after its first fragment, or all.
   */
  function CompletedAfter(frames: seq<Frame>, k: int): (m: nat)
    ensures m <= |frames| && forall j: nat :: j < m ==> !FinishesCall(frames, j, k)
    ensures FinishesCall(frames, m, k) || m == |frames|
  {
    if frames == [] then 0
    else
      var past := frames[..|frames| - 1];
      assert forall j: nat :: j <= |past| ==> past[..j] == frames[..j];
      assert forall j: nat :: j <= |past| ==> FinishesCall(past, j, k) == FinishesCall(frames, j, k);
      var m := CompletedAfter(past, k);
      if FinishesCall(past, m, k) then m else |frames|
  }

  predicate Finished(frames: seq<Frame>, k: int) {
    FinishesCall(frames, CompletedAfter(frames, k), k)
  }

  /** The indexes completed by a finishing frame. */
  function FinishedIn(frames: seq<Frame>): set<int> {
    set k | k in IndexesOf(FragmentsOf(frames)) && Finished(frames, k)
  }

  /** The completion of index `k`: its call as the fragments up to its completion give it. */
  function CompletedCall(frames: seq<Frame>, k: int): Event {
    Call(k, CallAt(FragmentsOf(frames[..CompletedAfter(frames, k)]), k))
  }

  /** A fragment starts its call when it makes the first of its id and name known, and passes on its arguments. */
  function FragmentEvents(before: seq<Fragment>, f: Fragment): seq<Event> {
    var k := f.index;
    var names := NamesOf(before + [f], k);
    (if !Known(NamesOf(before, k)) && Known(names) then [ToolCallStart(k, names.0, names.1)] else [])
    + if f.args != "" then [ToolCallDelta(k, names.0, names.1, f.args)] else []
  }

  function FragmentsEvents(before: seq<Fragment>, fragments: seq<Fragment>): seq<Event> {
    if fragments == [] then []
    else
      var n := |fragments| - 1;
      FragmentsEvents(before, fragments[..n]) + FragmentEvents(before + fragments[..n], fragments[n])
  }

  /** The calls still to be completed once `frames` have been read, `finished` being completed already. */
  ghost function CallsDue(frames: seq<Frame>, finished: set<int>): seq<Event> {
    var fragments := FragmentsOf(frames);
    Calls(Sorted(IndexesOf(fragments) - finished), k => CallAt(fragments, k))
  }

  function TextEvents(frame: Frame): seq<Event>
    requires frame.Data?
  {
    (if frame.usage then [UsageDelta] else []) + if frame.content != "" then [ContentDelta(frame.content)] else []
  }

  /** The events the last frame of `frames` gives rise to. */
  ghost function FrameEvents(frames: seq<Frame>): seq<Event>
    requires frames != []
  {
    var past, frame := frames[..|frames| - 1], frames[|frames| - 1];
    if !frame.Data? then []
    else
      TextEvents(frame) + FragmentsEvents(FragmentsOf(past), frame.fragments)
      + if Finishing(frame) then CallsDue(frames, FinishedIn(past)) + [MessageCompleted(frame.finish)] else []
  }

  ghost function Transcript(frames: seq<Frame>): seq<Event> {
    if frames == [] then [MessageStart] else Transcript(frames[..|frames| - 1]) + FrameEvents(frames)
  }

  /** What ends a stream that ended normally. */
  ghost function ClosingEvents(frames: seq<Frame>): seq<Event> {
    CallsDue(frames, FinishedIn(frames)) + [StreamClosed]
  }

  // ----- its calls are reassembled -----

  /**
   Of the frames read: each call is started once, exactly when its id or name is known; its
   deltas spell its fragments; it is completed once, as it stood at the first finishing frame
   at or after its first fragment, else at the normal end of the stream. A completion carries
   the arguments of the deltas before it, and only a normal end closes the stream.
   */
  ghost predicate Reassembled(events: seq<Event>, frames: seq<Frame>, closed: bool) {
    var fragments := FragmentsOf(frames);
    && (forall k :: Starts(events, k) == if Known(NamesOf(fragments, k)) then 1 else 0)
    && (forall k :: ArgsOf(events, k, false) == FragmentArgs(fragments, k))
    && (forall k :: Completions(events, k) == if k in (if closed then IndexesOf(fragments) else FinishedIn(frames)) then 1 else 0)
    && (forall e :: e in events && e.ToolCallCompleted? ==> e == CompletedCall(frames, e.index))
    && ArgsAreDeltas(events, false)
    && ClosedAtEnd(events, closed)
  }

  lemma NextFragment(fragments: seq<Fragment>, f: Fragment, k: int)
    ensures FragmentArgs(fragments + [f], k) == FragmentArgs(fragments, k) + if f.index == k then f.args else ""
    ensures NamesOf(fragments + [f], k) ==
            var b := NamesOf(fragments, k);
            if f.index == k then (LastOf(b.0, f.id), LastOf(b.1, f.name)) else b
    ensures IndexesOf(fragments + [f]) == IndexesOf(fragments) + {f.index}
  {
    assert (fragments + [f])[..|fragments|] == fragments;
    assert f in fragments + [f];
  }

  lemma NextFrame(past: seq<Frame>, frame: Frame)
    ensures FragmentsOf(past + [frame]) == FragmentsOf(past) + if frame.Data? then frame.fragments else []
    ensures Transcript(past + [frame]) == Transcript(past) + FrameEvents(past + [frame])
    ensures forall k :: CompletedAfter(past + [frame], k) == if Finished(past, k) then CompletedAfter(past, k) else |past| + 1
  {
    assert (past + [frame])[..|past|] == past;
  }

  /** A finishing frame finishes every call that has begun and was not finished before; other frames finish none. */
  lemma NextFinished(past: seq<Frame>, frame: Frame, k: int)
    ensures Finished(past + [frame], k) <==>
            Finished(past, k) || (Finishing(frame) && k in IndexesOf(FragmentsOf(past + [frame])))
    ensures Finished(past, k) ==> CompletedCall(past + [frame], k) == CompletedCall(past, k)
    ensures Finished(past, k) ==> k in IndexesOf(FragmentsOf(past))
    ensures !Finished(past, k) ==> CompletedCall(past, k) == Call(k, CallAt(FragmentsOf(past), k))
  {
    hide IndexesOf, FragmentsOf, CompletedAfter, CallAt;
    NextFrame(past, frame);
    var frames := past + [frame];
    var m := CompletedAfter(past, k);
    assert past[..m] == frames[..m];
    assert frames[..|frames|] == frames && past[..|past|] == past;
    if Finished(past, k) {
      IndexesOfPrefix(past, m);
    }
  }

  lemma NextFinishedIn(past: seq<Frame>, frame: Frame)
    ensures IndexesOf(FragmentsOf(past)) <= IndexesOf(FragmentsOf(past + [frame]))
    ensures FinishedIn(past + [frame]) ==
            if Finishing(frame) then IndexesOf(FragmentsOf(past + [frame])) else FinishedIn(past)
    ensures forall k :: k in FinishedIn(past) <==> Finished(past, k)
  {
    hide IndexesOf, FragmentsOf, Finished;
    IndexesOfPrefix(past + [frame], |past|);
    assert (past + [frame])[..|past|] == past;
    forall k ensures Finished(past + [frame], k) <==>
                     Finished(past, k) || (Finishing(frame) && k in IndexesOf(FragmentsOf(past + [frame])))
             ensures Finished(past, k) ==> k in IndexesOf(FragmentsOf(past)) {
      NextFinished(past, frame, k);
    }
  }

  lemma {:induction false} IndexesOfPrefix(frames: seq<Frame>, m: nat)
    requires m <= |frames|
    ensures IndexesOf(FragmentsOf(frames[..m])) <= IndexesOf(FragmentsOf(frames))
    decreases |frames|
  {
    if m < |frames| {
      var past := frames[..|frames| - 1];
      assert past[..m] == frames[..m];
      IndexesOfPrefix(past, m);
    } else {
      assert frames[..m] == frames;
    }
  }

  /** What the events tell of the fragments so far and of the calls completed. */
  ghost predicate Tells(events: seq<Event>, fragments: seq<Fragment>, done: set<int>) {
    && (forall k :: Starts(events, k) == if Known(NamesOf(fragments, k)) then 1 else 0)
    && (forall k :: ArgsOf(events, k, false) == FragmentArgs(fragments, k))
    && (forall k :: Completions(events, k) == if k in done then 1 else 0)
    && ArgsAreDeltas(events, false) && NotClosed(events)
  }

  /** An event that is not about a call. */
  predicate Plain(e: Event) {
    e.MessageStart? || e.UsageDelta? || e.ContentDelta? || e.MessageCompleted?
  }

  lemma {:induction false} TellPlain(events: seq<Event>, more: seq<Event>, fragments: seq<Fragment>, done: set<int>)
    requires Tells(events, fragments, done) && forall e :: e in more ==> Plain(e)
    ensures Tells(events + more, fragments, done)
    decreases |more|
  {
    hide ArgsAreDeltas, ArgsOf, Starts, Completions, StartOf, NamesOf, FragmentArgs;
    if more == [] {
      assert events + more == events;
    } else {
      var n := |more| - 1;
      TellPlain(events, more[..n], fragments, done);
      var before := events + more[..n];
      assert events + more == before + [more[n]] && Plain(more[n]);
      EmitKeepsArgs(before, more[n], false);
      forall k ensures TaleOf(before + [more[n]], k, false) == TaleOf(before, k, false) {
        Emit(before, more[n], k, false);
      }
      forall k ensures Starts(events + more, k) == Starts(before, k) && Completions(events + more, k) == Completions(before, k)
                       && ArgsOf(events + more, k, false) == ArgsOf(before, k, false) {
        assert TaleOf(before + [more[n]], k, false) == TaleOf(before, k, false);
      }
    }
  }

  lemma TellFragment(events: seq<Event>, before: seq<Fragment>, f: Fragment, done: set<int>)
    requires Tells(events, before, done)
    ensures Tells(events + FragmentEvents(before, f), before + [f], done)
  {
    hide ArgsAreDeltas, ArgsOf, Starts, Completions, StartOf, NamesOf, FragmentArgs;
    var i := f.index;
    var names := NamesOf(before + [f], i);
    var start := ToolCallStart(i, names.0, names.1);
    var delta := ToolCallDelta(i, names.0, names.1, f.args);
    var mid := if !Known(NamesOf(before, i)) && Known(names) then events + [start] else events;
    var after := if f.args != "" then mid + [delta] else mid;
    assert after == events + FragmentEvents(before, f);
    EmitKeepsArgs(events, start, false);
    EmitKeepsArgs(mid, delta, false);
    forall k ensures Starts(after, k) == (if Known(NamesOf(before + [f], k)) then 1 else 0)
                     && ArgsOf(after, k, false) == FragmentArgs(before + [f], k)
                     && Completions(after, k) == Completions(events, k) {
      NextFragment(before, f, k);
      Emit(events, start, k, false);
      Emit(mid, delta, k, false);
    }
  }

  lemma {:induction false} TellFragments(events: seq<Event>, before: seq<Fragment>, fragments: seq<Fragment>, done: set<int>)
    requires Tells(events, before, done)
    ensures Tells(events + FragmentsEvents(before, fragments), before + fragments, done)
    decreases |fragments|
  {
    hide Tells, FragmentEvents;
    if fragments == [] {
      assert events + FragmentsEvents(before, fragments) == events && before + fragments == before;
    } else {
      var n := |fragments| - 1;
      TellFragments(events, before, fragments[..n], done);
      TellFragment(events + FragmentsEvents(before, fragments[..n]), before + fragments[..n], fragments[n], done);
      assert before + fragments[..n] + [fragments[n]] == before + fragments;
      assert events + FragmentsEvents(before, fragments)
             == events + FragmentsEvents(before, fragments[..n]) + FragmentEvents(before + fragments[..n], fragments[n]);
    }
  }

  lemma TellCalls(events: seq<Event>, frames: seq<Frame>, done: set<int>)
    requires Tells(events, FragmentsOf(frames), done) && done <= IndexesOf(FragmentsOf(frames))
    ensures Tells(events + CallsDue(frames, done), FragmentsOf(frames), IndexesOf(FragmentsOf(frames)))
  {
    hide ArgsAreDeltas, NotClosed, ArgsOf, Starts, Completions, StartOf, NamesOf, FragmentArgs, FragmentsOf, IndexesOf, Ascending;
    var fragments := FragmentsOf(frames);
    var at := (k: int) => CallAt(fragments, k);
    var due := IndexesOf(fragments) - done;
    EmitCalls(events, Sorted(due), at, false);
    CallsStayOpen(events, Sorted(due), at);
    var after := events + CallsDue(frames, done);
    assert after == events + Calls(Sorted(due), at);
    forall k ensures Starts(after, k) == Starts(events, k) && ArgsOf(after, k, false) == ArgsOf(events, k, false)
                     && Completions(after, k) == Completions(events, k) + if k in due then 1 else 0 {
      assert TaleOf(after, k, false)
             == TaleOf(events, k, false).(completions := Completions(events, k) + if k in Sorted(due) then 1 else 0);
    }
  }

  lemma FinishedHaveBegun(frames: seq<Frame>)
    ensures FinishedIn(frames) <= IndexesOf(FragmentsOf(frames))
  {
  }

  lemma TellStart()
    ensures Tells([MessageStart], FragmentsOf([]), FinishedIn([]))
  {
    assert [] + [MessageStart] == [MessageStart];
    forall k {
      Emit([], MessageStart, k, false);
    }
  }

  /** A finishing frame completes the calls due and tells its reason. */
  lemma TellFinish(events: seq<Event>, past: seq<Frame>, frame: Frame)
    requires Finishing(frame) && Tells(events, FragmentsOf(past + [frame]), FinishedIn(past))
    ensures Tells(events + (CallsDue(past + [frame], FinishedIn(past)) + [MessageCompleted(frame.finish)]),
                  FragmentsOf(past + [frame]), FinishedIn(past + [frame]))
  {
    hide Tells, IndexesOf, CallsDue, FinishedIn, FragmentsOf;
    var frames := past + [frame];
    NextFinishedIn(past, frame);
    FinishedHaveBegun(past);
    TellCalls(events, frames, FinishedIn(past));
    TellPlain(events + CallsDue(frames, FinishedIn(past)), [MessageCompleted(frame.finish)], FragmentsOf(frames), FinishedIn(frames));
    assert events + CallsDue(frames, FinishedIn(past)) + [MessageCompleted(frame.finish)]
           == events + (CallsDue(frames, FinishedIn(past)) + [MessageCompleted(frame.finish)]);
  }

  lemma TellFrame(events: seq<Event>, past: seq<Frame>, frame: Frame)
    requires Tells(events, FragmentsOf(past), FinishedIn(past))
    ensures Tells(events + FrameEvents(past + [frame]), FragmentsOf(past + [frame]), FinishedIn(past + [frame]))
  {
    hide Tells, IndexesOf, CallsDue, FragmentsEvents, FinishedIn, FragmentsOf, TextEvents;
    var frames := past + [frame];
    assert frames[..|frames| - 1] == past;
    NextFrame(past, frame);
    NextFinishedIn(past, frame);
    if frame.Data? {
      TextIsPlain(frame);
      TellPlain(events, TextEvents(frame), FragmentsOf(past), FinishedIn(past));
      var e1 := events + TextEvents(frame);
      TellFragments(e1, FragmentsOf(past), frame.fragments, FinishedIn(past));
      var e2 := e1 + FragmentsEvents(FragmentsOf(past), frame.fragments);
      if Finishing(frame) {
        TellFinish(e2, past, frame);
        assert events + FrameEvents(frames)
               == e2 + (CallsDue(frames, FinishedIn(past)) + [MessageCompleted(frame.finish)]);
      } else {
        assert events + FrameEvents(frames) == e2;
      }
    } else {
      assert FragmentsOf(past) + [] == FragmentsOf(past);
      assert events + FrameEvents(frames) == events;
    }
  }

  lemma TextIsPlain(frame: Frame)
    requires frame.Data?
    ensures forall e :: e in TextEvents(frame) ==> Plain(e)
  {
  }

  /** What holds of the events when the frames read so far have been worked. */
  lemma {:induction false} TranscriptTells(frames: seq<Frame>)
    ensures Tells(Transcript(frames), FragmentsOf(frames), FinishedIn(frames))
    decreases |frames|
  {
    hide Tells, FrameEvents, FragmentsOf, FinishedIn;
    if frames == [] {
      TellStart();
    } else {
      var past, frame := frames[..|frames| - 1], frames[|frames| - 1];
      assert frames == past + [frame];
      TranscriptTells(past);
      TellFrame(Transcript(past), past, frame);
    }
  }

  /** Whatever events come from text and fragments complete nothing. */
  lemma {:induction false} FragmentsComplete(before: seq<Fragment>, fragments: seq<Fragment>)
    ensures forall e :: e in FragmentsEvents(before, fragments) ==> !e.ToolCallCompleted?
    decreases |fragments|
  {
    if fragments != [] {
      FragmentsComplete(before, fragments[..|fragments| - 1]);
    }
  }

  /** The calls due show their fragments so far. */
  lemma DueShow(frames: seq<Frame>, finished: set<int>)
    ensures forall e :: e in CallsDue(frames, finished) ==>
      e.ToolCallCompleted? && e.index in IndexesOf(FragmentsOf(frames)) - finished
      && e == Call(e.index, CallAt(FragmentsOf(frames), e.index))
  {
    hide IndexesOf, FragmentsOf, CallAt, Ascending;
    var due := IndexesOf(FragmentsOf(frames)) - finished;
    forall e | e in CallsDue(frames, finished)
      ensures e.ToolCallCompleted? && e.index in due && e == Call(e.index, CallAt(FragmentsOf(frames), e.index)) {
      var j :| 0 <= j < |CallsDue(frames, finished)| && e == CallsDue(frames, finished)[j];
      assert Sorted(due)[j] in Sorted(due);
    }
  }

  /** A completed call shows its fragments up to the frame that finished it. */
  lemma {:induction false} TranscriptShows(frames: seq<Frame>)
    ensures forall e :: e in Transcript(frames) && e.ToolCallCompleted? ==>
      Finished(frames, e.index) && e == CompletedCall(frames, e.index)
    decreases |frames|
  {
    hide FragmentsOf, IndexesOf, FragmentsEvents, CallsDue, CompletedCall, Finished, FinishedIn, CallAt;
    if frames != [] {
      var past, frame := frames[..|frames| - 1], frames[|frames| - 1];
      assert frames == past + [frame];
      TranscriptShows(past);
      forall e | e in Transcript(frames) && e.ToolCallCompleted?
        ensures Finished(frames, e.index) && e == CompletedCall(frames, e.index) {
        NextFinished(past, frame, e.index);
        NextFinishedIn(past, frame);
        if e !in Transcript(past) {
          FragmentsComplete(FragmentsOf(past), frame.fragments);
          assert e in CallsDue(frames, FinishedIn(past));
          DueShow(frames, FinishedIn(past));
          CompletedNow(past, frame, e.index);
        }
      }
    }
  }

  /** A call a frame finishes is completed with that frame. */
  lemma CompletedNow(past: seq<Frame>, frame: Frame, k: int)
    requires !Finished(past, k)
    ensures CompletedCall(past + [frame], k) == Call(k, CallAt(FragmentsOf(past + [frame]), k))
  {
    hide FragmentsOf, CompletedAfter, CallAt;
    NextFrame(past, frame);
    assert (past + [frame])[..|past| + 1] == past + [frame];
  }

  /** The transcript of any frames reassembles their calls. */
  lemma TranscriptReassembles(frames: seq<Frame>, closed: bool)
    ensures Reassembled(Transcript(frames) + if closed then ClosingEvents(frames) else [], frames, closed)
  {
    hide ArgsAreDeltas, ArgsOf, Starts, Completions, StartOf, NamesOf, FragmentArgs, FragmentsOf, IndexesOf,
         CallsDue, Transcript, CompletedCall, Finished, FinishedIn, CallAt;
    var events := Transcript(frames);
    TranscriptTells(frames);
    TranscriptShows(frames);
    if closed {
      FinishedHaveBegun(frames);
      TellCalls(events, frames, FinishedIn(frames));
      DueShow(frames, FinishedIn(frames));
      var all := events + CallsDue(frames, FinishedIn(frames));
      assert events + ClosingEvents(frames) == all + [StreamClosed];
      EmitClose(all, false);
      forall e | e in all && e.ToolCallCompleted? ensures e == CompletedCall(frames, e.index) {
        NextFinishedIn(frames, Unreadable);
        NextFinished(frames, Unreadable, e.index);
      }
    } else {
      assert events + [] == events;
    }
  }

  // ----- the assembler -----

  /** The buffers hold each call as its fragments give it. */
  ghost predicate Mirrors(buffers: map<int, Buffer>, fragments: seq<Fragment>) {
    buffers.Keys == IndexesOf(fragments) && forall k :: BufferAt(buffers, k) == CallAt(fragments, k)
  }

  /** One fragment: it may name the call, start it, and add to its arguments. */
  method TakeFragment(events: seq<Event>, buffers: map<int, Buffer>, f: Fragment, ghost before: seq<Fragment>)
    returns (events': seq<Event>, buffers': map<int, Buffer>)
    requires Mirrors(buffers, before)
    ensures Mirrors(buffers', before + [f])
    ensures events' == events + FragmentEvents(before, f)
  {
    hide IndexesOf, NamesOf, FragmentArgs;
    forall k {
      NextFragment(before, f, k);
    }
    NextFragment(before, f, f.index);
    assert BufferAt(buffers, f.index) == CallAt(before, f.index);
    events' := events;
    var b := BufferAt(buffers, f.index);
    b := b.(id := if f.id != "" then f.id else b.id, name := if f.name != "" then f.name else b.name);
    if !b.started && (b.id != "" || b.name != "") {
      b := b.(started := true);
      events' := events' + [ToolCallStart(f.index, b.id, b.name)];
    }
    if f.args != "" {
      b := b.(args := b.args + f.args);
      events' := events' + [ToolCallDelta(f.index, b.id, b.name, f.args)];
    }
    buffers' := buffers[f.index := b];
    assert buffers'.Keys == buffers.Keys + {f.index};
    assert b == CallAt(before + [f], f.index);
    forall k ensures BufferAt(buffers', k) == CallAt(before + [f], k) {
      NextFragment(before, f, k);
      assert BufferAt(buffers, k) == CallAt(before, k);
    }
  }

  /** The fragments of one frame, in order. */
  method TakeFragments(events: seq<Event>, buffers: map<int, Buffer>, fragments: seq<Fragment>, ghost before: seq<Fragment>)
    returns (events': seq<Event>, buffers': map<int, Buffer>)
    requires Mirrors(buffers, before)
    ensures Mirrors(buffers', before + fragments)
    ensures events' == events + FragmentsEvents(before, fragments)
  {
    hide Mirrors, FragmentEvents;
    events', buffers' := events, buffers;
    assert before + fragments[..0] == before;
    for j := 0 to |fragments|
      invariant Mirrors(buffers', before + fragments[..j])
      invariant events' == events + FragmentsEvents(before, fragments[..j])
    {
      events', buffers' := TakeFragment(events', buffers', fragments[j], before + fragments[..j]);
      assert fragments[..j + 1][..j] == fragments[..j];
      assert before + fragments[..j] + [fragments[j]] == before + fragments[..j + 1];
    }
    assert fragments[..|fragments|] == fragments;
  }

  lemma SameCalls(buffers: map<int, Buffer>, frames: seq<Frame>, finished: set<int>)
    requires Mirrors(buffers, FragmentsOf(frames))
    ensures buffers.Keys == IndexesOf(FragmentsOf(frames))
    ensures Calls(Sorted(buffers.Keys - finished), k => BufferAt(buffers, k)) == CallsDue(frames, finished)
  {
    hide Sorted, FragmentsOf, CallAt, IndexesOf;
    var targets := Sorted(buffers.Keys - finished);
    var fragments := FragmentsOf(frames);
    forall j | 0 <= j < |targets| ensures BufferAt(buffers, targets[j]) == CallAt(fragments, targets[j]) {
    }
  }

  /** What precedes the tool calls of a frame. */
  method TakeText(events: seq<Event>, frame: Frame) returns (events': seq<Event>)
    requires frame.Data?
    ensures events' == events + TextEvents(frame)
  {
    events' := events;
    if frame.usage {
      events' := events' + [UsageDelta];
    }
    if frame.content != "" {
      events' := events' + [ContentDelta(frame.content)];
    }
  }

  /** A finish reason completes every call buffered so far. */
  method TakeFinish(events: seq<Event>, buffers: map<int, Buffer>, completed: set<int>, ghost past: seq<Frame>, frame: Frame)
    returns (events': seq<Event>, completed': set<int>)
    requires Finishing(frame) && Mirrors(buffers, FragmentsOf(past + [frame])) && completed == FinishedIn(past)
    ensures events' == events + (CallsDue(past + [frame], FinishedIn(past)) + [MessageCompleted(frame.finish)])
    ensures completed' == FinishedIn(past + [frame])
  {
    hide Mirrors, FragmentsOf, FinishedIn, CallsDue, Sorted, Calls, IndexesOf;
    NextFinishedIn(past, frame);
    FinishedHaveBegun(past);
    SameCalls(buffers, past + [frame], completed);
    events', completed' := CompleteAll(events, buffers, completed);
    assert completed' == IndexesOf(FragmentsOf(past + [frame]));
    events' := events' + [MessageCompleted(frame.finish)];
  }

  /** One frame of data. */
  method TakeFrame(events: seq<Event>, buffers: map<int, Buffer>, completed: set<int>, frame: Frame, ghost past: seq<Frame>)
    returns (events': seq<Event>, buffers': map<int, Buffer>, completed': set<int>)
    requires frame.Data? && Mirrors(buffers, FragmentsOf(past)) && completed == FinishedIn(past)
    ensures events' == events + FrameEvents(past + [frame])
    ensures Mirrors(buffers', FragmentsOf(past + [frame])) && completed' == FinishedIn(past + [frame])
  {
    hide Mirrors, FragmentsOf, FinishedIn, CallsDue, FragmentsEvents, IndexesOf, TextEvents;
    assert (past + [frame])[..|past|] == past;
    NextFrame(past, frame);
    NextFinishedIn(past, frame);
    events' := TakeText(events, frame);
    events', buffers' := TakeFragments(events', buffers, frame.fragments, FragmentsOf(past));
    completed' := completed;
    if frame.finish != "" {
      events', completed' := TakeFinish(events', buffers', completed, past, frame);
    }
  }

  lemma {:induction false} ReadLengthIs(frames: seq<Frame>, n: nat)
    requires n <= |frames| && forall i :: 0 <= i < n ==> !frames[i].Done? && !frames[i].Broken?
    requires n < |frames| ==> frames[n].Done? || frames[n].Broken?
    ensures ReadLength(frames) == n
  {
    if n > 0 {
      ReadLengthIs(frames[1..], n - 1);
    }
  }

  /**
   A normally ended stream reassembles its calls and closes once, at the end; any other fails
   with the calls reassembled as far as it was read, and is not closed.
   */
  method StreamOpenAI(frames: seq<Frame>) returns (events: seq<Event>, end: Result<(), StreamError>)
    ensures end.Ok? <==> EndsNormally(frames)
    ensures end.Err? ==> (end.error.ProviderFailed? <==>
              ReadLength(frames) < |frames| && frames[ReadLength(frames)].Broken?)
    ensures var read := frames[..ReadLength(frames)];
      && events == Transcript(read) + (if end.Ok? then ClosingEvents(read) else [])
      && Reassembled(events, read, end.Ok?)
  {
    hide Mirrors, FragmentsOf, FinishedIn, CallsDue, FrameEvents, Transcript, Reassembled, Calls, Sorted;
    events := [MessageStart];
    var buffers: map<int, Buffer> := map[];
    var completed: set<int> := {};
    var terminal := false;
    StartOfStream();
    var n := 0;
    while n < |frames|
      invariant 0 <= n <= |frames|
      invariant forall i :: 0 <= i < n ==> !frames[i].Done? && !frames[i].Broken?
      invariant terminal <==> exists i :: 0 <= i < n && Finishing(frames[i])
      invariant events == Transcript(frames[..n])
      invariant Mirrors(buffers, FragmentsOf(frames[..n])) && completed == FinishedIn(frames[..n])
      decreases |frames| - n
    {
      var frame := frames[n];
      if frame.Broken? {
        ReadLengthIs(frames, n);
        TranscriptReassembles(frames[..n], false);
        return events, Err(ProviderFailed);
      }
      if frame.Done? {
        terminal := true;
        break;
      }
      assert frames[..n + 1] == frames[..n] + [frame];
      NextFrame(frames[..n], frame);
      if frame.Unreadable? {
        NextFinishedIn(frames[..n], frame);
        NothingTold(frames[..n]);
      } else {
        events, buffers, completed := TakeFrame(events, buffers, completed, frame, frames[..n]);
        terminal := terminal || frame.finish != "";
      }
      n := n + 1;
    }
    ReadLengthIs(frames, n);
    if !terminal {
      TranscriptReassembles(frames[..n], false);
      return events, Err(EndedBeforeTerminal);
    }
    TranscriptReassembles(frames[..n], true);
    FinishedHaveBegun(frames[..n]);
    SameCalls(buffers, frames[..n], completed);
    var completed';
    events, completed' := CompleteAll(events, buffers, completed);
    return events + [StreamClosed], Ok(());
  }

  lemma StartOfStream()
    ensures Transcript([]) == [MessageStart] && Mirrors(map[], FragmentsOf([])) && FinishedIn([]) == {}
  {
    assert FragmentsOf([]) == [];
    forall k: int ensures BufferAt(map[], k) == CallAt([], k) {
    }
  }

  lemma NothingTold(past: seq<Frame>)
    ensures FrameEvents(past + [Unreadable]) == [] && FragmentsOf(past + [Unreadable]) == FragmentsOf(past)
  {
    NextFrame(past, Unreadable);
  }
}
