/**
 What the assembled streams say besides the calls' arguments and completions: the text, the
 usage and the finish reasons in order, and under which ids and names the calls appear.
 */
module StreamTelling {
  import opened ToolStream
  import O = OpenAIStream
  import A = AnthropicStream

  predicate IsSaid(e: Event) {
    e.UsageDelta? || e.ContentDelta? || e.MessageCompleted?
  }

  /** The events about no call, in order. */
  function Said(events: seq<Event>): seq<Event> {
    if events == [] then []
    else
      var n := |events| - 1;
      Said(events[..n]) + if IsSaid(events[n]) then [events[n]] else []
  }

  lemma {:induction false} SaidConcat(a: seq<Event>, b: seq<Event>)
    ensures Said(a + b) == Said(a) + Said(b)
    decreases |b|
  {
    if b == [] {
      assert a + b == a;
    } else {
      var n := |b| - 1;
      SaidConcat(a, b[..n]);
      assert (a + b)[..|a| + n] == a + b[..n] && (a + b)[|a| + n] == b[n];
    }
  }

  lemma {:induction false} NothingSaid(events: seq<Event>)
    requires forall e :: e in events ==> !IsSaid(e)
    ensures Said(events) == []
    decreases |events|
  {
    if events != [] {
      NothingSaid(events[..|events| - 1]);
    }
  }

  lemma {:induction false} AllSaid(events: seq<Event>)
    requires forall e :: e in events ==> IsSaid(e)
    ensures Said(events) == events
    decreases |events|
  {
    if events != [] {
      AllSaid(events[..|events| - 1]);
      assert events == events[..|events| - 1] + [events[|events| - 1]];
    }
  }

  // ----- OpenAI frames -----

  /** What one frame says: its usage, its content, and the reason it finishes with. */
  function SaidBy(frame: O.Frame): seq<Event> {
    if !frame.Data? then []
    else
      (if frame.usage then [UsageDelta] else []) + (if frame.content == "" then [] else [ContentDelta(frame.content)])
      + (if frame.finish == "" then [] else [MessageCompleted(frame.finish)])
  }

  function SaidByAll(frames: seq<O.Frame>): seq<Event> {
    if frames == [] then [] else SaidByAll(frames[..|frames| - 1]) + SaidBy(frames[|frames| - 1])
  }

  lemma {:induction false} FragmentsSayNothing(before: seq<O.Fragment>, fragments: seq<O.Fragment>)
    ensures forall e :: e in O.FragmentsEvents(before, fragments) ==> e.ToolCallStart? || e.ToolCallDelta?
    decreases |fragments|
  {
    if fragments != [] {
      FragmentsSayNothing(before, fragments[..|fragments| - 1]);
    }
  }

  lemma FrameSays(past: seq<O.Frame>, frame: O.Frame)
    ensures Said(O.FrameEvents(past + [frame])) == SaidBy(frame)
    ensures frame.Data? && frame.finish != "" ==>
      O.FrameEvents(past + [frame]) != [] && O.FrameEvents(past + [frame])[|O.FrameEvents(past + [frame])| - 1] == MessageCompleted(frame.finish)
  {
    hide Said, O.CallsDue, O.FragmentsEvents, O.FragmentsOf, O.FinishedIn;
    var frames := past + [frame];
    assert frames[..|frames| - 1] == past;
    if frame.Data? {
      var text, calls := O.TextEvents(frame), O.FragmentsEvents(O.FragmentsOf(past), frame.fragments);
      FragmentsSayNothing(O.FragmentsOf(past), frame.fragments);
      NothingSaid(calls);
      AllSaid(text);
      SaidConcat(text, calls);
      var due, finish := O.CallsDue(frames, O.FinishedIn(past)), [MessageCompleted(frame.finish)];
      O.DueShow(frames, O.FinishedIn(past));
      NothingSaid(due);
      AllSaid(finish);
      SaidConcat(due, finish);
      SaidConcat(text + calls, due + finish);
      assert text + calls + [] == text + calls;
    } else {
      NothingSaid([]);
    }
  }

  /** An OpenAI stream says what its frames say, in order; completing and closing says nothing more. */
  lemma {:induction false} OpenAISays(frames: seq<O.Frame>)
    ensures Said(O.Transcript(frames)) == SaidByAll(frames)
    ensures Said(O.Transcript(frames) + O.ClosingEvents(frames)) == SaidByAll(frames)
    decreases |frames|
  {
    hide O.FrameEvents, SaidBy, O.CallsDue;
    if frames == [] {
      NothingSaid([MessageStart]);
    } else {
      var past, frame := frames[..|frames| - 1], frames[|frames| - 1];
      assert frames == past + [frame];
      OpenAISays(past);
      FrameSays(past, frame);
      SaidConcat(O.Transcript(past), O.FrameEvents(frames));
    }
    O.DueShow(frames, O.FinishedIn(frames));
    NothingSaid(O.ClosingEvents(frames));
    SaidConcat(O.Transcript(frames), O.ClosingEvents(frames));
  }

  /** The last id given for the call, or none if none was. */
  ghost predicate LastId(fragments: seq<O.Fragment>, k: int, id: string) {
    if id == "" then forall m :: 0 <= m < |fragments| && fragments[m].index == k ==> fragments[m].id == ""
    else exists m :: (IdAt(fragments, k, id, m) && forall j :: m < j < |fragments| && fragments[j].index == k ==> fragments[j].id == "")
  }

  predicate IdAt(fragments: seq<O.Fragment>, k: int, id: string, m: int) {
    0 <= m < |fragments| && fragments[m].index == k && fragments[m].id == id
  }

  /** And the last name. */
  ghost predicate LastName(fragments: seq<O.Fragment>, k: int, name: string) {
    if name == "" then forall m :: 0 <= m < |fragments| && fragments[m].index == k ==> fragments[m].name == ""
    else exists m :: (NameAt(fragments, k, name, m) && forall j :: m < j < |fragments| && fragments[j].index == k ==> fragments[j].name == "")
  }

  predicate NameAt(fragments: seq<O.Fragment>, k: int, name: string, m: int) {
    0 <= m < |fragments| && fragments[m].index == k && fragments[m].name == name
  }

  ghost predicate LastGiven(fragments: seq<O.Fragment>, k: int, id: string, name: string) {
    LastId(fragments, k, id) && LastName(fragments, k, name)
  }

  lemma NextId(past: seq<O.Fragment>, f: O.Fragment, k: int, id: string)
    requires LastId(past, k, id)
    ensures LastId(past + [f], k, if f.index == k && f.id != "" then f.id else id)
  {
    var fragments := past + [f];
    if f.index == k && f.id != "" {
      assert IdAt(fragments, k, f.id, |past|);
    } else if id != "" {
      var m :| IdAt(past, k, id, m) && forall j :: m < j < |past| && past[j].index == k ==> past[j].id == "";
      assert IdAt(fragments, k, id, m);
    }
  }

  lemma NextName(past: seq<O.Fragment>, f: O.Fragment, k: int, name: string)
    requires LastName(past, k, name)
    ensures LastName(past + [f], k, if f.index == k && f.name != "" then f.name else name)
  {
    var fragments := past + [f];
    if f.index == k && f.name != "" {
      assert NameAt(fragments, k, f.name, |past|);
    } else if name != "" {
      var m :| NameAt(past, k, name, m) && forall j :: m < j < |past| && past[j].index == k ==> past[j].name == "";
      assert NameAt(fragments, k, name, m);
    }
  }

  lemma {:induction false} NamesAreLast(fragments: seq<O.Fragment>, k: int)
    ensures LastGiven(fragments, k, O.NamesOf(fragments, k).0, O.NamesOf(fragments, k).1)
    decreases |fragments|
  {
    if fragments != [] {
      hide LastId, LastName;
      var past, f := fragments[..|fragments| - 1], fragments[|fragments| - 1];
      NamesAreLast(past, k);
      assert past + [f] == fragments;
      NextId(past, f, k, O.NamesOf(past, k).0);
      NextName(past, f, k, O.NamesOf(past, k).1);
    }
  }

  /**
   A start shows the id and name its call was first known by, and a delta the arguments of one
   fragment under the id and name known by then.
   */
  ghost predicate Spoken(e: Event, fragments: seq<O.Fragment>, m: nat)
    requires e.ToolCallStart? || e.ToolCallDelta?
  {
    && m < |fragments| && fragments[m].index == e.index
    && LastGiven(fragments[..m + 1], e.index, e.id, e.name)
    && (e.ToolCallStart? ==> (e.id != "" || e.name != "") && LastGiven(fragments[..m], e.index, "", ""))
    && (e.ToolCallDelta? ==> e.args != "" && e.args == fragments[m].args)
  }

  ghost predicate AllSpoken(events: seq<Event>, fragments: seq<O.Fragment>) {
    forall e :: e in events && (e.ToolCallStart? || e.ToolCallDelta?) ==> exists m: nat :: Spoken(e, fragments, m)
  }

  lemma SpokenOn(events: seq<Event>, fragments: seq<O.Fragment>, more: seq<O.Fragment>)
    requires AllSpoken(events, fragments)
    ensures AllSpoken(events, fragments + more)
  {
    hide LastGiven;
    forall e | e in events && (e.ToolCallStart? || e.ToolCallDelta?) ensures exists m: nat :: Spoken(e, fragments + more, m) {
      var m: nat :| Spoken(e, fragments, m);
      assert (fragments + more)[..m + 1] == fragments[..m + 1] && (fragments + more)[..m] == fragments[..m];
      assert Spoken(e, fragments + more, m);
    }
  }

  lemma FragmentIsSpoken(before: seq<O.Fragment>, f: O.Fragment)
    ensures AllSpoken(O.FragmentEvents(before, f), before + [f])
  {
    hide LastGiven, O.NamesOf;
    var all, k := before + [f], f.index;
    assert all[..|before|] == before && all[..|before| + 1] == all;
    NamesAreLast(before, k);
    NamesAreLast(all, k);
    forall e | e in O.FragmentEvents(before, f) ensures Spoken(e, all, |before|) {
    }
  }

  lemma {:induction false} FragmentsAreSpoken(before: seq<O.Fragment>, fragments: seq<O.Fragment>)
    ensures AllSpoken(O.FragmentsEvents(before, fragments), before + fragments)
    decreases |fragments|
  {
    hide AllSpoken, O.FragmentEvents;
    if fragments == [] {
      NothingSpoken(before + fragments);
    } else {
      var past, f := fragments[..|fragments| - 1], fragments[|fragments| - 1];
      FragmentsAreSpoken(before, past);
      FragmentIsSpoken(before + past, f);
      assert before + past + [f] == before + fragments;
      SpokenOn(O.FragmentsEvents(before, past), before + past, [f]);
      BothSpoken(O.FragmentsEvents(before, past), O.FragmentEvents(before + past, f), before + fragments);
    }
  }

  lemma NothingSpoken(fragments: seq<O.Fragment>)
    ensures AllSpoken([], fragments)
  {
  }

  lemma BothSpoken(a: seq<Event>, b: seq<Event>, fragments: seq<O.Fragment>)
    requires AllSpoken(a, fragments) && AllSpoken(b, fragments)
    ensures AllSpoken(a + b, fragments)
  {
    hide Spoken;
  }

  lemma OthersSpoken(events: seq<Event>, fragments: seq<O.Fragment>)
    requires forall e :: e in events ==> !e.ToolCallStart? && !e.ToolCallDelta?
    ensures AllSpoken(events, fragments)
  {
  }

  lemma FrameIsSpoken(past: seq<O.Frame>, frame: O.Frame)
    ensures AllSpoken(O.FrameEvents(past + [frame]), O.FragmentsOf(past + [frame]))
  {
    hide AllSpoken, O.CallsDue, O.FragmentsEvents, O.FragmentsOf, O.FinishedIn;
    var frames := past + [frame];
    assert frames[..|frames| - 1] == past;
    O.NextFrame(past, frame);
    var fragments := O.FragmentsOf(frames);
    if frame.Data? {
      var text, calls := O.TextEvents(frame), O.FragmentsEvents(O.FragmentsOf(past), frame.fragments);
      var due := O.CallsDue(frames, O.FinishedIn(past)) + [MessageCompleted(frame.finish)];
      FragmentsAreSpoken(O.FragmentsOf(past), frame.fragments);
      O.DueShow(frames, O.FinishedIn(past));
      OthersSpoken(text, fragments);
      OthersSpoken(due, fragments);
      BothSpoken(text, calls, fragments);
      BothSpoken(text + calls, due, fragments);
      assert text + calls + [] == text + calls;
    } else {
      NothingSpoken(fragments);
    }
  }

  /** Every start and every delta of an OpenAI stream is one a fragment gives. */
  lemma {:induction false} OpenAISpeaks(frames: seq<O.Frame>)
    ensures AllSpoken(O.Transcript(frames), O.FragmentsOf(frames))
    decreases |frames|
  {
    hide AllSpoken, O.FrameEvents, O.FragmentsOf;
    if frames == [] {
      OthersSpoken([MessageStart], O.FragmentsOf(frames));
    } else {
      var past, frame := frames[..|frames| - 1], frames[|frames| - 1];
      assert frames == past + [frame];
      OpenAISpeaks(past);
      O.NextFrame(past, frame);
      SpokenOn(O.Transcript(past), O.FragmentsOf(past), if frame.Data? then frame.fragments else []);
      FrameIsSpoken(past, frame);
      BothSpoken(O.Transcript(past), O.FrameEvents(frames), O.FragmentsOf(frames));
    }
  }

  /** A completed call shows the last id and name its fragments gave by the frame that completes it. */
  lemma OpenAICompletes(frames: seq<O.Frame>, closed: bool, e: Event)
    requires e in O.Transcript(frames) + (if closed then O.ClosingEvents(frames) else []) && e.ToolCallCompleted?
    ensures LastGiven(O.FragmentsOf(frames[..O.CompletedAfter(frames, e.index)]), e.index, e.id, e.name)
  {
    hide LastGiven, O.NamesOf, O.FragmentsOf, O.CompletedAfter, O.Transcript;
    O.TranscriptReassembles(frames, closed);
    assert e == O.CompletedCall(frames, e.index);
    NamesAreLast(O.FragmentsOf(frames[..O.CompletedAfter(frames, e.index)]), e.index);
  }

  /** A stream ends normally with a done frame before any broken one, or without either once some frame has finished. */
  lemma NormalEnds(frames: seq<O.Frame>)
    ensures O.EndsNormally(frames) <==>
      || (exists i :: 0 <= i < |frames| && frames[i].Done? && forall j :: 0 <= j < i ==> !frames[j].Done? && !frames[j].Broken?)
      || ((forall i :: 0 <= i < |frames| ==> !frames[i].Done? && !frames[i].Broken?)
          && exists i :: 0 <= i < |frames| && frames[i].Data? && frames[i].finish != "")
  {
    var n := O.ReadLength(frames);
    forall i | 0 <= i < |frames| && frames[i].Done? && forall j :: 0 <= j < i ==> !frames[j].Done? && !frames[j].Broken?
      ensures i == n {
    }
  }

  // ----- Anthropic messages -----

  /** What one message says: text, or usage and the reason it stops. */
  function SaidByMessage(m: A.Message): seq<Event> {
    match m
    case TextDelta(text) => [ContentDelta(text)]
    case MessageDelta(usage, reason) =>
      (if usage then [UsageDelta] else []) + (if reason == "" then [] else [MessageCompleted(reason)])
    case _ => []
  }

  function SaidByMessages(messages: seq<A.Message>): seq<Event> {
    if messages == [] then [] else SaidByMessages(messages[..|messages| - 1]) + SaidByMessage(messages[|messages| - 1])
  }

  lemma MessageSays(past: seq<A.Message>, m: A.Message)
    ensures Said(A.MessageEvents(past, m)) == SaidByMessage(m)
  {
    var events := A.MessageEvents(past, m);
    if m.TextDelta? || m.MessageDelta? {
      AllSaid(events);
    } else {
      NothingSaid(events);
    }
  }

  /** An Anthropic stream says what its messages say, in order. */
  lemma {:induction false} AnthropicSays(messages: seq<A.Message>)
    ensures Said(A.BlockTranscript(messages)) == SaidByMessages(messages)
    decreases |messages|
  {
    hide A.MessageEvents, SaidByMessage;
    if messages == [] {
      NothingSaid([MessageStart]);
    } else {
      var past, m := messages[..|messages| - 1], messages[|messages| - 1];
      AnthropicSays(past);
      MessageSays(past, m);
      SaidConcat(A.BlockTranscript(past), A.MessageEvents(past, m));
    }
  }

  /** A start repeats a tool block's start, and a delta a block's partial input under its last start's id and name. */
  ghost predicate SpokenByMessage(e: Event, messages: seq<A.Message>, m: nat)
    requires e.ToolCallStart? || e.ToolCallDelta?
  {
    && m < |messages|
    && (e.ToolCallStart? ==> messages[m] == A.ToolBlockStart(e.index, e.id, e.name))
    && (e.ToolCallDelta? ==> messages[m] == A.InputDelta(e.index, e.args) && (e.id, e.name) == A.BlockOf(messages[..m], e.index))
  }

  /** Every start and every delta of an Anthropic stream is one a message gives. */
  lemma {:induction false} AnthropicSpeaks(messages: seq<A.Message>, e: Event) returns (m: nat)
    requires e in A.BlockTranscript(messages) && (e.ToolCallStart? || e.ToolCallDelta?)
    ensures SpokenByMessage(e, messages, m)
    decreases |messages|
  {
    hide A.BlockOf;
    var past := messages[..|messages| - 1];
    if e in A.BlockTranscript(past) {
      m := AnthropicSpeaks(past, e);
      assert messages[..m] == past[..m];
    } else {
      m := |past|;
    }
  }
}
