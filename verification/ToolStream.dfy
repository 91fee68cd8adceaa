/**
 What the streaming adapters share: the events that leave them, how an event list is read,
 and the completion of buffered tool calls.
 */
module ToolStream {
  /** Empty strings stand for absent ids, names, arguments and reasons. */
  datatype Event =
    | MessageStart
    | UsageDelta
    | ContentDelta(text: string)
    | ToolCallStart(index: int, id: string, name: string)
    | ToolCallDelta(index: int, id: string, name: string, args: string)
    | ToolCallCompleted(index: int, id: string, name: string, args: string)
    | MessageCompleted(reason: string)
    | StreamClosed

  datatype StreamError = ProviderFailed | EndedBeforeTerminal

  datatype Buffer = Buffer(id: string, name: string, args: string, started: bool)

  function BufferAt(buffers: map<int, Buffer>, i: int): Buffer {
    if i in buffers then buffers[i] else Buffer("", "", "", false)
  }

  /** The event that completes a call. */
  function Call(i: int, b: Buffer): Event {
    ToolCallCompleted(i, b.id, b.name, b.args)
  }

  // ----- reading an event list -----

  /** The argument text the delta events of an index spell; with `resets`, since its last start. */
  function ArgsOf(events: seq<Event>, k: int, resets: bool): string {
    if events == [] then ""
    else
      var n := |events| - 1;
      if events[n].ToolCallStart? && events[n].index == k && resets then ""
      else if events[n].ToolCallDelta? && events[n].index == k then ArgsOf(events[..n], k, resets) + events[n].args
      else ArgsOf(events[..n], k, resets)
  }

  function Completions(events: seq<Event>, k: int): nat {
    if events == [] then 0
    else
      var n := |events| - 1;
      Completions(events[..n], k) + if events[n].ToolCallCompleted? && events[n].index == k then 1 else 0
  }

  function Starts(events: seq<Event>, k: int): nat {
    if events == [] then 0
    else
      var n := |events| - 1;
      Starts(events[..n], k) + if events[n].ToolCallStart? && events[n].index == k then 1 else 0
  }

  /** The id and name an index was last started with. */
  function StartOf(events: seq<Event>, k: int): (string, string) {
    if events == [] then ("", "")
    else
      var n := |events| - 1;
      if events[n].ToolCallStart? && events[n].index == k then (events[n].id, events[n].name) else StartOf(events[..n], k)
  }

  /**
   Every completion carries exactly the arguments of its index's deltas before it; with
   `resets`, also the id and name of the start before it.
   */
  ghost predicate ArgsAreDeltas(events: seq<Event>, resets: bool) {
    forall c :: 0 <= c < |events| && events[c].ToolCallCompleted? ==>
      && events[c].args == ArgsOf(events[..c], events[c].index, resets)
      && (resets ==> (events[c].id, events[c].name) == StartOf(events[..c], events[c].index))
  }

  ghost predicate NotClosed(events: seq<Event>) {
    forall c :: 0 <= c < |events| ==> !events[c].StreamClosed?
  }

  /** Closed once, by the last event, if at all. */
  ghost predicate ClosedAtEnd(events: seq<Event>, closed: bool) {
    if closed then
      events != [] && events[|events| - 1].StreamClosed? && NotClosed(events[..|events| - 1])
    else
      NotClosed(events)
  }

  lemma Emit(events: seq<Event>, e: Event, k: int, resets: bool)
    ensures ArgsOf(events + [e], k, resets) ==
            if e.ToolCallStart? && e.index == k && resets then ""
            else if e.ToolCallDelta? && e.index == k then ArgsOf(events, k, resets) + e.args
            else ArgsOf(events, k, resets)
    ensures Completions(events + [e], k) == Completions(events, k) + if e.ToolCallCompleted? && e.index == k then 1 else 0
    ensures Starts(events + [e], k) == Starts(events, k) + if e.ToolCallStart? && e.index == k then 1 else 0
    ensures StartOf(events + [e], k) == if e.ToolCallStart? && e.index == k then (e.id, e.name) else StartOf(events, k)
  {
    assert (events + [e])[..|events|] == events;
  }

  lemma EmitKeepsArgs(events: seq<Event>, e: Event, resets: bool)
    requires ArgsAreDeltas(events, resets)
    requires e.ToolCallCompleted? ==>
      e.args == ArgsOf(events, e.index, resets) && (resets ==> (e.id, e.name) == StartOf(events, e.index))
    ensures ArgsAreDeltas(events + [e], resets)
  {
    var es := events + [e];
    forall c | 0 <= c < |es| && es[c].ToolCallCompleted?
      ensures es[c].args == ArgsOf(es[..c], es[c].index, resets)
              && (resets ==> (es[c].id, es[c].name) == StartOf(es[..c], es[c].index))
    {
      assert es[..c] == events[..c];
    }
  }

  /** The closing event ends the stream and changes nothing about its calls. */
  lemma EmitClose(events: seq<Event>, resets: bool)
    requires ArgsAreDeltas(events, resets) && NotClosed(events)
    ensures ArgsAreDeltas(events + [StreamClosed], resets) && ClosedAtEnd(events + [StreamClosed], true)
    ensures forall k :: Starts(events + [StreamClosed], k) == Starts(events, k)
    ensures forall k :: StartOf(events + [StreamClosed], k) == StartOf(events, k)
    ensures forall k :: ArgsOf(events + [StreamClosed], k, resets) == ArgsOf(events, k, resets)
    ensures forall k :: Completions(events + [StreamClosed], k) == Completions(events, k)
  {
    hide ArgsAreDeltas;
    EmitKeepsArgs(events, StreamClosed, resets);
    assert (events + [StreamClosed])[..|events|] == events;
  }

  /** What is known of each call of an event list. */
  datatype Tale = Tale(args: string, names: (string, string), starts: nat, completions: nat)

  function TaleOf(events: seq<Event>, k: int, resets: bool): Tale {
    Tale(ArgsOf(events, k, resets), StartOf(events, k), Starts(events, k), Completions(events, k))
  }

  /** Completions change nothing but the count of completions. */
  lemma {:induction false} EmitCalls(events: seq<Event>, targets: seq<int>, at: int -> Buffer, resets: bool)
    requires Ascending(targets) && ArgsAreDeltas(events, resets)
    requires forall k :: k in targets ==>
      at(k).args == ArgsOf(events, k, resets) && (resets ==> (at(k).id, at(k).name) == StartOf(events, k))
    ensures ArgsAreDeltas(events + Calls(targets, at), resets)
    ensures forall k :: TaleOf(events + Calls(targets, at), k, resets)
                        == TaleOf(events, k, resets).(completions := Completions(events, k) + if k in targets then 1 else 0)
    decreases |targets|
  {
    hide ArgsAreDeltas, ArgsOf, StartOf, Starts, Completions;
    if targets == [] {
      assert events + Calls(targets, at) == events;
    } else {
      var n := |targets| - 1;
      var before := events + Calls(targets[..n], at);
      var e := Call(targets[n], at(targets[n]));
      EmitCalls(events, targets[..n], at, resets);
      assert events + Calls(targets, at) == before + [e];
      assert TaleOf(before, targets[n], resets).args == ArgsOf(events, targets[n], resets);
      EmitKeepsArgs(before, e, resets);
      forall k ensures TaleOf(before + [e], k, resets)
                       == TaleOf(events, k, resets).(completions := Completions(events, k) + if k in targets then 1 else 0) {
        Emit(before, e, k, resets);
        assert TaleOf(before, k, resets)
               == TaleOf(events, k, resets).(completions := Completions(events, k) + if k in targets[..n] then 1 else 0);
      }
    }
  }

  // ----- completing buffered calls -----

  ghost predicate Ascending(xs: seq<int>) {
    forall i, j :: 0 <= i < j < |xs| ==> xs[i] < xs[j]
  }

  lemma HasLeast(s: set<int>)
    requires s != {}
    ensures exists m :: m in s && forall x :: x in s ==> m <= x
  {
    EmptyOrNot(s);
    var y :| y in s;
    var rest := s - {y};
    if rest == {} {
      assert forall x :: x in s ==> x in rest || x == y;
    } else {
      HasLeast(rest);
      var m :| m in rest && forall x :: x in rest ==> m <= x;
      var least := if y < m then y else m;
      assert forall x :: x in s ==> x in rest || x == y;
      assert least in s && forall x :: x in s ==> least <= x;
    }
  }

  ghost function Least(s: set<int>): (m: int)
    requires s != {}
    ensures m in s && forall x :: x in s ==> m <= x
  {
    HasLeast(s);
    var m :| m in s && forall x :: x in s ==> m <= x;
    m
  }

  /** A set in ascending order. */
  ghost function Sorted(s: set<int>): (r: seq<int>)
    ensures Ascending(r) && forall k :: k in r <==> k in s
  {
    if s == {} then [] else [Least(s)] + Sorted(s - {Least(s)})
  }

  /** The completions of some indexes, in order. */
  ghost function Calls(targets: seq<int>, at: int -> Buffer): (r: seq<Event>)
    ensures |r| == |targets| && forall j :: 0 <= j < |r| ==> r[j] == Call(targets[j], at(targets[j]))
  {
    seq(|targets|, j requires 0 <= j < |targets| => Call(targets[j], at(targets[j])))
  }

  lemma CallsStayOpen(events: seq<Event>, targets: seq<int>, at: int -> Buffer)
    requires NotClosed(events)
    ensures NotClosed(events + Calls(targets, at))
  {
  }

  lemma InsertAscends(xs: seq<int>, j: nat, x: int)
    requires Ascending(xs) && j <= |xs|
    requires (j > 0 ==> xs[j - 1] < x) && (j < |xs| ==> x < xs[j])
    ensures Ascending(xs[..j] + [x] + xs[j..])
  {
    var r := xs[..j] + [x] + xs[j..];
    forall a, b | 0 <= a < b < |r| ensures r[a] < r[b] {
      if a < j {
        assert r[a] == xs[a] <= xs[j - 1];
      }
      if b > j {
        assert r[b] == xs[b - 1] >= xs[j];
      }
    }
  }

  lemma InsertAdds(xs: seq<int>, j: nat, x: int)
    requires j <= |xs|
    ensures forall k :: k in xs[..j] + [x] + xs[j..] <==> k in xs || k == x
  {
    assert xs == xs[..j] + xs[j..];
  }

  method InsertIndex(indexes: seq<int>, x: int) returns (r: seq<int>)
    requires Ascending(indexes) && x !in indexes
    ensures Ascending(r) && forall k :: k in r <==> k in indexes || k == x
  {
    hide Ascending;
    var j := 0;
    while j < |indexes| && indexes[j] < x
      invariant 0 <= j <= |indexes|
      invariant j > 0 ==> indexes[j - 1] < x
    {
      j := j + 1;
    }
    assert j < |indexes| ==> indexes[j] in indexes;
    InsertAscends(indexes, j, x);
    InsertAdds(indexes, j, x);
    r := indexes[..j] + [x] + indexes[j..];
  }

  method SortedIndexes(buffers: map<int, Buffer>) returns (indexes: seq<int>)
    ensures Ascending(indexes) && forall k :: k in indexes <==> k in buffers
  {
    hide Ascending;
    indexes := [];
    NothingAscends();
    var rest := buffers.Keys;
    while rest != {}
      invariant Ascending(indexes) && rest <= buffers.Keys
      invariant forall k :: k in indexes <==> k in buffers && k !in rest
    {
      EmptyOrNot(rest);
      var x: int :| x in rest;
      indexes := InsertIndex(indexes, x);
      rest := rest - {x};
    }
  }

  lemma EmptyOrNot(s: set<int>)
    ensures s == {} || exists x :: x in s
  {
    if forall x :: x !in s {
      assert s == {};
    }
  }

  lemma NothingAscends()
    ensures Ascending([])
  {
  }

  /** The completions a batch of indexes produces: those buffered and not completed before, in the order given. */
  function Pending(buffers: map<int, Buffer>, completed: set<int>, targets: seq<int>): seq<Event>
    decreases |targets|
  {
    if targets == [] then []
    else
      var i := targets[0];
      if i in completed || i !in buffers then Pending(buffers, completed, targets[1..])
      else [Call(i, buffers[i])] + Pending(buffers, completed + {i}, targets[1..])
  }

  method CompleteBuffered(events: seq<Event>, buffers: map<int, Buffer>, completed: set<int>, targets: seq<int>)
    returns (events': seq<Event>, completed': set<int>)
    ensures events' == events + Pending(buffers, completed, targets)
    ensures forall k :: k in completed' <==> k in completed || (k in targets && k in buffers)
  {
    events', completed' := events, completed;
    for j := 0 to |targets|
      invariant events' + Pending(buffers, completed', targets[j..]) == events + Pending(buffers, completed, targets)
      invariant forall k :: k in completed' <==> k in completed || (k in targets[..j] && k in buffers)
    {
      var i := targets[j];
      assert targets[j..][1..] == targets[j + 1..];
      assert targets[..j + 1] == targets[..j] + [i];
      if i in completed' || i !in buffers {
        continue;
      }
      events' := events' + [Call(i, buffers[i])];
      completed' := completed' + {i};
    }
    assert targets[..|targets|] == targets;
  }

  lemma LeastFirst(s: set<int>, i: int)
    requires i in s && forall x :: x in s ==> i <= x
    ensures Sorted(s) == [i] + Sorted(s - {i})
  {
    hide Ascending;
    assert Least(s) == i;
  }

  lemma CallsFirst(i: int, rest: seq<int>, at: int -> Buffer)
    ensures Calls([i] + rest, at) == [Call(i, at(i))] + Calls(rest, at)
  {
  }

  lemma {:induction false} PendingAscends(buffers: map<int, Buffer>, completed: set<int>, indexes: seq<int>)
    requires Ascending(indexes)
    ensures var due := set k | k in indexes && k in buffers && k !in completed;
            Pending(buffers, completed, indexes) == Calls(Sorted(due), k => BufferAt(buffers, k))
    decreases |indexes|
  {
    hide Sorted, Calls;
    var at := (k: int) => BufferAt(buffers, k);
    var due := set k | k in indexes && k in buffers && k !in completed;
    if indexes == [] {
      assert due == {};
      NothingDue(at);
    } else {
      var i, rest := indexes[0], indexes[1..];
      assert forall k :: k in indexes <==> k == i || k in rest;
      if i in due {
        PendingAscends(buffers, completed + {i}, rest);
        assert (set k | k in rest && k in buffers && k !in completed + {i}) == due - {i};
        LeastFirst(due, i);
        CallsFirst(i, Sorted(due - {i}), at);
      } else {
        PendingAscends(buffers, completed, rest);
        assert (set k | k in rest && k in buffers && k !in completed) == due;
      }
    }
  }

  lemma NothingDue(at: int -> Buffer)
    ensures Calls(Sorted({}), at) == []
  {
  }

  method CompleteAll(events: seq<Event>, buffers: map<int, Buffer>, completed: set<int>)
    returns (events': seq<Event>, completed': set<int>)
    ensures completed' == completed + buffers.Keys
    ensures events' == events + Calls(Sorted(buffers.Keys - completed), k => BufferAt(buffers, k))
  {
    hide Ascending, Pending;
    var indexes := SortedIndexes(buffers);
    PendingAscends(buffers, completed, indexes);
    ghost var due := set k | k in indexes && k in buffers && k !in completed;
    assert forall k :: k in due <==> k in buffers.Keys - completed;
    assert due == buffers.Keys - completed;
    events', completed' := CompleteBuffered(events, buffers, completed, indexes);
    forall k ensures k in completed' <==> k in completed + buffers.Keys {
    }
  }
}
