/**
 Rebuilding a job's event index from its segmented, append-only log: the first
 occurrence of every event id must carry the next number.
 */
module EventIndex {
  import opened Wrappers

  type EventId = int

  datatype Record = Record(eventId: EventId, eventSeq: int)

  datatype SegmentEntry = SegmentEntry(fromSeq: Option<int>, toSeq: Option<int>, eventCount: nat)

  datatype Index = Index(
    segments: seq<SegmentEntry>, eventCount: nat, duplicateEventCount: nat,
    lastSeq: int, lastId: Option<EventId>)

  datatype Corrupt = Corrupt(expectedSeq: int, actualSeq: int)

  function Flatten(segments: seq<seq<Record>>): seq<Record> {
    if segments == [] then [] else Flatten(segments[..|segments| - 1]) + segments[|segments| - 1]
  }

  /** How many records stand before segment `j`. */
  function Offset(segments: seq<seq<Record>>, j: nat): nat
    requires j <= |segments|
  {
    if j == 0 then 0 else Offset(segments, j - 1) + |segments[j - 1]|
  }

  /** The event ids of the first `n` records. */
  function Seen(records: seq<Record>, n: nat): set<EventId>
    requires n <= |records|
  {
    set i | 0 <= i < n :: records[i].eventId
  }

  /** Of the first `n` records, those whose event id did not occur earlier, in order. */
  function Kept(records: seq<Record>, n: nat): seq<Record>
    requires n <= |records|
  {
    if n == 0 then []
    else if records[n - 1].eventId in Seen(records, n - 1) then Kept(records, n - 1)
    else Kept(records, n - 1) + [records[n - 1]]
  }

  function FirstOccurrences(records: seq<Record>): seq<Record> {
    Kept(records, |records|)
  }

  predicate Contiguous(kept: seq<Record>) {
    forall i :: 0 <= i < |kept| ==> kept[i].eventSeq == i + 1
  }

  /** The non-null ranges of `entries` tile lo+1..hi without gap or overlap. */
  predicate Tiles(entries: seq<SegmentEntry>, lo: int, hi: int) {
    if entries == [] then lo == hi
    else
      var n := |entries| - 1;
      var e := entries[n];
      if e.fromSeq.None? then e.toSeq.None? && Tiles(entries[..n], lo, hi)
      else e.toSeq == Some(hi) && lo < e.fromSeq.value <= hi && Tiles(entries[..n], lo, e.fromSeq.value - 1)
  }

  /** The error names the first number that is wrong. */
  ghost predicate FirstWrong(kept: seq<Record>, e: Corrupt) {
    && 1 <= e.expectedSeq <= |kept|
    && (forall i :: 0 <= i < e.expectedSeq - 1 ==> kept[i].eventSeq == i + 1)
    && kept[e.expectedSeq - 1].eventSeq == e.actualSeq != e.expectedSeq
  }

  lemma {:induction false} KeptPrefix(records: seq<Record>, n: nat, m: nat)
    requires n <= m <= |records|
    ensures |Kept(records, n)| <= |Kept(records, m)|
    ensures forall i :: 0 <= i < |Kept(records, n)| ==> Kept(records, m)[i] == Kept(records, n)[i]
  {
    if n < m {
      KeptPrefix(records, n, m - 1);
    }
  }

  lemma {:induction false} KeptOfExtension(records: seq<Record>, more: seq<Record>, n: nat)
    requires n <= |records|
    ensures Kept(records + more, n) == Kept(records, n) && Seen(records + more, n) == Seen(records, n)
  {
    forall i | 0 <= i < n ensures (records + more)[i] == records[i] {
    }
    if n > 0 {
      KeptOfExtension(records, more, n - 1);
    }
  }

  lemma {:induction false} FlattenAt(segments: seq<seq<Record>>, j: nat, i: nat)
    requires j < |segments| && i < |segments[j]|
    ensures |Flatten(segments)| == Offset(segments, |segments|)
    ensures Offset(segments, j) + i < |Flatten(segments)|
    ensures Flatten(segments)[Offset(segments, j) + i] == segments[j][i]
  {
    var n := |segments| - 1;
    OffsetOfPrefix(segments, n, n);
    FlattenLength(segments[..n]);
    if j < n {
      OffsetOfPrefix(segments, n, j);
      FlattenAt(segments[..n], j, i);
    }
  }

  lemma {:induction false} FlattenLength(segments: seq<seq<Record>>)
    ensures |Flatten(segments)| == Offset(segments, |segments|)
  {
    if segments != [] {
      var n := |segments| - 1;
      FlattenLength(segments[..n]);
      OffsetOfPrefix(segments, n, n);
    }
  }

  lemma {:induction false} OffsetOfPrefix(segments: seq<seq<Record>>, n: nat, j: nat)
    requires j <= n <= |segments|
    ensures Offset(segments[..n], j) == Offset(segments, j)
  {
    if j > 0 {
      OffsetOfPrefix(segments, n, j - 1);
    }
  }

  lemma TilesStep(entries: seq<SegmentEntry>, e: SegmentEntry, mid: int, hi: int)
    requires Tiles(entries, 0, mid) && 0 <= mid <= hi
    requires if hi == mid then e.fromSeq.None? && e.toSeq.None?
             else e.fromSeq == Some(mid + 1) && e.toSeq == Some(hi)
    ensures Tiles(entries + [e], 0, hi)
  {
    assert (entries + [e])[..|entries|] == entries;
  }

  /** The rebuild's running counters. */
  datatype Progress = Progress(
    seen: set<EventId>, lastSeq: int, eventCount: nat, duplicates: nat, lastId: Option<EventId>)

  /** What the counters say about the first `n` records. */
  ghost predicate Scanned(all: seq<Record>, n: nat, p: Progress) {
    && n <= |all|
    && p.seen == Seen(all, n)
    && Contiguous(Kept(all, n))
    && p.eventCount == p.lastSeq == |Kept(all, n)|
    && p.eventCount + p.duplicates == n
    && p.lastId == if Kept(all, n) == [] then None else Some(Kept(all, n)[p.lastSeq - 1].eventId)
  }

  lemma ScanStep(all: seq<Record>, n: nat, p: Progress)
    requires n < |all| && Scanned(all, n, p)
    ensures var r := all[n];
      && (r.eventId in p.seen ==> Scanned(all, n + 1, p.(duplicates := p.duplicates + 1)))
      && (r.eventId !in p.seen && r.eventSeq == p.lastSeq + 1 ==>
            Scanned(all, n + 1,
                    Progress(p.seen + {r.eventId}, r.eventSeq, p.eventCount + 1, p.duplicates, Some(r.eventId))))
  {
    assert Seen(all, n + 1) == Seen(all, n) + {all[n].eventId};
  }

  /** A wrong number among the first occurrences read so far stays wrong however the log goes on. */
  lemma MismatchIsFinal(all: seq<Record>, n: nat, p: Progress)
    requires n < |all| && Scanned(all, n, p)
    requires all[n].eventId !in p.seen && all[n].eventSeq != p.lastSeq + 1
    ensures FirstWrong(FirstOccurrences(all), Corrupt(p.lastSeq + 1, all[n].eventSeq))
  {
    KeptPrefix(all, n + 1, |all|);
  }

  method ScanSegment(segments: seq<seq<Record>>, j: nat, p0: Progress, ghost all: seq<Record>)
    returns (p: Progress, r: Result<SegmentEntry, Corrupt>)
    requires all == Flatten(segments) && j < |segments| && Scanned(all, Offset(segments, j), p0)
    ensures r.Ok? ==>
      && Scanned(all, Offset(segments, j + 1), p)
      && r.value.eventCount == |segments[j]| && p0.lastSeq <= p.lastSeq
      && if p.lastSeq == p0.lastSeq then r.value.fromSeq.None? && r.value.toSeq.None?
         else r.value.fromSeq == Some(p0.lastSeq + 1) && r.value.toSeq == Some(p.lastSeq)
    ensures r.Err? ==> FirstWrong(FirstOccurrences(all), r.error)
  {
    p := p0;
    var firstSeq: Option<int> := None;
    var segmentLastSeq: Option<int> := None;
    var records := segments[j];
    ghost var start := Offset(segments, j);
    for i := 0 to |records|
      invariant Scanned(all, start + i, p)
      invariant p0.lastSeq <= p.lastSeq
      invariant if p.lastSeq == p0.lastSeq then firstSeq.None? && segmentLastSeq.None?
                else firstSeq == Some(p0.lastSeq + 1) && segmentLastSeq == Some(p.lastSeq)
    {
      var record := records[i];
      FlattenAt(segments, j, i);
      ScanStep(all, start + i, p);
      if record.eventId in p.seen {
        p := p.(duplicates := p.duplicates + 1);
        continue;
      }
      if record.eventSeq != p.lastSeq + 1 {
        MismatchIsFinal(all, start + i, p);
        return p, Err(Corrupt(p.lastSeq + 1, record.eventSeq));
      }
      firstSeq := if firstSeq.None? then Some(record.eventSeq) else firstSeq;
      segmentLastSeq := Some(record.eventSeq);
      p := Progress(p.seen + {record.eventId}, record.eventSeq, p.eventCount + 1, p.duplicates, Some(record.eventId));
    }
    return p, Ok(SegmentEntry(firstSeq, segmentLastSeq, |records|));
  }

  /**
   The rebuild succeeds if and only if the first occurrences are numbered 1..n in order;
   then it counts n events, ends at n, accounts for every record read, and its segment
   ranges tile 1..n. Otherwise it names the first number that is wrong.
   */
  method Rebuild(segments: seq<seq<Record>>) returns (r: Result<Index, Corrupt>)
    ensures r.Ok? <==> Contiguous(FirstOccurrences(Flatten(segments)))
    ensures r.Ok? ==>
      var kept := FirstOccurrences(Flatten(segments));
      && r.value.eventCount == |kept| && r.value.lastSeq == |kept|
      && r.value.lastId == (if kept == [] then None else Some(kept[|kept| - 1].eventId))
      && r.value.eventCount + r.value.duplicateEventCount == |Flatten(segments)|
      && |r.value.segments| == |segments|
      && (forall k :: 0 <= k < |segments| ==> r.value.segments[k].eventCount == |segments[k]|)
      && Tiles(r.value.segments, 0, |kept|)
    ensures r.Err? ==> FirstWrong(FirstOccurrences(Flatten(segments)), r.error)
  {
    var entries: seq<SegmentEntry> := [];
    var p := Progress({}, 0, 0, 0, None);
    ghost var all := Flatten(segments);
    for j := 0 to |segments|
      invariant |entries| == j
      invariant Scanned(all, Offset(segments, j), p)
      invariant forall k :: 0 <= k < j ==> entries[k].eventCount == |segments[k]|
      invariant Tiles(entries, 0, p.lastSeq)
    {
      var before := p.lastSeq;
      var scanned;
      p, scanned := ScanSegment(segments, j, p, all);
      if scanned.Err? {
        return Err(scanned.error);
      }
      TilesStep(entries, scanned.value, before, p.lastSeq);
      entries := entries + [scanned.value];
    }
    FlattenLength(segments);
    return Ok(Index(entries, p.eventCount, p.duplicates, p.lastSeq, p.lastId));
  }

  /** The log store's append: a new segment starts when the last one is full. */
  function Append(segments: seq<seq<Record>>, maxEvents: nat, r: Record): seq<seq<Record>> {
    if segments == [] || |segments[|segments| - 1]| >= maxEvents then segments + [[r]]
    else segments[..|segments| - 1] + [segments[|segments| - 1] + [r]]
  }

  /** A new segment starts exactly when there is none or the last is full, so none grows beyond the limit. */
  lemma SegmentsFill(segments: seq<seq<Record>>, maxEvents: nat, r: Record)
    requires maxEvents >= 1 && forall s :: s in segments ==> |s| <= maxEvents
    ensures forall s :: s in Append(segments, maxEvents, r) ==> |s| <= maxEvents
    ensures |Append(segments, maxEvents, r)| == |segments| + 1
            <==> segments == [] || |segments[|segments| - 1]| == maxEvents
    ensures forall i :: 0 <= i < |segments| - 1 ==> Append(segments, maxEvents, r)[i] == segments[i]
  {
    if segments != [] {
      assert segments[|segments| - 1] in segments;
      assert forall s :: s in segments[..|segments| - 1] ==> s in segments;
    }
  }

  lemma AppendFlattens(segments: seq<seq<Record>>, maxEvents: nat, r: Record)
    ensures Flatten(Append(segments, maxEvents, r)) == Flatten(segments) + [r]
  {
    var out := Append(segments, maxEvents, r);
    var n := |out| - 1;
    if segments == [] || |segments[|segments| - 1]| >= maxEvents {
      assert out[..n] == segments;
    } else {
      assert out[..n] == segments[..n];
      assert Flatten(segments[..n]) + (segments[n] + [r]) == (Flatten(segments[..n]) + segments[n]) + [r];
    }
  }

  /** Appending a record with a new id keeps a log rebuildable if and only if it carries the next number. */
  lemma AppendKeepsRebuildable(segments: seq<seq<Record>>, maxEvents: nat, r: Record)
    requires Contiguous(FirstOccurrences(Flatten(segments)))
    requires r.eventId !in Seen(Flatten(segments), |Flatten(segments)|)
    ensures var kept := FirstOccurrences(Flatten(segments));
      && FirstOccurrences(Flatten(Append(segments, maxEvents, r))) == kept + [r]
      && (Contiguous(FirstOccurrences(Flatten(Append(segments, maxEvents, r)))) <==> r.eventSeq == |kept| + 1)
  {
    AppendFlattens(segments, maxEvents, r);
    var all := Flatten(segments);
    KeptOfExtension(all, [r], |all|);
    var kept := FirstOccurrences(all);
    assert (kept + [r])[|kept|] == r;
  }

  /** A log that numbers its records 1..n, each under its own id, has no duplicates. */
  lemma {:induction false} NumberedLogKeepsAll(records: seq<Record>, n: nat)
    requires n <= |records|
    requires forall i :: 0 <= i < |records| ==> records[i].eventSeq == i + 1 && records[i].eventId == i + 1
    ensures Kept(records, n) == records[..n]
  {
    if n > 0 {
      NumberedLogKeepsAll(records, n - 1);
      assert records[..n] == records[..n - 1] + [records[n - 1]];
    }
  }
}
