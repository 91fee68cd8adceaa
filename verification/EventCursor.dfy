/**
 Reading a job's events by cursor: event ids as cursors, chained pages, and the event stream.
 An event id carries the job's id and the event's number, twelve digits wide.
 */
module EventCursor {
  import opened Wrappers
  import opened JobModel
  import opened JobProtocol
  import opened JobSafety

  // ----- event ids -----

  const WIDTH := 12
  const SEQ_LIMIT := 1_000_000_000_000

  predicate IsDigit(c: char) {
    '0' <= c <= '9'
  }

  /** The characters a job id may have in an event id. */
  predicate IsIdChar(c: char) {
    'A' <= c <= 'Z' || 'a' <= c <= 'z' || IsDigit(c) || c == '_' || c == '.' || c == '-'
  }

  predicate IsJobName(job: string) {
    job != "" && forall c :: c in job ==> IsIdChar(c)
  }

  function Digit(d: nat): char
    requires d < 10
  {
    ('0' as int + d) as char
  }

  function Decimal(n: nat): string {
    if n < 10 then [Digit(n)] else Decimal(n / 10) + [Digit(n % 10)]
  }

  function Zeros(k: nat): string {
    seq(k, i => '0')
  }

  function Padded(n: nat): string {
    var s := Decimal(n);
    if |s| < WIDTH then Zeros(WIDTH - |s|) + s else s
  }

  function EventId(job: string, n: nat): string {
    "evt_" + job + "_" + Padded(n)
  }

  function DigitValue(c: char): (d: nat)
    requires IsDigit(c)
    ensures d < 10 && Digit(d) == c
  {
    c as int - '0' as int
  }

  function Value(s: string): nat
    requires forall c :: c in s ==> IsDigit(c)
  {
    if s == "" then 0
    else
      assert s[|s| - 1] in s;
      Value(s[..|s| - 1]) * 10 + DigitValue(s[|s| - 1])
  }

  /** The number a cursor stands for, or nothing when it is not a cursor of this job. */
  function SeqFromId(job: string, id: string): Option<nat> {
    var cut := |id| - WIDTH;
    if cut < 6 || id[..4] != "evt_" || id[cut - 1] != '_' then None
    else if !(forall c :: c in id[cut..] ==> IsDigit(c)) || !IsJobName(id[4..cut - 1]) then None
    else if id[4..cut - 1] != job then None
    else Some(Value(id[cut..]))
  }

  function Power(k: nat): nat {
    if k == 0 then 1 else 10 * Power(k - 1)
  }

  lemma {:induction false} DecimalIsExact(n: nat)
    ensures forall c :: c in Decimal(n) ==> IsDigit(c)
    ensures Value(Decimal(n)) == n && Decimal(n) != ""
  {
    if n >= 10 {
      DecimalIsExact(n / 10);
      var s := Decimal(n);
      assert s[..|s| - 1] == Decimal(n / 10);
    } else {
      assert Decimal(n)[..0] == "";
    }
  }

  lemma {:induction false} DecimalLength(n: nat, k: nat)
    requires k >= 1
    ensures |Decimal(n)| <= k <==> n < Power(k)
  {
    if n >= 10 && k > 1 {
      DecimalLength(n / 10, k - 1);
      assert n < 10 * Power(k - 1) <==> n / 10 < Power(k - 1);
    } else if k == 1 {
      assert Power(1) == 10 * Power(0);
    } else {
      PowerGrows(k);
    }
  }

  lemma {:induction false} PowerGrows(k: nat)
    requires k >= 1
    ensures Power(k) >= 10
  {
    if k > 1 {
      PowerGrows(k - 1);
    }
  }

  lemma TwelveDigits()
    ensures Power(WIDTH) == SEQ_LIMIT
  {
    assert Power(3) == 1000;
    assert Power(6) == 1000 * Power(3);
    assert Power(9) == 1000 * Power(6);
    assert Power(12) == 1000 * Power(9);
  }

  lemma {:induction false} ZerosAddNothing(k: nat, s: string)
    requires forall c :: c in s ==> IsDigit(c)
    ensures forall c :: c in Zeros(k) + s ==> IsDigit(c)
    ensures Value(Zeros(k) + s) == Value(s)
    decreases k + |s|
  {
    var t := Zeros(k) + s;
    if s != "" {
      assert t[..|t| - 1] == Zeros(k) + s[..|s| - 1];
      ZerosAddNothing(k, s[..|s| - 1]);
    } else if k > 0 {
      assert t[..|t| - 1] == Zeros(k - 1) + s;
      ZerosAddNothing(k - 1, s);
    } else {
      assert t == s;
    }
  }

  lemma PaddedIsExact(n: nat)
    ensures forall c :: c in Padded(n) ==> IsDigit(c)
    ensures Value(Padded(n)) == n
    ensures |Padded(n)| == WIDTH <==> n < SEQ_LIMIT
    ensures |Padded(n)| >= WIDTH
  {
    DecimalIsExact(n);
    DecimalLength(n, WIDTH);
    TwelveDigits();
    if |Decimal(n)| < WIDTH {
      ZerosAddNothing(WIDTH - |Decimal(n)|, Decimal(n));
    }
  }

  /** `n` without its last `i` decimal digits. */
  function Shifted(n: nat, i: nat): nat {
    if i == 0 then n else Shifted(n / 10, i - 1)
  }

  lemma {:induction false} DecimalSpells(n: nat, i: nat)
    ensures if i < |Decimal(n)| then Decimal(n)[|Decimal(n)| - 1 - i] as int == '0' as int + Shifted(n, i) % 10
            else Shifted(n, i) == 0
  {
    if n >= 10 && i > 0 {
      DecimalSpells(n / 10, i - 1);
      assert Decimal(n) == Decimal(n / 10) + [Digit(n % 10)];
    } else if n < 10 && i > 0 {
      ZeroShifts(i - 1);
    }
  }

  lemma {:induction false} ZeroShifts(i: nat)
    ensures Shifted(0, i) == 0
  {
    if i > 0 {
      ZeroShifts(i - 1);
    }
  }

  /** An event id spells its job and, in twelve decimal digits as long as these are enough, its number. */
  lemma EventIdSpells(job: string, n: nat, i: nat)
    requires n < SEQ_LIMIT && i < 12
    ensures var id := EventId(job, n);
      && |id| == |job| + 17 && id[..4] == "evt_" && id[4..4 + |job|] == job && id[4 + |job|] == '_'
      && id[|id| - 1 - i] as int == '0' as int + Shifted(n, i) % 10
  {
    hide Decimal;
    PaddedIsExact(n);
    DecimalSpells(n, i);
    var p := Padded(n);
    assert EventId(job, n) == ("evt_" + job + "_") + p;
    assert p[|p| - 1 - i] as int == '0' as int + Shifted(n, i) % 10;
  }

  /** An event id is a cursor of its own job exactly while its number has at most twelve digits, and then gives it back. */
  lemma CursorRoundTrip(job: string, n: nat)
    requires IsJobName(job)
    ensures SeqFromId(job, EventId(job, n)) == if n < SEQ_LIMIT then Some(n) else None
  {
    var id := EventId(job, n);
    PaddedIsExact(n);
    var p := Padded(n);
    assert id == ("evt_" + job + "_") + p;
    if n < SEQ_LIMIT {
      var cut := |id| - WIDTH;
      assert id[..4] == "evt_" && id[4..cut - 1] == job && id[cut - 1] == '_' && id[cut..] == p;
    } else {
      var cut := |id| - WIDTH;
      assert id[cut - 1] == p[|p| - WIDTH - 1] && p[|p| - WIDTH - 1] in p;
    }
  }

  /** No cursor is good for two jobs. */
  lemma CursorNamesItsJob(job: string, other: string, id: string)
    requires SeqFromId(job, id).Some? && SeqFromId(other, id).Some?
    ensures job == other
  {
  }

  // ----- pages -----

  function After(log: seq<Event>, seq_: nat): (r: seq<Event>)
    ensures forall e :: e in r <==> e in log && e.seq_ > seq_
  {
    if log == [] then []
    else if log[|log| - 1].seq_ > seq_ then After(log[..|log| - 1], seq_) + [log[|log| - 1]]
    else After(log[..|log| - 1], seq_)
  }

  function InsertBySeq(xs: seq<Event>, e: Event): seq<Event> {
    if xs == [] || xs[|xs| - 1].seq_ <= e.seq_ then xs + [e] else InsertBySeq(xs[..|xs| - 1], e) + [xs[|xs| - 1]]
  }

  function SortBySeq(xs: seq<Event>): seq<Event> {
    if xs == [] then [] else InsertBySeq(SortBySeq(xs[..|xs| - 1]), xs[|xs| - 1])
  }

  function Clamp(limit: int): (r: nat)
    ensures 1 <= r <= 1000 && (1 <= limit <= 1000 ==> r == limit) && (limit < 1 ==> r == 1) && (limit > 1000 ==> r == 1000)
  {
    if limit < 1 then 1 else if limit > 1000 then 1000 else limit
  }

  function Min(a: nat, b: nat): nat {
    if a < b then a else b
  }

  function Page(log: seq<Event>, seq_: nat, limit: int): seq<Event> {
    var events := SortBySeq(After(log, seq_));
    events[..Min(Clamp(limit), |events|)]
  }

  lemma NumberedPrefix(log: seq<Event>)
    requires Numbered(log) && log != []
    ensures Numbered(log[..|log| - 1]) && log[|log| - 1].seq_ == |log|
  {
  }

  lemma SuffixAndLast(log: seq<Event>, k: nat)
    requires k < |log|
    ensures log[..|log| - 1][k..] + [log[|log| - 1]] == log[k..]
  {
  }

  lemma {:induction false} AfterIsSuffix(log: seq<Event>, seq_: nat)
    requires Numbered(log)
    ensures After(log, seq_) == log[Min(seq_, |log|)..]
  {
    if log != [] {
      var n := |log| - 1;
      NumberedPrefix(log);
      hide Numbered;
      AfterIsSuffix(log[..n], seq_);
      if seq_ <= n {
        SuffixAndLast(log, seq_);
      }
    }
  }

  lemma {:induction false} SortedStays(xs: seq<Event>)
    requires forall i, j :: 0 <= i < j < |xs| ==> xs[i].seq_ <= xs[j].seq_
    ensures SortBySeq(xs) == xs
  {
    if xs != [] {
      SortedStays(xs[..|xs| - 1]);
      assert xs == xs[..|xs| - 1] + [xs[|xs| - 1]];
    }
  }

  lemma TakeOfDrop(log: seq<Event>, start: nat, k: nat)
    requires start <= |log|
    ensures log[start..][..Min(k, |log| - start)] == log[start..Min(start + k, |log|)]
  {
  }

  /** A page is the next run of the log after the cursor. */
  lemma PageIsRun(log: seq<Event>, seq_: nat, limit: int)
    requires Numbered(log)
    ensures var start := Min(seq_, |log|);
      Page(log, seq_, limit) == log[start..Min(start + Clamp(limit), |log|)]
  {
    hide Numbered, After, SortBySeq, Clamp;
    var start := Min(seq_, |log|);
    AfterIsSuffix(log, seq_);
    RestIsSorted(log, start);
    SortedStays(log[start..]);
    TakeOfDrop(log, start, Clamp(limit));
  }

  lemma RestIsSorted(log: seq<Event>, start: nat)
    requires Numbered(log) && start <= |log|
    ensures forall i, j :: 0 <= i < j < |log[start..]| ==> log[start..][i].seq_ <= log[start..][j].seq_
  {
  }

  // ----- chained pages -----

  /** One page request: what the log held at the time, and the limit asked for. */
  datatype Request = Request(log: seq<Event>, limit: int)

  ghost predicate Growing(requests: seq<Request>) {
    && (forall i :: 0 <= i < |requests| ==> Numbered(requests[i].log))
    && (forall i, j :: 0 <= i <= j < |requests| ==> requests[i].log <= requests[j].log)
  }

  datatype Reader = Reader(cursor: string, delivered: seq<Event>)

  /** One request, taking up at the last id the reader was given; an empty cursor starts at the beginning. */
  function ReadOn(job: string, r: Reader, q: Request): Option<Reader> {
    var seq_ := if r.cursor == "" then Some(0) else SeqFromId(job, r.cursor);
    if seq_.None? then None
    else
      var events := Page(q.log, seq_.value, q.limit);
      Some(Reader(if events == [] then r.cursor else EventId(job, events[|events| - 1].seq_), r.delivered + events))
  }

  /** What a reader has after `k` requests. */
  function Chained(job: string, requests: seq<Request>, k: nat): Option<Reader>
    requires k <= |requests|
  {
    if k == 0 then Some(Reader("", []))
    else
      var before := Chained(job, requests, k - 1);
      if before.None? then None else ReadOn(job, before.value, requests[k - 1])
  }

  /** How much of the log `k` requests deliver. */
  function Reached(requests: seq<Request>, k: nat): nat
    requires k <= |requests|
  {
    if k == 0 then 0
    else Min(Reached(requests, k - 1) + Clamp(requests[k - 1].limit), |requests[k - 1].log|)
  }

  lemma {:induction false} ReachedInLog(requests: seq<Request>, k: nat)
    requires k <= |requests| && Growing(requests)
    ensures k > 0 ==> Reached(requests, k) <= |requests[k - 1].log|
    ensures k < |requests| ==> Reached(requests, k) <= |requests[k].log|
  {
    if k > 0 {
      ReachedInLog(requests, k - 1);
      assert k < |requests| ==> requests[k - 1].log <= requests[k].log;
    }
  }

  ghost predicate ReaderAt(job: string, requests: seq<Request>, k: nat, r: Option<Reader>)
    requires k <= |requests|
  {
    var n := Reached(requests, k);
    && r.Some?
    && r.value.cursor == (if n == 0 then "" else EventId(job, n))
    && (if k == 0 then r.value.delivered == []
        else n <= |requests[k - 1].log| && r.value.delivered == requests[k - 1].log[..n])
  }

  /** The events of the next page, and where it ends. */
  lemma NextRun(requests: seq<Request>, k: nat)
    requires k < |requests| && Growing(requests)
    ensures var n, n' := Reached(requests, k), Reached(requests, k + 1);
      var log := requests[k].log;
      && n <= n' <= |log| && Page(log, n, requests[k].limit) == log[n..n']
      && (n' > n ==> log[n..n'][n' - n - 1].seq_ == n')
      && (k == 0 ==> n == 0 && log[..n] == [])
      && (k > 0 ==> n <= |requests[k - 1].log| && requests[k - 1].log[..n] == log[..n])
  {
    hide Page;
    var n, n' := Reached(requests, k), Reached(requests, k + 1);
    var log := requests[k].log;
    ReachedInLog(requests, k);
    PageIsRun(log, n, requests[k].limit);
    if k > 0 {
      assert requests[k - 1].log <= log;
    }
  }

  lemma ReadOnFrom(job: string, r: Reader, q: Request, n: nat, n': nat)
    requires IsJobName(job) && n <= n' <= |q.log| < SEQ_LIMIT
    requires r.cursor == (if n == 0 then "" else EventId(job, n)) && r.delivered == q.log[..n]
    requires Page(q.log, n, q.limit) == q.log[n..n'] && (n' > n ==> q.log[n..n'][n' - n - 1].seq_ == n')
    ensures ReadOn(job, r, q) == Some(Reader(if n' == 0 then "" else EventId(job, n'), q.log[..n']))
  {
    hide EventId, SeqFromId, Page;
    if n > 0 {
      CursorRoundTrip(job, n);
      EventIdNotEmpty(job, n);
    }
    assert q.log[..n] + q.log[n..n'] == q.log[..n'];
  }

  /** One more page takes a reader on without a gap or a repeat. */
  lemma NextPage(job: string, requests: seq<Request>, k: nat)
    requires IsJobName(job) && k < |requests| && Growing(requests)
    requires |requests[k].log| < SEQ_LIMIT
    requires ReaderAt(job, requests, k, Chained(job, requests, k))
    ensures ReaderAt(job, requests, k + 1, Chained(job, requests, k + 1))
  {
    hide EventId, Page, Reached, Growing, ReadOn;
    NextRun(requests, k);
    ReadOnFrom(job, Chained(job, requests, k).value, requests[k], Reached(requests, k), Reached(requests, k + 1));
  }

  lemma EventIdNotEmpty(job: string, n: nat)
    ensures EventId(job, n) != ""
  {
  }

  /**
   Chained pages deliver every event once and in order, whatever the limits and whatever is
   appended between requests; the log is complete once a page comes back short.
   */
  lemma {:induction false} PagingIsExact(job: string, requests: seq<Request>, k: nat)
    requires IsJobName(job) && k <= |requests| && Growing(requests)
    requires forall r :: r in requests ==> |r.log| < SEQ_LIMIT
    ensures ReaderAt(job, requests, k, Chained(job, requests, k))
    ensures k > 0 ==>
      var r := Chained(job, requests, k).value;
      && r.delivered <= requests[k - 1].log
      && (Reached(requests, k) < Reached(requests, k - 1) + Clamp(requests[k - 1].limit) ==> r.delivered == requests[k - 1].log)
  {
    hide Chained, EventId;
    if k > 0 {
      PagingIsExact(job, requests, k - 1);
      assert requests[k - 1] in requests;
      NextPage(job, requests, k - 1);
    } else {
      NothingRead(job, requests);
    }
  }

  lemma NothingRead(job: string, requests: seq<Request>)
    ensures ReaderAt(job, requests, 0, Chained(job, requests, 0))
  {
  }

  /** Past twelve digits a chain stops: the last id given is refused as a cursor. */
  lemma ChainStopsPastTwelveDigits(job: string, requests: seq<Request>, k: nat)
    requires IsJobName(job) && k < |requests|
    requires ReaderAt(job, requests, k, Chained(job, requests, k)) && Reached(requests, k) >= SEQ_LIMIT
    ensures Chained(job, requests, k + 1).None?
  {
    CursorRoundTrip(job, Reached(requests, k));
    EventIdNotEmpty(job, Reached(requests, k));
  }

  // ----- logs grow over runs -----

  lemma DirectLog(y: Sys, a: Step, id: JobId)
    requires Enabled(y, a) && Target(y, a) == Some(id) && id in y.store.manifests && y.store.manifests[id].id == id
    requires a.MarkRunning? || a.Cancel? || a.CancelCrash? || a.RetryLink? || a.RecoverStale? || a.RecoverUnknown?
    ensures id in Apply(y, a).store.manifests && LogOf(y.store, id) <= LogOf(Apply(y, a).store, id)
  {
    hide Upsert, LastTerminal, LeafRevision, MutationAllowed, Stale;
  }

  lemma CommittedLog(y: Sys, a: Step, id: JobId)
    requires Enabled(y, a) && Target(y, a) == Some(id) && (a.ClaimCommit? || a.FinishCommit? || a.FinishCrash?)
    ensures id in Apply(y, a).store.manifests && LogOf(y.store, id) <= LogOf(Apply(y, a).store, id)
  {
    hide Upsert, LeafRevision;
  }

  lemma LogGrowsInStep(y: Sys, a: Step, id: JobId)
    requires Inv(y) && Enabled(y, a) && id in y.store.manifests
    ensures id in Apply(y, a).store.manifests && LogOf(y.store, id) <= LogOf(Apply(y, a).store, id)
  {
    hide Apply, IndexOk;
    assert RecordOk(y.store, id);
    if Target(y, a) != Some(id) {
      StepFrame(y, a, id);
    } else if a.ClaimCommit? || a.FinishCommit? || a.FinishCrash? {
      CommittedLog(y, a, id);
    } else {
      DirectLog(y, a, id);
    }
  }

  /** Over a run a job's log only grows, and its manifest's last event number is the log's length. */
  lemma {:induction false} LogGrowsInRun(ys: seq<Sys>, steps: seq<Step>, clock: int, i: nat, j: nat, id: JobId)
    requires Run(ys, steps) && ys[0] == Init(clock) && i <= j < |ys| && id in ys[i].store.manifests
    ensures id in ys[j].store.manifests && LogOf(ys[i].store, id) <= LogOf(ys[j].store, id)
    ensures Numbered(LogOf(ys[j].store, id)) && ys[j].store.manifests[id].lastSeq == |LogOf(ys[j].store, id)|
  {
    hide Inv, Apply, Enabled, Numbered;
    InitInv(clock);
    if i < j {
      LogGrowsInRun(ys, steps, clock, i, j - 1, id);
      RunKeepsInv(ys, steps, j - 1);
      LogGrowsInStep(ys[j - 1], steps[j - 1], id);
    }
    RunKeepsInv(ys, steps, j);
    LogIsNumbered(ys[j], id);
  }

  lemma LogIsNumbered(y: Sys, id: JobId)
    requires Inv(y) && id in y.store.manifests
    ensures Numbered(LogOf(y.store, id)) && y.store.manifests[id].lastSeq == |LogOf(y.store, id)|
  {
    assert RecordOk(y.store, id);
  }

  /** Requests made in the course of a run read a growing, numbered log. */
  lemma RunRequestsGrow(ys: seq<Sys>, steps: seq<Step>, clock: int, id: JobId, times: seq<nat>, requests: seq<Request>)
    requires Run(ys, steps) && ys[0] == Init(clock) && |times| == |requests|
    requires forall i :: 0 <= i < |times| ==> times[i] < |ys| && id in ys[times[i]].store.manifests
    requires forall i, j :: 0 <= i <= j < |times| ==> times[i] <= times[j]
    requires forall i :: 0 <= i < |times| ==> requests[i].log == LogOf(ys[times[i]].store, id)
    ensures Growing(requests)
  {
    hide Run, Numbered, Inv;
    forall i, j | 0 <= i <= j < |requests| ensures Numbered(requests[j].log) && requests[i].log <= requests[j].log {
      LogGrowsInRun(ys, steps, clock, times[i], times[j], id);
    }
  }

  // ----- the event stream -----

  /** One poll: the log, whether the job had ended, and whether the wait is over. */
  datatype Poll = Poll(log: seq<Event>, terminal: bool, expired: bool)

  /** What a stream that starts after number `at` sees: a growing log that holds that number. */
  ghost predicate Polled(polls: seq<Poll>, at: nat) {
    && (forall i :: 0 <= i < |polls| ==> Numbered(polls[i].log) && at <= |polls[i].log| < SEQ_LIMIT)
    && (forall i, j :: 0 <= i <= j < |polls| ==> polls[i].log <= polls[j].log)
  }

  method ListJobEvents(job: string, log: seq<Event>, cursor: Option<string>, limit: int) returns (r: Option<seq<Event>>)
    ensures match cursor
      case Some(id) =>
        if id == "" then r == Some(Page(log, 0, limit))
        else if SeqFromId(job, id).None? then r == None else r == Some(Page(log, SeqFromId(job, id).value, limit))
      case None => r == Some(Page(log, 0, limit))
  {
    var after := 0;
    if cursor.Some? && cursor.value != "" {
      var seq_ := SeqFromId(job, cursor.value);
      if seq_.None? {
        return None;
      }
      after := seq_.value;
    }
    var events := SortBySeq(After(log, after));
    return Some(events[..Min(Clamp(limit), |events|)]);
  }

  /** A cursor that stands for number `n` of the job. */
  ghost predicate StandsAt(job: string, cursor: Option<string>, n: nat) {
    match cursor
    case None => n == 0
    case Some(id) => if id == "" then n == 0 else SeqFromId(job, id) == Some(n)
  }

  /** `events` is the run of the log that follows number `at`. */
  ghost predicate IsRun(log: seq<Event>, at: nat, events: seq<Event>) {
    at + |events| <= |log| && events == log[at..at + |events|]
  }

  /** One poll's events, and where the cursor then stands. */
  method PollOnce(job: string, log: seq<Event>, cursor: Option<string>, limit: nat, ghost at: nat)
    returns (events: seq<Event>, next: Option<string>)
    requires IsJobName(job) && Numbered(log) && |log| < SEQ_LIMIT && StandsAt(job, cursor, at) && at <= |log|
    requires 1 <= limit <= 1000
    ensures IsRun(log, at, events) && |events| == Min(limit, |log| - at)
    ensures StandsAt(job, next, at + |events|)
  {
    hide EventId, Page, SeqFromId;
    PageIsRun(log, at, limit);
    var page := ListJobEvents(job, log, cursor, limit);
    events := page.value;
    next := cursor;
    if events != [] {
      var last := events[|events| - 1].seq_;
      assert last == at + |events|;
      CursorRoundTrip(job, last);
      EventIdNotEmpty(job, last);
      next := Some(EventId(job, last));
    }
  }

  lemma NothingIsRun(log: seq<Event>, at: nat)
    requires at <= |log|
    ensures IsRun(log, at, [])
  {
  }

  lemma RunInside(log: seq<Event>, at: nat, events: seq<Event>)
    requires IsRun(log, at, events)
    ensures at + |events| <= |log|
  {
  }

  lemma RunGoesOn(before: seq<Event>, log: seq<Event>, at: nat, events: seq<Event>, more: seq<Event>)
    requires before <= log && IsRun(before, at, events)
    requires IsRun(log, at + |events|, more)
    ensures IsRun(log, at, events + more)
  {
  }

  lemma PolledAt(polls: seq<Poll>, at: nat, i: nat)
    requires Polled(polls, at) && i < |polls|
    ensures Numbered(polls[i].log) && at <= |polls[i].log| < SEQ_LIMIT
    ensures i > 0 ==> polls[i - 1].log <= polls[i].log
    ensures forall e :: e in polls[i].log ==> e.seq_ <= |polls[i].log|
  {
  }

  /**
   The stream ends with poll `i`: the job had ended, the limit is used up, or the wait was
   over with nothing new since the poll before.
   */
  predicate EndsWith(polls: seq<Poll>, at: nat, limit: nat, i: nat)
    requires i < |polls|
  {
    || polls[i].terminal
    || |polls[i].log| >= at + limit
    || (polls[i].expired && |polls[i].log| == if i == 0 then at else |polls[i - 1].log|)
  }

  /** How many polls a stream reads: up to the first that ends it, or all. */
  function PollsRead(polls: seq<Poll>, at: nat, limit: nat): (n: nat)
    ensures n <= |polls| && (polls != [] ==> n > 0)
    ensures forall i :: 0 <= i < n - 1 ==> !EndsWith(polls, at, limit, i)
    ensures n == |polls| || EndsWith(polls, at, limit, n - 1)
  {
    ReadFrom(polls, at, limit, 0)
  }

  function ReadFrom(polls: seq<Poll>, at: nat, limit: nat, i: nat): (n: nat)
    requires i <= |polls|
    ensures i <= n <= |polls| && (i < |polls| ==> n > i)
    ensures forall k :: i <= k < n - 1 ==> !EndsWith(polls, at, limit, k)
    ensures n == |polls| || EndsWith(polls, at, limit, n - 1)
    decreases |polls| - i
  {
    if i == |polls| then i
    else if EndsWith(polls, at, limit, i) then i + 1
    else ReadFrom(polls, at, limit, i + 1)
  }

  /** The job runs, less than the limit has come, and the wait is not over with nothing new since the poll before. */
  predicate KeepsWaiting(polls: seq<Poll>, at: nat, limit: nat, k: nat)
    requires k < |polls|
  {
    && !polls[k].terminal && |polls[k].log| < at + limit
    && (polls[k].expired ==> |polls[k].log| != if k == 0 then at else |polls[k - 1].log|)
  }

  /** A stream goes on to the next poll exactly while it keeps waiting. */
  lemma StreamGoesOn(polls: seq<Poll>, at: nat, limit: nat, i: nat)
    requires i + 1 < |polls|
    ensures i + 1 < PollsRead(polls, at, limit) <==> forall k: nat :: k <= i ==> KeepsWaiting(polls, at, limit, k)
  {
    var n := PollsRead(polls, at, limit);
    if i + 1 < n {
      forall k: nat | k <= i ensures KeepsWaiting(polls, at, limit, k) {
        assert !EndsWith(polls, at, limit, k);
      }
    } else {
      assert EndsWith(polls, at, limit, n - 1) && !KeepsWaiting(polls, at, limit, n - 1);
    }
  }

  lemma PollsReadIs(polls: seq<Poll>, at: nat, limit: nat, n: nat)
    requires 0 < n <= |polls| && forall i :: 0 <= i < n - 1 ==> !EndsWith(polls, at, limit, i)
    requires n == |polls| || EndsWith(polls, at, limit, n - 1)
    ensures PollsRead(polls, at, limit) == n
  {
  }

  /**
   One stream reads polls up to the first that ends it. It delivers the run of that poll's
   log after its cursor, as long as the limit allows, and closes exactly if the job had ended
   by then, with a number above every stored one.
   */
  method StreamJobEvents(job: string, cursor: Option<string>, ghost at: nat, limit: nat, polls: seq<Poll>)
    returns (delivered: seq<Event>, closed: Option<nat>)
    requires IsJobName(job) && 1 <= limit <= 1000 && Polled(polls, at) && StandsAt(job, cursor, at)
    ensures polls == [] ==> delivered == [] && closed == None
    ensures polls != [] ==>
      var last := polls[PollsRead(polls, at, limit) - 1];
      && IsRun(last.log, at, delivered) && |delivered| == Min(limit, |last.log| - at)
      && closed == (if last.terminal then Some(|last.log| + 1) else None)
      && (closed.Some? ==> forall e :: e in last.log ==> e.seq_ < closed.value)
  {
    hide EventId, SeqFromId, Polled, Numbered, StandsAt, IsRun, IsJobName;
    delivered, closed := [], None;
    var next: Option<string>, remaining: nat := cursor, limit;
    var i := 0;
    while remaining > 0 && i < |polls|
      invariant 0 <= i <= |polls| && remaining + |delivered| == limit && closed == None
      invariant forall k :: 0 <= k < i && (k < i - 1 || remaining > 0) ==> !EndsWith(polls, at, limit, k)
      invariant i > 0 ==> at <= |polls[i - 1].log| && |delivered| == Min(limit, |polls[i - 1].log| - at)
      invariant remaining == 0 ==> i > 0 && EndsWith(polls, at, limit, i - 1) && !polls[i - 1].terminal
      invariant i > 0 ==> !polls[i - 1].terminal
      invariant StandsAt(job, next, at + |delivered|)
      invariant i > 0 ==> IsRun(polls[i - 1].log, at, delivered)
      invariant i == 0 ==> delivered == []
    {
      var p := polls[i];
      PolledAt(polls, at, i);
      if i == 0 {
        NothingIsRun(p.log, at);
      } else {
        RunInside(polls[i - 1].log, at, delivered);
      }
      ghost var here := at + |delivered|;
      var events;
      events, next := PollOnce(job, p.log, next, remaining, here);
      RunGoesOn(if i > 0 then polls[i - 1].log else p.log, p.log, at, delivered, events);
      delivered, remaining := delivered + events, remaining - |events|;
      i := i + 1;
      if p.terminal {
        closed := Some(|p.log| + 1);
        PollsReadIs(polls, at, limit, i);
        return;
      }
      if events != [] {
        continue;
      }
      if p.expired {
        PollsReadIs(polls, at, limit, i);
        return;
      }
    }
    if polls != [] {
      PolledAt(polls, at, i - 1);
      PollsReadIs(polls, at, limit, i);
    }
  }
}
