/** Runs in which a step stops half way, and what it leaves. */
module JobCrash {
  import opened Wrappers
  import opened JobModel
  import opened JobProtocol
  import opened JobRefinement
  import opened JobSafety

  const REQUEST := Request(0, Normal, 0, 0, 0)

  const ENTRY := SummaryOf(NewManifest(5, REQUEST, 0))

  /** One job, queued and indexed. */
  function Queued5(): Sys {
    Sys(0, AfterIndexWrite(AfterCreateBegin(EMPTY_STORE, 5, REQUEST, 0), NewManifest(5, REQUEST, 0)), {}, map[], map[], map[])
  }

  lemma JobIsQueued()
    ensures Follows(Init(0), Queued5()) && Inv(Queued5()) && Queued5().store.index == [ENTRY]
  {
    hide Follows, Inv, Upsert;
    FollowsItself(Init(0));
    InitInv(0);
    Advance(Init(0), Init(0), CreateBegin(0, 5, REQUEST));
    var y := Apply(Init(0), CreateBegin(0, 5, REQUEST));
    Advance(Init(0), y, CreateCommit(0));
    assert y.creates - {0} == map[];
    assert Apply(y, CreateCommit(0)) == Queued5();
    OneEntry();
  }

  lemma OneEntry()
    ensures Upsert([], ENTRY) == [ENTRY]
  {
    assert Without([], ENTRY.id) + [ENTRY] == [ENTRY];
    assert [ENTRY][..0] == [];
  }

  /** A cancel stops after its event append: an unfinished job's log then holds a terminal event. */
  lemma CrashedCancelInRun() returns (y: Sys)
    ensures Follows(Init(0), y) && Inv(y)
    ensures 5 in y.store.manifests && !Terminal(y.store.manifests[5].status) && TerminalEvents(LogOf(y.store, 5)) == 1
    ensures !Matches(y.store, 5)
  {
    hide Follows, Inv, Upsert, TerminalEvents;
    JobIsQueued();
    var q := Queued5();
    assert ENTRY in q.store.index;
    Advance(Init(0), q, CancelCrash(5));
    y := Apply(q, CancelCrash(5));
    StepLogs(q, CancelCrash(5), 5);
    QueuedLog();
  }

  lemma QueuedLog()
    ensures TerminalEvents(LogOf(Queued5().store, 5)) == 0
  {
    var log := LogOf(Queued5().store, 5);
    assert log[..1] == [log[0]] && log[..1][..0] == [];
  }

  /**
   A finish stops after its manifest write: the job has ended, its log and its index entry do
   not say so, and a create in its scope is refused.
   */
  lemma CrashedFinishInRun() returns (y: Sys)
    ensures Follows(Init(0), y) && Inv(y)
    ensures Cut(y.store, 5) && Blocks(y.store, 5) && TerminalEvents(LogOf(y.store, 5)) == 0
    ensures Enabled(y, CreateBegin(0, 6, REQUEST.(idem := 1))) && Apply(y, CreateBegin(0, 6, REQUEST.(idem := 1))) == y
  {
    hide Follows, Inv, Upsert, TerminalEvents;
    JobIsQueued();
    var q := Queued5();
    assert ENTRY in q.store.index;
    Advance(Init(0), q, FinishBegin(0, 5, OutSucceeded, None, 0));
    var z := Apply(q, FinishBegin(0, 5, OutSucceeded, None, 0));
    Advance(Init(0), z, FinishCrash(0));
    y := Apply(z, FinishCrash(0));
    QueuedLog();
    BlocksStep(z, FinishCrash(0), 5);
    CutStep(z, FinishCrash(0), 5);
    BlockedScopeRefuses(y, 5, CreateBegin(0, 6, REQUEST.(idem := 1)));
  }
}
