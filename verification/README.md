# Verified models of the agent backend

A Dafny model of the parts of the backend that keep state over time or transform data step
by step, with proofs of what they promise. `dafny verify dfyconfig.toml` checks everything.

Each component has a specification made of functions on values and, where the program works
by changing things, classes or loops proved to do exactly what the specification says. The
main theorems speak about every run, every input or every sequence of builds.

| files | component |
|---|---|
| `JobModel`, `JobProtocol`, `JobSafety`, `JobFencing` | the job protocol as a state machine of interleaved steps, its invariant, and what every run keeps |
| `JobOutcomes` | what each operation on a job leaves, in full |
| `JobService`, `JobWorker`, `EventIndex` | the job operations step by step, claiming and batches, and the rebuild of the event index |
| `JobRefinement`, `JobCrash` | those operations as runs of the protocol's steps, and runs that stop half way |
| `EventCursor` | event ids as cursors, chained pages and the event stream |
| `PathSearch` | the bounded path search over relation facts |
| `MemoryModel`, `Outbox`, `MemoryService` | long-term memory and the outbox that feeds the external indexes |
| `MemoryOutcomes` | what each memory operation writes and queues, in full |
| `OutboxRaces` | the outboxes of several workspaces, with events and processing calls interleaved |
| `RunModel`, `RunProtocol`, `RunService` | conversation runs: leases, commits and approvals |
| `RunRevival` | which ended runs can come back to life, and the runs that late writes lead to |
| `Chunker` | the overlapping document chunker |
| `ToolStream`, `OpenAIStream`, `AnthropicStream` | the streaming tool-call assemblers |
| `StreamTelling` | the text, finish reasons, ids and names the assembled streams show |
| `GraphModel`, `GraphIndex`, `GraphExtraction`, `GraphPayload` | graph records, their merge into the knowledge base's index, and where they come from |
| `GraphTelling` | what payloads and rules put into those records, field by field |
| `CypherStrip` | the Cypher comment and literal stripper |

## Assumptions

- The object store is a map with a compare-and-set on a revision
  (`backend/app/storage/object_store.py:67-89`); event logs are append-only lists
  (`backend/app/storage/jsonl_store.py:39-53`).
- Clocks are nondecreasing integers, read once per step. Ids and tokens are fresh when they
  are drawn, and hashes are injective.
- Job operations are single steps, except that create, claim and finish split at their
  revision-checked write. A cancel may also stop right after its event append, and a finish
  right after its manifest write.
- A job's id reaches callers only once the job is indexed, so steps that take an id are
  enabled for indexed jobs. `JobFencing.LosingCreateLeavesOrphan` shows the manifest that a
  losing create leaves behind, and `JobFencing.MarkingUnindexedJob` what would go wrong with
  its id, exactly when.
- `MemoryModel`, `Outbox` and `MemoryService` are about one user in one workspace, and a
  `process_pending` call is one step there. `OutboxRaces` takes the call apart, for the global
  memories of a user in any number of workspaces; at most one call of a workspace is under way,
  as its jobs have one target scope (`JobSafety.ScopeExclusivity`), and appending an event to
  the queue is one step.
- A run's event append and an approval decision are each one step; an approval and a
  rejection may also stop in between. An execution's lease check and
  the message or status it writes right after are one step; the failure path, a cancel and a
  stale recovery are two, with any steps between their check and their write.
- A document version and a chunk id belong to one document, and no chunk id is a document
  id. The program's prefixed ids guarantee the last; `GraphIndex.SharedIdsBreakIntegrity`
  shows what it is needed for.

## Where the code does less than one might expect

Each item names the lemma that gives the exact condition and, where one is needed, a run that
shows it.

- Between two owners a job accepts any token (`JobFencing.MarkTakesEffectIff`,
  `JobFencing.FinishTakesEffectIff`).
- A crashed cancel leaves a terminal event in an unfinished job's log
  (`JobCrash.CrashedCancelInRun`); a finish that stops after its manifest write leaves a
  finished job whose log, leaf and index entry do not say so (`JobCrash.CrashedFinishInRun`). A
  job matches its log throughout a run exactly when no cancel and no finish of it crashed
  (`JobSafety.TerminalMatchesLog`, `JobSafety.StepKeepsMatch`); its index entry agrees exactly
  unless a finish crashed and no retry was linked since
  (`JobSafety.IndexAgreesWithManifests`), and until then its scope stays taken
  (`JobSafety.ScopeStaysTaken`).
- A run's lease check ignores expiry: an expired lease commits
  (`RunRevival.ExpiredLeaseCommits`), exactly until the run ends or changes owner
  (`RunProtocol.CommitTakesEffectIff`).
- The failure path, a cancel and a stale recovery write a run's manifest without a second
  look. A cancelled run can be overwritten (`RunRevival.CancelledRunIsOverwritten`), and, as a
  cancel gives an old revision back, even revived by a lease write
  (`RunRevival.CancelledRunIsRevived`). An ended run keeps its end exactly as long as none
  of these late writes meets it (`RunProtocol.EndIsFinal`, `RunProtocol.EndedStaysEnded`), and
  stays ended for good exactly if no lease write in flight read a revision the run may still
  come to (`RunRevival.EndedForGoodIff`). A superseded execution writes exactly by the failure
  path (`RunProtocol.SupersededNeverWrites`, `RunProtocol.FailureIsFencedIff`).
- After one plan of a run is rejected, and the rejection has completed, another plan of it can
  still be executed (`RunRevival.RejectedRunExecutes`): exactly if such a lease write was in
  flight at the rejection (`RunRevival.RejectionEndsExecution`, `RunRevival.EndedExecutesIff`).
- An approval that stops before its outcome is recorded leaves its plan approved or executing,
  never to be executed again, whether it was executed or not
  (`RunProtocol.ApprovalStoppedEarly`).
- A rejection that stops before it cancels the run lets another plan of it be executed
  (`RunRevival.RejectionStopsEarlyInRun`), exactly if that plan could be approved
  (`RunProtocol.RejectionStoppedEarly`).
- Event cursors stop working past twelve digits (`EventCursor.CursorRoundTrip`,
  `EventCursor.ChainStopsPastTwelveDigits`).
- A memory proposed anew keeps its old record in the external indexes
  (`Outbox.IndexedThenReproposed`): a skip freezes a slot at what it held before
  (`Outbox.SkipFreezes`), so a slot whose change was done agrees after it exactly when that
  change was a deletion (`Outbox.ReproposedStaysIndexed`).
- A deletion can be lost: a processing call writes back the queue it read, so an event queued
  meanwhile is dropped (`OutboxRaces.DeletionIsLost`). It can be undone: an upsert pending in one
  workspace, worked after the deletion was done in another, indexes the deleted record
  (`OutboxRaces.DeletionIsUndone`). What a slot's last attempt read decides exactly whether it
  agrees (`OutboxRaces.LastAttemptDecides`, `OutboxRaces.NeverAttempted`); neither failure meets a
  memory whose events all happen in one workspace between its processing calls
  (`OutboxRaces.CarefulMemoryAgrees`).
- A path search may exceed its cap, by less than the number of facts leaving one node
  (`PathSearch.FindPathsFromIndex`).

## Model

| member | source | states |
|---|---|---|
| JobModel.FindByIdem | backend/app/jobs/service.py:1300-1308 | the first index entry of an idempotency key, or none exactly when no entry has it |
| JobModel.FindActive | backend/app/jobs/service.py:1310-1322 | an unfinished index entry of the scope other than the excluded one, or none exactly when all are finished |
| JobModel.UpsertEffect | backend/app/jobs/service.py:1178-1220 | an index upsert replaces one job's entry, keeps all others, and leaves the index sorted newest first with distinct ids |
| JobModel.LastTerminal | backend/app/jobs/service.py:935-955 | the last terminal event of a log, and none exactly when the log has none |
| JobProtocol.StepKeepsInv | backend/app/jobs/service.py:131-1123 | every step of the protocol keeps the invariant, with pending creates, claims and finishes in flight |
| JobProtocol.RunKeepsInv | backend/app/jobs/service.py:1234-1245 | the invariant holds in every state of every run |
| JobProtocol.CreateCommitKeeps | backend/app/jobs/service.py:174-192 | a create's revision-checked index write keeps scope exclusivity and unique idempotency keys whatever happened since its checks |
| JobProtocol.ClaimCommitKeeps | backend/app/jobs/service.py:379-408 | a claim's revision-checked manifest write keeps the invariant whatever happened since its checks |
| JobProtocol.FinishCommitKeeps | backend/app/jobs/service.py:1038-1072 | so does a finish's |
| JobProtocol.PendingSurvive | backend/app/jobs/service.py:1210-1220 | pending operations stay sound while others write, because every write raises a revision |
| JobSafety.ScopeExclusivity | backend/app/jobs/service.py:1310-1322 | in every state of every run: one unfinished indexed job per scope, one indexed job per idempotency key, owners only on running jobs, one live lease per scope |
| JobSafety.IndexAgreesWithManifests | backend/app/jobs/service.py:1178-1196 | in every run each index entry agrees with its manifest, its status exactly unless a finish of the job crashed and no retry was linked since, and the leaf exactly unless a finish crashed |
| JobSafety.BlocksIff | backend/app/jobs/service.py:1038-1072 | an ended job keeps an unfinished index entry exactly from a crashed finish of it to the next retry link |
| JobSafety.ScopeStaysTaken | backend/app/jobs/service.py:1310-1322 | meanwhile no create in its scope takes effect |
| JobSafety.StepFrame | backend/app/jobs/service.py:233-265 | a step changes the manifest, log and leaf of at most the one job it is about |
| JobSafety.TerminalAbsorbing | backend/app/jobs/service.py:994-1033 | once terminal, a job's manifest (but for its retry link), log and leaf never change again |
| JobSafety.TerminalMatchesLog | backend/app/jobs/service.py:994-1072 | whatever other jobs go through, a job matches its log (one terminal event of its type if terminal, none otherwise) in every state of a run exactly when no cancel and no finish of it crashed |
| JobSafety.StepKeepsMatch | backend/app/jobs/service.py:233-265 | any step keeps a job's match with its log exactly unless it is a crashed cancel or finish of that job |
| JobSafety.MatchesNow | backend/app/jobs/service.py:935-955 | after any run an unfinished job matches exactly if no cancel of it crashed, a finished one exactly if its finish did not crash and one event in all says so; last_event_seq is the log length |
| JobSafety.TerminalEventsCounted | backend/app/jobs/service.py:827-869 | a job's log holds one terminal event per crashed cancel of it, and one more if an event ended it, which happens at most once |
| JobSafety.TerminalIsNewestEvent | backend/app/jobs/service.py:935-955 | whatever cancels crash, a terminal status is that of the newest terminal event exactly unless a finish of the job crashed |
| JobSafety.CutIff | backend/app/jobs/service.py:1038-1072 | a finished job has a leaf that is not exactly when a finish of it crashed |
| JobCrash.CrashedCancelInRun | backend/app/jobs/service.py:233-265 | a reachable state whose unfinished job has a terminal event in its log |
| JobCrash.CrashedFinishInRun | backend/app/jobs/service.py:1038-1072 | a reachable state whose finished job has no terminal event and an unfinished index entry, and in which a create in its scope is refused |
| JobSafety.RecoveryFollowsLog | backend/app/jobs/service.py:443-536 | recovery of an unknown outcome takes the status of the highest-numbered terminal event, and yields recovering exactly when there is none |
| JobOutcomes.CancelOutcome | backend/app/jobs/service.py:233-265 | a cancel leaves a finished job alone and any other cancelled, with its event, leaf and entry |
| JobOutcomes.ClaimOutcome | backend/app/jobs/service.py:350-408 | a claim takes exactly a created, queued, waiting or recovering job without a live owner whose scope is free, and leaves it running under the new lease |
| JobOutcomes.MarkOutcome | backend/app/jobs/service.py:579-632 | mark_job_running sets an unfinished job running and renews the lease, exactly for no owner or the owner's own unexpired lease |
| JobOutcomes.FinishOutcome | backend/app/jobs/service.py:994-1072 | a finish that is let through ends the job with the status and the event of its outcome, unowned |
| JobOutcomes.FinishCrashOutcome | backend/app/jobs/service.py:1038-1046 | one that stops after its manifest write ends the manifest alone |
| JobOutcomes.StaleOutcome | backend/app/jobs/service.py:410-441 | exactly a running job without a live owner that was silent for the threshold becomes one of unknown outcome, with two events |
| JobOutcomes.UnknownOutcomeEnds | backend/app/jobs/service.py:443-536 | a job of unknown outcome takes the status and time of its newest terminal event |
| JobOutcomes.UnknownOutcomeGoesOn | backend/app/jobs/service.py:443-536 | and goes on as recovering when there is none |
| JobOutcomes.ClaimOrder | backend/app/jobs/service.py:330-378 | of the jobs a claim may take it takes one of high before normal before low priority, and among equals the oldest; none exactly when it may take none |
| JobOutcomes.IndexOrder | backend/app/jobs/service.py:1178-1220 | the index lists the job last updated first |
| JobOutcomes.AnswerFromIndex | backend/app/jobs/service.py:146-173 | a create gets the job of its key if the hash is the same and a conflict if not, and else the job that holds its scope as a conflict |
| JobFencing.OwnerOrigin | backend/app/jobs/service.py:1125-1152 | a job has an owner after a step only by keeping its owner's token or by a claim on an ownerless job |
| JobFencing.OwnerKept | backend/app/jobs/service.py:1134-1152 | while a job stays owned it stays owned by the same token |
| JobFencing.FencedWhileOwned | backend/app/jobs/service.py:579-632 | from a claim until the owner is cleared, every change by mark_job_running or a finish presented that claim's token under an unexpired lease |
| JobFencing.ForeignTokenChangesNothing | backend/app/jobs/service.py:1154-1176 | on an owned job any other token, instance or an expired lease changes nothing at all |
| JobFencing.LateFinishChangesNothing | backend/app/jobs/service.py:1038-1046 | a finish whose job was written since it was read changes nothing |
| JobFencing.MarkTakesEffectIff | backend/app/jobs/service.py:579-632 | mark_job_running takes effect exactly on an unfinished job that is ownerless or whose unexpired lease is presented |
| JobFencing.FinishTakesEffectIff | backend/app/jobs/service.py:994-1046 | the same condition, exactly, for a finish whose write follows after any delay |
| JobFencing.TokenNeverReturns | backend/app/jobs/service.py:1125-1132 | a token that stopped owning its job never owns any job again |
| JobFencing.LosingCreateLeavesOrphan | backend/app/jobs/service.py:735-825 | of two creates racing on a scope the loser leaves a queued manifest no index entry names |
| JobFencing.MarkingUnindexedJob | backend/app/jobs/service.py:610-632 | marking such a job running keeps exclusivity exactly when its scope has no other active job |
| JobFencing.NoStuckJob | backend/app/jobs/service.py:410-441 | from every reachable state every unfinished indexed job can reach a terminal status by time, recovery, a claim and a finish under that claim's lease, changing no other job |
| JobService.NextClaimIsBest | backend/app/jobs/service.py:330-378 | a claim takes the eligible job least by priority rank and creation time, and none exactly when none is eligible |
| JobService.FirstEligibleIsLeast | backend/app/jobs/service.py:350-366 | the candidate loop stops at the least eligible candidate |
| JobService.JobService.RebuildEventIndex | backend/app/jobs/service.py:871-933 | on a numbered log the rebuild gives the log length |
| JobService.JobService.AppendEvent | backend/app/jobs/service.py:827-869 | an append numbers its event after the index and moves the manifest's counters |
| JobService.JobService.WriteManifest | backend/app/jobs/service.py:1234-1245 | a write with an expected revision takes effect exactly when the revision matches |
| JobService.JobService.UpsertJobIndex | backend/app/jobs/service.py:1178-1220 | an index write with an expected revision takes effect exactly when no index exists or its revision matches |
| JobService.JobService.PrepareCreate | backend/app/jobs/service.py:131-182 | the idempotent answer, the refusal, or the writes before the index write: a queued manifest of the request's own type, priority, scope, key and hash |
| JobService.JobService.CommitCreate | backend/app/jobs/service.py:174-192 | the revision-checked index write |
| JobService.JobService.CreateJob | backend/app/jobs/service.py:131-192 | two attempts, each open to another create between its halves: the answer from the index, the new job queued and indexed as its request asks, a rival's of the same key and hash, or a concurrency conflict after two losses |
| JobService.LostAttemptFindsRival | backend/app/jobs/service.py:146-192 | an attempt is lost exactly when another create lands before its index write; the next then answers with the rival's job if key or scope are the same |
| JobService.CreateUnrivalled | backend/app/jobs/service.py:131-192 | a create alone answers from the index or leaves the new job queued and indexed as asked |
| JobService.CreatedJobIsAsked | backend/app/jobs/service.py:735-825 | a create that succeeds without an answer leaves manifest, two events, leaf and one index entry of the type, priority, scope, key and hash its request asks for, queued and unowned, or takes a rival's job of the same key and hash; no other job changes |
| JobService.RetryQueues | backend/app/jobs/service.py:267-317 | a retry's job is queued for the request it is given, as a retry of the first job |
| JobService.RetryLinkMarks | backend/app/jobs/service.py:312-317 | the link changes nothing but the link itself and revisions |
| JobService.JobService.CancelJob | backend/app/jobs/service.py:233-265 | cancels an unfinished job and leaves a finished one as it is |
| JobService.JobService.RetryJob | backend/app/jobs/service.py:267-317 | recovers an unknown outcome, refuses unfinished or succeeded jobs, and otherwise queues and links a new job of the same type and priority; scope and hash of the stored request are inputs |
| JobService.JobService.CheckClaim | backend/app/jobs/service.py:350-378 | a candidate is taken exactly when it is eligible |
| JobService.JobService.CommitClaim | backend/app/jobs/service.py:379-408 | the revision-checked claim write and what follows it |
| JobService.JobService.ClaimNextJobForWorker | backend/app/jobs/service.py:330-408 | claims the best eligible job, or changes nothing when none is eligible |
| JobService.JobService.MarkJobRunning | backend/app/jobs/service.py:579-632 | the store it leaves, with both guards |
| JobService.JobService.FinishJob | backend/app/jobs/service.py:994-1072 | the store it leaves, with its guards and the revision check |
| JobService.JobService.RecoverStaleRunningJobs | backend/app/jobs/service.py:410-441 | sweeps the listed jobs in order |
| JobService.JobService.TerminalProjection | backend/app/jobs/service.py:935-955 | the newest terminal event, searched from the end |
| JobService.JobService.RecoverUnknownOutcomeJob | backend/app/jobs/service.py:443-536 | adopts the newest terminal outcome or goes to recovering |
| JobWorker.SweepStaleEffect | backend/app/jobs/service.py:410-441 | a sweep rewrites exactly the stale jobs it visits, each once, in whatever order and repetition |
| JobWorker.ClaimableEntriesAreEligible | backend/app/jobs/service.py:350-378 | in stores every run keeps, an entry is eligible exactly when its indexed status and type say so and no crashed finish has left it behind |
| JobWorker.JobWorker.ProcessNext | backend/app/jobs/worker.py:152-238 | claims the first job of the allowed types and leaves it failed for a missing handler or one that raises, else with the status and event its handler returned, if the lease outlasts the handler, and else running; nothing else changes |
| JobWorker.WorkNextWorks | backend/app/jobs/worker.py:152-238 | the same of one turn as a function of store, time and token |
| JobWorker.JobWorker.ProcessBatch | backend/app/jobs/worker.py:124-150 | distinct jobs, at most the clamp, each left as its handler says, no other job touched and the index up to date; drained only if no job may be taken |
| JobRefinement.AttemptFollows | backend/app/jobs/service.py:174-192 | an attempt at a create, another create in its gap included, is a run of protocol steps that keeps the invariant |
| JobRefinement.CreateFollows | backend/app/jobs/service.py:131-192 | so is a whole create |
| JobRefinement.ClaimFollows | backend/app/jobs/service.py:330-408 | so is a claim |
| JobRefinement.FinishFollows | backend/app/jobs/service.py:994-1072 | so is a finish |
| JobRefinement.SingleSteps | backend/app/jobs/service.py:233-265 | cancel, mark_job_running, retry links and the recoveries are single steps that keep it |
| JobRefinement.SweepFollows | backend/app/jobs/service.py:410-441 | a stale sweep is a run of them |
| JobRefinement.WorkFollows | backend/app/jobs/worker.py:152-238 | so is a turn of the worker |
| JobRefinement.BatchFollows | backend/app/jobs/worker.py:124-150 | and a batch |
| EventIndex.Rebuild | backend/app/jobs/service.py:871-933 | succeeds exactly when first occurrences are numbered 1 to n; then counts add up and segment ranges tile 1 to n; else names the first wrong number |
| EventIndex.AppendKeepsRebuildable | backend/app/storage/jsonl_store.py:39-53 | appending a new id keeps the log rebuildable exactly when it carries the next number |
| EventIndex.AppendFlattens | backend/app/storage/jsonl_store.py:39-53 | an append, across segments or not, adds one record at the end |
| EventIndex.SegmentsFill | backend/app/storage/jsonl_store.py:39-53 | a new segment starts exactly when the last is full, so none grows beyond the limit |
| EventCursor.CursorRoundTrip | backend/app/jobs/service.py:1250-1260 | an event id gives its number back exactly while that has at most twelve digits, and is refused past that |
| EventCursor.EventIdSpells | backend/app/jobs/service.py:73-74 | an event id spells its job and its number in twelve decimal digits |
| EventCursor.CursorNamesItsJob | backend/app/jobs/service.py:1252-1259 | no cursor is accepted for two jobs |
| EventCursor.PageIsRun | backend/app/jobs/service.py:703-718 | a page is the next run of the log after the cursor, as long as the clamped limit allows |
| EventCursor.PagingIsExact | backend/app/api/jobs.py:195-217 | chained pages deliver every event once and in order under any limits and appends between; a short page completes the log |
| EventCursor.ChainStopsPastTwelveDigits | backend/app/jobs/service.py:1252-1259 | past twelve digits the next request is refused |
| EventCursor.LogGrowsInRun | backend/app/jobs/service.py:827-869 | over every run a job's log only grows and last_event_seq is its length |
| EventCursor.RunRequestsGrow | backend/app/jobs/service.py:703-718 | requests made in the course of any run meet the assumptions of exact paging |
| EventCursor.ListJobEvents | backend/app/jobs/service.py:703-718 | the page after the cursor, or a refusal exactly for a cursor that is not this job's |
| EventCursor.StreamJobEvents | backend/app/api/jobs.py:239-262 | reads up to the first poll that ends the stream (job ended, limit used up, or waited out with nothing new), delivers the run of its log after the cursor up to the limit, and closes exactly if the job had ended, with a number above every stored one |
| EventCursor.PollsRead | backend/app/api/jobs.py:243-262 | that poll is the first that ends the stream, or there is none and all are read |
| EventCursor.StreamGoesOn | backend/app/api/jobs.py:243-262 | a stream goes on exactly while the job runs, less than the limit has come, and the wait is not over with nothing new |
| PathSearch.AllPathsExact | backend/app/graph_pipeline/query.py:385-427 | the enumeration holds exactly the allowed walks of length 1 to the depth bound that reach the target, no step returning to an earlier subject |
| PathSearch.AllPathsOrdered | backend/app/graph_pipeline/query.py:405-427 | shortest first, and each walk once when no fact is listed twice |
| PathSearch.FindPathsFromIndex | backend/app/graph_pipeline/query.py:385-427 | the worklist search returns a prefix of the enumeration, all of it below the cap, and exceeds the cap by less than one node's facts |
| PathSearch.BuildAdjacency | backend/app/graph_pipeline/query.py:395-403 | each node's allowed facts in index order |
| PathSearch.BuildRecord | backend/app/graph_pipeline/query.py:430-456 | the record of a path |
| PathSearch.RecordJoinsNodes | backend/app/graph_pipeline/query.py:430-456 | a record's relationships join its nodes in order and direction, from source to target |
| PathSearch.ExpandEntity | backend/app/graph_pipeline/query.py:144-166 | an expansion returns exactly the first walks of the enumeration up to the cap: only allowed walks of one step, or of one or two if more than one is asked for, and all of them below the cap |
| PathSearch.FindPaths | backend/app/graph_pipeline/query.py:191-209 | a target search returns only such walks that reach the target, shortest first, all of them below the cap, past it by less than one node's facts |
| Outbox.EnqueuedExact | backend/app/memory/service.py:693-737 | an event replaces its memory's entries by what it asks for, keeps all others, and leaves one entry per slot |
| MemoryOutcomes.EventQueues | backend/app/memory/service.py:693-737 | nothing waits for a pending candidate; an active, enabled and harmless record waits for its upserts, the graph index only for some types and fields; any other for two deletions; other memories wait as before, in order of target and memory |
| MemoryOutcomes.TurnOutcome | backend/app/memory/sync_service.py:54-86 | a success does what its entry asks and drops it; a failure puts it at the back, to be retried or given up |
| Outbox.TurnKeepsInv | backend/app/memory/sync_service.py:99-148 | working one entry brings its slot into agreement or keeps the entry, whatever a failure did outside |
| Outbox.PersistedKeepsInv | backend/app/memory/service.py:628-691 | writing a record with its event keeps every slot queued or in agreement |
| Outbox.OutboxAgreement | backend/app/memory/service.py:799-836 | after any run: at most one entry per slot, and a slot without one whose latest event was no skip agrees with the canonical record |
| Outbox.LatestIsFound | backend/app/memory/service.py:271-275 | a memory listed in one scope is found as the record its latest event named |
| Outbox.OnlySkipsStayOut | backend/app/memory/service.py:190-211 | a memory whose every event was a skip is in no external index and in no queue entry |
| Outbox.SkipFreezes | backend/app/memory/service.py:693-737 | over any run, from a skip until its memory's next event a slot is unqueued and holds exactly what it held before the skip |
| Outbox.ReproposedStaysIndexed | backend/app/memory/service.py:190-211 | where the change before the skip was done, the slot is absent until the next event exactly when that change was a deletion, and else keeps the old record |
| Outbox.IndexedThenReproposed | backend/app/memory/service.py:190-211 | such a run: proposing an indexed memory anew leaves its old record in the index |
| Outbox.TurnsConserve | backend/app/memory/sync_service.py:41-97 | a call removes exactly the successes of its selected prefix; failures go to the back in order |
| Outbox.EveryEntryIsAttempted | backend/app/memory/sync_service.py:41-97 | with no new events, k calls attempt exactly the first k times limit queued entries |
| OutboxRaces.UninterruptedCall | backend/app/memory/sync_service.py:26-97 | a processing call with no step of others between its read and its write is the one step of the memory model |
| OutboxRaces.LastAttemptDecides | backend/app/memory/sync_service.py:41-86 | with events and calls of all workspaces interleaved, a slot agrees with its memory's latest event exactly as its last attempt decides: it must have worked an entry asking for the same and read the latest record, or a failure must have left what is asked for |
| OutboxRaces.NeverAttempted | backend/app/memory/sync_service.py:41-86 | before any attempt a slot agrees exactly if a deletion is asked for |
| OutboxRaces.CarefulMemoryAgrees | backend/app/memory/service.py:693-737 | a memory whose events all happen in one workspace, none during a call of it, agrees wherever nothing is pending, whatever else goes on |
| OutboxRaces.DeletionIsLost | backend/app/memory/sync_service.py:75-86 | a run in which a deletion queued during a call is dropped and the record stays indexed |
| OutboxRaces.DeletionIsUndone | backend/app/memory/service.py:629-690 | a run in which an entry pending in another workspace indexes a deleted record |
| MemoryService.MemoryService.UpdateSyncState | backend/app/memory/service.py:693-737 | the queue after an event |
| MemoryOutcomes.UpsertOutcome | backend/app/memory/service.py:85-188 | the record an upsert writes, or its refusal of a memory once disabled, deleted or rejected or of a sensitive profile or preference, and what it queues |
| MemoryOutcomes.ProposeOutcome | backend/app/memory/service.py:190-211 | a proposal writes that record pending and not enabled |
| MemoryOutcomes.FindIsFound | backend/app/memory/service.py:271-275 | the later of the listed records, the global one of two as late |
| MemoryOutcomes.PatchOutcome | backend/app/memory/service.py:277-366 | the fields a patch names change, others stay, and a status decides whether the memory is enabled |
| MemoryOutcomes.ReviewOutcome | backend/app/memory/service.py:368-398 | approval makes a pending project fact or rule active, enabled unless sensitive; rejection makes it rejected; anything else is refused |
| MemoryOutcomes.ReviewQueues | backend/app/memory/service.py:368-398 | after the approval of a candidate that is not sensitive both slots wait for an upsert, after any other review both for a deletion |
| MemoryOutcomes.DeleteOutcome | backend/app/memory/service.py:400-422 | a deletion leaves the record as it was but deleted and not enabled |
| MemoryService.MemoryService.UpsertMemory | backend/app/memory/service.py:85-188 | the record written, or the refusal, and the state left |
| MemoryService.MemoryService.ProposeMemory | backend/app/memory/service.py:190-211 | the candidate written and the state left |
| MemoryService.MemoryService.GetMemory | backend/app/memory/service.py:271-275 | the most recently updated record the indexes list for an id |
| MemoryService.MemoryService.PatchMemory | backend/app/memory/service.py:277-366 | the patched record and the state left, with a move between scopes |
| MemoryService.MemoryService.ReviewMemory | backend/app/memory/service.py:368-398 | approval and rejection of a pending candidate: the record it becomes, the refusals, and what its slots then wait for |
| MemoryService.MemoryService.DeleteMemory | backend/app/memory/service.py:400-422 | deletion of a memory |
| MemoryService.MemoryService.ProcessOne | backend/app/memory/sync_service.py:99-148 | what one attempt does to its slot |
| MemoryService.MemoryService.ProcessPending | backend/app/memory/sync_service.py:26-97 | the state after working the selected prefix, and the counts |
| RunProtocol.StepKeepsInv | backend/app/conversation/service.py:336-594 | every step of the run machine keeps its invariant |
| RunProtocol.WritesAreFenced | backend/app/conversation/service.py:485-594 | in every run each message or status of an execution is one record, written while the run is running under that execution's own lease, unless it is the failure path's |
| RunProtocol.FailureIsFencedIff | backend/app/conversation/service.py:596-652 | the failure path's write follows a check that found the lease held, and is made under it exactly when no step between was a cancel's or a recovery's write, another execution's failure, or a lease write that took effect |
| RunProtocol.CommitTakesEffectIff | backend/app/conversation/service.py:1872-1885 | a commit takes effect exactly when the run has not ended and its owner is this instance and token, whatever the clock says |
| RunRevival.ExpiredLeaseCommits | backend/app/conversation/service.py:1872-1885 | a reachable state where an execution with an expired lease commits message and status |
| RunProtocol.OneCommitPerLease | backend/app/conversation/service.py:485-594 | each lease writes at most one message and, after it, at most one status |
| RunProtocol.EndIsFinal | backend/app/conversation/service.py:596-652 | a completed, failed, cancelled or recovered run keeps status, owner and message exactly as long as no late write overwrites it |
| RunProtocol.EndedStaysEnded | backend/app/conversation/service.py:1837-1870 | and stays ended exactly as long as no lease write finds the revision it read given back |
| RunProtocol.EndedKeepsPlans | backend/app/conversation/service.py:896-1074 | while it stays ended no plan of it changes or is executed |
| RunRevival.CancelledRunIsOverwritten | backend/app/conversation/service.py:621-633 | a reachable state where a superseded execution fails a cancelled run |
| RunRevival.CancelledRunIsRevived | backend/app/conversation/service.py:754-783 | a reachable state where a lease write revives a cancelled run |
| RunProtocol.SupersededNeverWrites | backend/app/conversation/service.py:1872-1885 | once its lease is cleared or taken over, an execution writes exactly if it makes the failure path's write |
| RunProtocol.LosingTheLeaseSupersedes | backend/app/conversation/service.py:1837-1870 | whatever clears or replaces a run's owner supersedes the lease it had |
| RunProtocol.ExecutedAtMostOnce | backend/app/conversation/service.py:1347-1464 | in every run each plan is executed at most once, only once approved, and is marked executed only if it was |
| RunProtocol.ExecutionNeedsApproval | backend/app/conversation/service.py:896-960 | a plan changes only by a decision made while the run waits for approval and the plan for its first decision; only an approval of a ready plan executes it |
| RunProtocol.PlansMoveForward | backend/app/conversation/service.py:896-1074 | plan status only moves forward and a decision is never revised |
| RunProtocol.OutcomeIsRecorded | backend/app/conversation/service.py:1347-1464 | in every run a plan counts as executed only if its approved execution went well, and as failed only if it did not |
| RunProtocol.FinalIsRecorded | backend/app/conversation/service.py:551-594 | and a final record says completed or failed as the runtime ended |
| RunProtocol.ApprovalStoppedEarly | backend/app/conversation/service.py:1076-1163 | an approval that stops early leaves the run waiting and its plan approved or executing for good, executed once exactly if it got that far |
| RunRevival.EndedForGoodIff | backend/app/conversation/service.py:1858-1867 | a reachable ended run stays ended whatever follows exactly if no lease write in flight read a revision not below the run's, or above one a cancel in flight will give back |
| RunRevival.EndedExecutesIff | backend/app/conversation/service.py:1837-1870 | and some plan of it can still be executed exactly if there is such a lease write |
| RunRevival.RejectionEndsExecution | backend/app/conversation/service.py:997-1036 | a completed rejection cancels the run, and no plan of the run is executed whatever follows exactly if no such lease write was in flight at the rejection |
| RunRevival.RejectedRunExecutes | backend/app/conversation/service.py:754-783 | a reachable state in which a completed rejection is followed by the execution of another plan |
| RunRevival.RejectionStopsEarlyInRun | backend/app/conversation/service.py:963-1005 | a reachable state in which a rejection stops early and another plan is then executed |
| RunProtocol.RejectionStoppedEarly | backend/app/conversation/service.py:963-1005 | a rejection that stops before cancelling leaves the run waiting, and approving another plan executes it exactly if that awaits its first decision, is ready and is a tool or a patch |
| RunService.RunService.TryAcquireRunLease | backend/app/conversation/service.py:1837-1870 | takes the lease exactly on a running run without a live owner |
| RunService.RunService.RunLeaseIsActive | backend/app/conversation/service.py:1872-1885 | the lease check, blind to expiry |
| RunService.RunService.CommitResult | backend/app/conversation/service.py:485-594 | under a held lease the message and then the final status, completed or failed as the runtime returned, and else nothing |
| RunService.RunService.CommitWaitingApproval | backend/app/conversation/service.py:485-530 | under a held lease the run waits for approval, unowned |
| RunService.RunService.FailRunAfterRuntimeException | backend/app/conversation/service.py:596-652 | alone: under a held lease two events and a failed run |
| RunService.RunService.CancelRun | backend/app/conversation/service.py:754-783 | alone: cancels an unfinished run, giving back the revision read before its events |
| RunService.RunService.RecoverStaleRun | backend/app/conversation/service.py:1622-1706 | alone: fails a running run without a live owner that has gone stale |
| RunService.RunService.ResolveRunApproval | backend/app/conversation/service.py:896-1074 | a repeat, a refusal with its reason, or the effect: an approved tool or patch ends executed or failed as it went and the run goes on, an approved other plan stays approved, a rejected one cancels the run |
| RunService.RunService.ExecuteApproved | backend/app/conversation/service.py:1076-1163 | marks the plan executing, executes it once, records the outcome and lets the run go on |
| Chunker.BuildText | backend/app/rag_pipeline/chunker.py:87-101 | a chunk's text is its stripped blocks joined by newlines; the final strip removes nothing |
| Chunker.JoinSpells | backend/app/rag_pipeline/chunker.py:87-101 | texts of blocks side by side are joined by one newline |
| Chunker.StripTrims | backend/app/rag_pipeline/chunker.py:87-101 | stripping takes blanks off both ends, leaves nothing of blank text, and stops at printed characters |
| Chunker.KeptConcat | backend/app/rag_pipeline/chunker.py:28-36 | a block is kept, in its place, exactly if it has text left |
| Chunker.OverlapTail | backend/app/rag_pipeline/chunker.py:72-84 | the longest run of last blocks within the budget, or the last block alone, or nothing without overlap |
| Chunker.ChunkDocument | backend/app/rag_pipeline/chunker.py:14-69 | refuses bad sizes; otherwise chunks are tails plus fresh blocks that concatenate to the kept blocks, each filled until the next block does not fit |
| Chunker.ChunkIsWindow | backend/app/rag_pipeline/chunker.py:28-69 | each chunk is a contiguous window of the kept blocks |
| Chunker.WindowsCover | backend/app/rag_pipeline/chunker.py:28-69 | ends strictly grow, starts never go back, no block is missed, and the windows run from the first block to the last |
| Chunker.ManyFreshBlocksFit | backend/app/rag_pipeline/chunker.py:37-54 | a chunk with two or more fresh blocks is shorter than the chunk size |
| Chunker.OverlapIsBounded | backend/app/rag_pipeline/chunker.py:72-84 | what a chunk repeats is within the overlap budget or a single block |
| ToolStream.CompleteBuffered | backend/app/model_connector/providers.py:704-728 | completes the buffered, uncompleted targets in order, once each |
| ToolStream.CompleteAll | backend/app/model_connector/providers.py:711-728 | all buffered calls not yet completed, in ascending index order |
| OpenAIStream.StreamOpenAI | backend/app/model_connector/providers.py:230-363 | the events are those the frames' history gives, and reassemble its calls; a normally ended stream closes once at the end, any other fails unclosed |
| OpenAIStream.TranscriptReassembles | backend/app/model_connector/providers.py:252-363 | those events start each call once, exactly when its id or name is known, spell its fragments, and complete it once, as it stood at the first finishing frame at or after its first fragment, else at the end |
| OpenAIStream.CompletedAfter | backend/app/model_connector/providers.py:330-343 | that frame is the first finishing one by which the index has had a fragment, or there is none |
| OpenAIStream.TakeFragment | backend/app/model_connector/providers.py:293-329 | one fragment's events and buffer, from the fragments before it |
| OpenAIStream.TakeFinish | backend/app/model_connector/providers.py:330-343 | a finish reason completes, in order, the calls begun and not yet completed |
| StreamTelling.NormalEnds | backend/app/model_connector/providers.py:230-363 | a stream ends normally with a done frame before any broken one, or without either once some frame has finished |
| StreamTelling.OpenAISays | backend/app/model_connector/providers.py:252-363 | the text, usage and finish reasons of the frames, in order, and nothing else besides the calls |
| StreamTelling.OpenAISpeaks | backend/app/model_connector/providers.py:293-329 | each start shows the id and name its call was first known by, each delta one fragment's arguments under the id and name known by then |
| StreamTelling.OpenAICompletes | backend/app/model_connector/providers.py:704-728 | each completed call shows the last id and name given by its completion |
| AnthropicStream.StreamAnthropic | backend/app/model_connector/providers.py:465-610 | the events are those the messages' history gives, and reassemble its calls; a stopped stream closes once at the end, any other fails unclosed |
| AnthropicStream.BlocksReassemble | backend/app/model_connector/providers.py:509-610 | those events carry each block's id and name, spell its partial arguments since its last start, and complete each index once, as it stood at its first stop once opened, else at the end |
| AnthropicStream.StoppedAfter | backend/app/model_connector/providers.py:561-568 | that stop is the first of the index after it was opened, or there is none |
| AnthropicStream.TakeMessage | backend/app/model_connector/providers.py:509-590 | one message's events, and the buffers and completed indexes as the history gives them |
| StreamTelling.AnthropicSays | backend/app/model_connector/providers.py:509-590 | the text, usage and stop reasons of the messages, in order |
| StreamTelling.AnthropicSpeaks | backend/app/model_connector/providers.py:509-560 | each start is a tool block's, each delta a block's partial input under its last start's id and name |
| GraphIndex.MergeSectionExact | backend/app/graph_pipeline/builder.py:301-316 | a merged section is the newest built item of each id plus the retained items of all other ids, sorted by id |
| GraphIndex.BuildKeepsIntegrity | backend/app/graph_pipeline/builder.py:278-319 | building a document keeps ids unique and every reference resolving |
| GraphIndex.EverySequenceKeepsIntegrity | backend/app/graph_pipeline/builder.py:278-319 | so does every sequence of builds |
| GraphIndex.BuildReplacesItsOwn | backend/app/graph_pipeline/builder.py:301-316 | of the built document the index then holds exactly the build's mentions, facts and evidence |
| GraphIndex.BuildLeavesOthers | backend/app/graph_pipeline/builder.py:308-312 | other documents' mentions, facts and evidence stay exactly as they are |
| GraphIndex.EntitiesAccumulate | backend/app/graph_pipeline/builder.py:308-316 | no entity is lost: each keeps its record or takes the build's |
| GraphIndex.BuildIsIdempotent | backend/app/graph_pipeline/builder.py:278-319 | building again with the same records changes only the revision |
| GraphIndex.GraphBuilder.MergeGraphIndex | backend/app/graph_pipeline/builder.py:278-319 | the merge, section by section |
| GraphExtraction.ExtractByRules | backend/app/graph_pipeline/extraction.py:179-286 | one mention per name and chunk, one fact with its evidence per chunk with two names, entities exactly for the names and with exactly their chunks; all references resolve |
| GraphTelling.RuleFacts | backend/app/graph_pipeline/extraction.py:179-286 | the rules' facts join the first name of a chunk to its second |
| GraphTelling.RuleEvidence | backend/app/graph_pipeline/extraction.py:179-286 | and their evidence rests on that chunk |
| GraphTelling.RuleMentions | backend/app/graph_pipeline/extraction.py:179-286 | each name of a chunk is mentioned there, in its position |
| GraphPayload.ResolveChunks | backend/app/graph_pipeline/extraction.py:706-731 | only known chunks, and none exactly when none is known |
| GraphTelling.ChunksResolved | backend/app/graph_pipeline/extraction.py:706-731 | the known ones of the listed chunks, else the first five in which the name appears, else the first of all |
| GraphTelling.ClaimsGiven | backend/app/graph_pipeline/extraction.py:323-411 | the claims of a payload are those of the relations that name both ends, subject and object as given |
| GraphTelling.AllNotesGiven | backend/app/graph_pipeline/extraction.py:289-421 | the notes of all batches are those of their named entities and of both ends of their relations |
| GraphTelling.FactsAreGiven | backend/app/graph_pipeline/extraction.py:323-411 | the facts told are exactly those claims', field by field |
| GraphTelling.EvidenceIsGiven | backend/app/graph_pipeline/extraction.py:323-411 | and so is the evidence |
| GraphTelling.MentionsAreGiven | backend/app/graph_pipeline/extraction.py:644-703 | and the mentions are the notes' in each of their chunks |
| GraphPayload.UpsertLlmEntity | backend/app/graph_pipeline/extraction.py:644-703 | one more note told: its name's chunks and aliases accumulate, its largest confidence wins, and a mention in each of its chunks; everything else kept |
| GraphPayload.AddRelation | backend/app/graph_pipeline/extraction.py:323-411 | one more claim told: its two entities noted, its fact, and one evidence for each of its chunks |
| GraphPayload.RecordsFromPayload | backend/app/graph_pipeline/extraction.py:289-421 | entities, chunks, aliases, confidences, mentions, facts and evidence are exactly those the payload's named entities and complete relations give |
| GraphPayload.TellingRecordsAreABuild | backend/app/graph_pipeline/extraction.py:289-421 | and such records refer only to each other |
| GraphPayload.MergeEntities | backend/app/graph_pipeline/extraction.py:513-528 | one entity for each id of either side, with all chunks and aliases found under it and the largest confidence |
| GraphPayload.MergeLlmRecords | backend/app/graph_pipeline/extraction.py:500-547 | entities gathered by id, elsewhere the last item of each id, the right side's first; all references resolve |
| GraphPayload.MergedIdsTell | backend/app/graph_pipeline/extraction.py:513-528 | after a merge the entities tell of both sides' notes, by id |
| GraphPayload.ExtractByModel | backend/app/graph_pipeline/extraction.py:500-547 | the records of all batches hold exactly what all their payloads say; none exactly if some answer is unusable |
| GraphPayload.ExtractRecords | backend/app/graph_pipeline/builder.py:194-268 | what all answers of the model say if one is configured and all are usable, and what the rules give otherwise; a sound build either way |
| CypherStrip.LexIsLossless | backend/app/graph_pipeline/neo4j_readonly.py:526-552 | every string, unclosed ones included, has a well-formed parse that loses nothing |
| CypherStrip.UniqueParse | backend/app/graph_pipeline/neo4j_readonly.py:526-568 | and exactly one |
| CypherStrip.StripCommentsAndLiterals | backend/app/graph_pipeline/neo4j_readonly.py:526-552 | the scanner computes the parse with comments and literals erased |
| CypherStrip.EraseSpells | backend/app/graph_pipeline/neo4j_readonly.py:526-552 | a plain character stays, and each comment or literal leaves one space |
| CypherStrip.SkipQuoted | backend/app/graph_pipeline/neo4j_readonly.py:555-568 | quoted text ends where the grammar says |
| CypherStrip.StrippedIsClean | backend/app/graph_pipeline/neo4j_readonly.py:526-552 | what is left has no quote and no comment start, and stripping again changes nothing |

## Left out

- Routing, response models, authentication, HTTP clients, threads and the worker daemon: I/O around the modelled operations.
- Titles, progress, artifacts, error texts, trace ids, redaction and public views: carried by no property here.
- `rebuild_jobs_index`: it would index the manifest a losing create leaves behind, which the interleaved model excludes.
- Retry chains: reusing the original's idempotency key can link a job to itself, so nothing is claimed about chains.
- JobService.JobService.CreateJob: in the gap of each attempt at most one other create may come; arbitrary steps there are in `JobProtocol`.
- Segmented storage of job logs inside `JobService`: its logs are flat; `EventIndex` covers segments and `AppendFlattens` their appends.
- JobWorker.JobWorker.ProcessNext: a handler is a result and a duration; handlers that renew their lease or create jobs are not modelled.
- Two calls of `process_pending` at once in one workspace, and workspace memories in `OutboxRaces`: those stay in the queue of their workspace, as in `Outbox`.
- MemoryService.MemoryService.UpsertMemory: whether a request matches a disabled pattern is an input; pattern bookkeeping, sensitivity terms and snapshots are not modelled.
- MemoryService.MemoryService.ProposeMemory: the same.
- The embedding call, collection setup and configuration errors of the external indexes: an attempt succeeds or fails, and a failure may leave its own slot in any state.
- RunService.RunService.TryAcquireRunLease: one attempt; the second, after a lost write, is another read and write of the machine.
- RunService.RunService.ResolveRunApproval: the decision's text is left out, and a staged patch's event count is that of a tool invocation.
- Rollback of staged patches, skill manifests and subagent state.
- Chunk metadata (section path, pages, block type, token counts and hashed ids) in `Chunker`: only blocks, order and text are modelled.
- Server-sent event framing, JSON decoding and argument parsing in the streams: frames arrive decoded and arguments stay text.
- Entity recognition by patterns, confidence parsing, evidence text and decisions in `GraphExtraction` and `GraphPayload`: names and predicates arrive recognised, and whether a name appears in a chunk and which chunks a model call covers are inputs.
- The Neo4j write of a build and its batch manifest.
- The clause and parameter patterns applied to a stripped Cypher query.
