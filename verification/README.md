# VerdictCouncil: verified models of the job protocol and its neighbours

This project models the parts of VerdictCouncil where correctness depends on interleavings, on
repeated passes or on what was forgotten, and proves what they keep. `dafny verify dfyconfig.toml`
checks everything.

| file | what it models |
|---|---|
| `PipelineJobs.dfy` | the `pipeline_jobs` table and the arq queue as classes, with the outbox, dispatcher and worker routines as methods |
| `OutboxProtocol.dfy`, `OutboxSafety.dfy` | the same routines as interleaved steps of any number of API transactions, dispatchers, recovery ticks and workers; what every run keeps |
| `OutboxProgress.dfy`, `OutboxLiveness.dfy` | why no row is stranded: each can be completed from every state, and ends in every fair behaviour |
| `OutboxHistory.dfy` | what the columns of a row tell of the run behind it |
| `OutboxFinality.dfy`, `OutboxScenarios.dfy` | when a failed row is final; runs that show what goes wrong otherwise |
| `Patterns.dfy`, `Regex.dfy`, `Rewriting.dfy`, `Sanitization.dfy` | the prompt-injection patterns, the regular expressions they stand for, one substitution pass, the six passes and the detector |
| `Substitution.dfy` | the same sanitizer told by the spans it cuts and the text it keeps |
| `GateGraph.dfy` | the six-phase graph with four human gates: its construction, and its execution in supersteps |
| `GateReplies.dfy` | what each reply of the judge leads to, told by its text |
| `RateLimit.dfy` | the sliding-window limiter, against a limiter that never forgets |
| `CircuitBreaker.dfy` | the Redis circuit breaker: one call at a time, and with its three-step recovery check interleaved |
| `SseRelay.dfy`, `SseLiveness.dfy` | the relay from a Redis channel through a queue to a server-sent-event stream: what every interleaving keeps; that every fair behaviour closes the stream |
| `CaseStart.dfy` | concurrent process and restart requests with row locks |
| `PipelineState.dfy` | the checkpoint store with its retry loop |
| `PersistResults.dfy`, `OverlappingSaves.dfy` | writing results back to seven child tables, the audit log and the case row: one save after another, and saves whose transactions overlap |
| `SavedRows.dfy` | which items of a state get a row and what becomes of the case row, told by the names of the fields |
| `Migration.dfy` | the checkpoint migration planner and its resumable run |
| `TracePropagation.dfy`, `Text.dfy` | the W3C traceparent codec, and the stripping it uses |
| `Sequences.dfy`, `Wrappers.dfy` | shared definitions |

## How to read the outbox model

A step is one atomic event: the start of an API transaction, its commit with the rows it inserts, a claim (`FOR UPDATE SKIP LOCKED`), one enqueue
call, a commit, a rollback, one action of a task run. Per job id the state holds the row, the lock,
the arq entry with its run, and counters that only record what happened. The environment is assumed
to do this much and no more:

- arq keeps at most one live entry, and one live run, per `_job_id`; no result is kept
  (`src/workers/worker_settings.py:48`), so a finished id can be enqueued again;
- a row lock lasts as long as its transaction; `NOW()` is the time the transaction started, so a row
  can appear with a `created_at` older than that of rows already waiting
  (`src/models/pipeline_job.py:69-71`);
- a run can be cut short at any step by a crash, by the job timeout (a `CancelledError`, which
  `except Exception` does not catch), or by a database error inside `_complete` or `_fail`; arq may
  then redeliver the entry or drop it, and may drop a queued entry at any time.

`RunnerStartsBounded` counts such cuts, from the runner's start to the removal of the entry, and
nothing else. `BoundNeedsLocks` shows that arq's rule alone does not give the bound: it is a run of the
same protocol without the wait for the row lock. A recovery tick takes the locks of the rows it flips
when it starts; it may leave out rows that are locked, where the database would wait for them.

`EveryRowEnds` is about infinite behaviours in which faults cease at some point, and assumes of the
participants only that the clock advances; that who opened a transaction (API requests included) goes on with it, to a commit or a rollback; that some
dispatcher claims while rows stay claimable; that a recovery tick takes a row that stays stale and
unlocked; and that a task run which can act again and again acts again. It says that then every row is
completed or failed, whatever faults had done to it before.

## What the code does that its documentation does not say

- **Research fan-out.** The docstring of `src/pipeline/graph/builder.py` promises four branches.
  `src/pipeline/graph/research.py:76-83` sends only the scopes named in `extra_instructions`, which a
  rerun at any gate replaces as a whole. `JoinAfterItsBranches` gives the exact condition for all
  four; `JoinAfterOneBranch` is a run that joins after one.
- **Circuit breaker.** The write of `half_open` in `check_recovery` does not look at the state again.
  If a success or failure falls between the decision and that write, a closed breaker becomes
  half-open, or one that just re-opened skips its timeout. After any run, `UpdateSafeIff` says exactly
  when an update is safe and `ExplainedIff` exactly which keys a log of single calls can explain (a later
  success makes them explicable again); `StaleWriteReopens` is a run in which the breaker opens on a
  single failure while `record_failure` then answers `closed`.
- **Event streams.** A JSON value that is not an object, or a list or object in the tested field, makes
  the terminal test raise, which silently ends the stream. `ExactlyOnceToTerminalIff` is the exact
  condition; `ArrayHidesPause` an example. The publishers in `src/services/pipeline_events.py` and
  `src/services/intake_events.py` send objects only, so such a value has to come from another writer on
  the channel.
- **Traceparent.** All-zero identifiers, which W3C Trace Context forbids, are accepted, and any version
  is rewritten as 00. `ParseThenFormatIff` is the exact condition for an unchanged header.
- **Checkpoints.** A raised `IntegrityError` does not mean the state was not stored
  (`RaisedYetStored`), and a result save can commit without its checkpoint (`WhatIfLoads`).
- **Overlapping saves.** `src/db/persist_case_results.py:65-66` promises that child rows are replaced,
  not appended. Two saves of one case whose transactions overlap leave the rows of both
  (`OverlapDoubles`); `ReplacedIff` and `ReplacedIffNoOverlap` are the exact conditions. The database is
  taken to run at READ COMMITTED, PostgreSQL's default, which `src/services/database.py` does not change.
- **Audit log.** The comment in `src/db/persist_case_results.py:111-118` speaks of per-run
  deduplication; `_insert_audit_log` appends the whole log at every save (`AuditIsAllLogs`).
- **`failed` is not always final.** A failed row stays failed exactly when it has no arq entry left
  (`FailedFinalIff`). A worker lost between committing `failed` and the removal of the entry is
  redelivered, and the row can then complete: `FailedThenCompleted` is such a run. `completed` is final.
- **Rate limiter.** The limiter raises `IndexError` exactly when its limit is zero or less, and then at
  every request (`RaisesIff`).

## Assumptions elsewhere

- Clocks are reals. The limiter serves requests in clock order (no await stands between reading the
  clock and releasing the lock); the interleaved breaker's processes share one clock.
- The Unicode tables behind `\b` and case folding are a parameter of the sanitizer: every table that
  agrees with ASCII and folds no other character onto ASCII punctuation.
- A channel is the sequence of entries a subscriber receives; what was published before it subscribed
  is not part of it.
- The reader's `CaseState.model_validate` gives back what the writer serialised.
- UUID texts are ordered as their 128-bit values are.

## Model

| member | source | states |
|---|---|---|
| `PipelineJobs.Arq.EnqueueJob` | src/workers/dispatcher.py:68-71 | an enqueue adds an entry only when the id has none, and may have done so even when the call raises |
| `PipelineJobs.JobTable.EnqueueOutboxJob` | src/workers/outbox.py:24-63 | one row is added: pending, never attempted or dispatched, holding the request and, unless one is given, the header of the writer's span; every other row stays |
| `PipelineJobs.JobTable.ClaimPendingJobs` | src/workers/outbox.py:69-90 | the claim is the oldest unlocked pending rows up to the batch size, in order, without repeats; exactly those become locked, by the transaction |
| `PipelineJobs.JobTable.MarkDispatchedJobs` | src/workers/outbox.py:93-110 | exactly the pending rows of the batch become dispatched, with the time; their other columns and all other rows stay |
| `PipelineJobs.JobTable.RecoverStuckJobs` | src/workers/outbox.py:154-172 | exactly the rows dispatched more than 1200 seconds before go back to pending and lose the time; their other columns and all other rows stay |
| `PipelineJobs.JobTable.EnqueueBatch` | src/workers/dispatcher.py:63-80 | the enqueue loop stops at the first call that raises; the entries are those of the calls Redis took |
| `PipelineJobs.JobTable.DispatchBatch` | src/workers/dispatcher.py:53-84 | a batch of at most ten; all or nothing on the table: dispatched whole on success, unchanged on failure although entries may remain in arq; success exactly when every enqueue succeeds; locks released |
| `PipelineJobs.JobTable.RunWithOutbox` | src/workers/tasks.py:57-103 | which of the five outcomes occurs, that only a finished runner changes the row, to completed or failed with the columns of that outcome, and that the runner is given the trace id of the stored header |
| `PipelineJobs.TasksMatchTypes` | src/workers/tasks.py:447-454 | a row is sent to the task of its own type, and no two types share a task |
| `PipelineJobs.BatchEntries` | src/workers/dispatcher.py:65-72 | enqueueing a batch adds exactly the missing entries, each for its row's own type, and keeps the others |
| `PipelineJobs.RetryAfterPartialBatch` | src/workers/dispatcher.py:68-80 | enqueueing a batch again after it failed part-way gives the queue of one clean pass |
| `PipelineJobs.TraceReachesRunner` | src/workers/outbox.py:44-60 | the trace of the valid span that wrote a job is the one its runner is given, and the worker's parent span is that span |
| `OutboxSafety.StepKeepsInv` | src/workers/dispatcher.py:53-84 | every step of every participant keeps the protocol invariant: lock ownership, entry types, start accounting, dispatch periods |
| `OutboxSafety.HeldByOne` | src/workers/outbox.py:66-78 | no row is held by two transactions |
| `OutboxSafety.RunnerStartsBounded` | src/workers/tasks.py:57-103 | in every interleaving a row's runner starts at most once more often than its started runs are cut short |
| `OutboxSafety.AttemptsBounded` | src/workers/outbox.py:126-147 | the failure count of a row never exceeds its runner starts |
| `OutboxScenarios.HeldWhileRunning` | src/workers/dispatcher.py:73-80 | a run after which a dispatcher holds a pending row whose runner is running |
| `OutboxScenarios.BoundNeedsLocks` | src/workers/dispatcher.py:56-58 | a run of the protocol without the wait for the row lock in which a runner starts twice and no run is cut |
| `OutboxSafety.CompletedAbsorbing` | src/workers/tasks.py:67-68 | rows never disappear, what was asked for never changes, completed stays completed, failed never becomes pending again |
| `OutboxHistory.RecoveredAfterThreshold` | src/workers/outbox.py:154-160 | on every run, a recovery that takes a row back to pending started more than 1200 seconds after the transaction that last committed it to dispatched |
| `OutboxHistory.LastDispatch` | src/workers/outbox.py:93-99 | a dispatched row bears the time of the transaction that last dispatched it |
| `OutboxHistory.AttemptsAreFailures` | src/workers/outbox.py:126-135 | in every state of every run a row's attempts are its committed failures |
| `OutboxHistory.LastEnd` | src/workers/outbox.py:113-147 | a completed or failed row tells when and how its last run ended, and of a failure the first thousand characters of the message |
| `OutboxHistory.NotEnded` | src/workers/outbox.py:154-160 | a pending or dispatched row bears no trace of an end, a pending one none of a dispatch |
| `OutboxHistory.ClaimTakesOldest` | src/workers/outbox.py:69-78 | on every run a claim is at most ten different pending unlocked rows, oldest first; others are no older, and left only by a full batch |
| `OutboxHistory.EntryGoneIff` | src/workers/worker_settings.py:48 | a row is without entry after a step exactly when the step ended its entry, or it had none and is not enqueued |
| `OutboxFinality.FailedFinalIff` | src/workers/tasks.py:57-103 | in every state of every run a failed row stays failed, whatever follows, exactly when it has no arq entry |
| `OutboxFinality.EntryRevives` | src/workers/tasks.py:67-68 | a failed row with an entry can be run again and completed |
| `OutboxScenarios.FailedThenCompleted` | src/workers/tasks.py:99-103 | a run in which a row fails and, its worker lost before the entry is removed, completes: two starts, one cut |
| `OutboxSafety.StepRefinesSequential` | src/workers/dispatcher.py:53-84 | every step of the concurrent system is, on the committed table, one atomic act of a single dispatcher, recovery loop or worker |
| `OutboxSafety.CommittedBatchIsOldestClaim` | src/workers/dispatcher.py:59-84 | a batch that commits is the oldest unlocked pending rows at its claim, and none of its rows changed in between |
| `OutboxSafety.OneDispatchPerPendingPeriod` | src/workers/outbox.py:93-110 | each pending period of a row has at most one commit to dispatched |
| `OutboxProgress.RunToEnd` | src/workers/tasks.py:57-103 | a row with an entry, and no lock on it, can be run to completed |
| `OutboxProgress.DispatchRow` | src/workers/dispatcher.py:59-84 | repeated claims, oldest first, reach every waiting row and leave it dispatched with an entry; the set of waiting rows shrinks each time |
| `OutboxProgress.AwaitRecovery` | src/workers/outbox.py:154-172 | a dispatched row without an entry can be brought back to pending by waiting and a recovery tick |
| `OutboxProgress.NoRowStranded` | src/workers/dispatcher.py:115-132 | from every state that satisfies the invariant, each pending or dispatched row can still be completed by steps without any fault |
| `OutboxProgress.NoReachableRowStranded` | src/workers/dispatcher.py:115-132 | the same for every state of every run |
| `OutboxLiveness.TxCommits` | src/workers/dispatcher.py:53-84 | in every fair behaviour without further faults every open transaction commits, with the rows it held all along |
| `OutboxLiveness.EntryEnds` | src/workers/tasks.py:57-103 | there, a row with an entry ends, although its run may wait for row locks again and again |
| `OutboxLiveness.EveryRowEnds` | src/workers/dispatcher.py:87-132 | in every fair behaviour in which faults cease, every row is eventually completed or failed, whatever had become of it and its entry |
| `Regex.SpanMatchIsRegexMatch` | src/shared/sanitization.py:15-21 | the delimiter scan finds exactly the shortest word of the span expression's language |
| `Regex.TagMatchIsRegexMatch` | src/shared/sanitization.py:24-26 | the tag scan finds exactly what the tag expression matches |
| `Sanitization.SpanPatternsAreRegexes` | src/shared/sanitization.py:15-21 | the five span patterns are those expressions |
| `Sanitization.TagPatternIsRegex` | src/shared/sanitization.py:24-26 | the tag pattern is that expression |
| `Rewriting.SubRemovesOwn` | src/shared/sanitization.py:55 | after its own pass a pattern is not found, although text on both sides of a replacement came together |
| `Rewriting.SubKeepsAbsent` | src/shared/sanitization.py:54-63 | a pass for one pattern never creates a match of another that was absent |
| `Rewriting.SubChangesIffFound` | src/shared/sanitization.py:55-57 | a pass changes the text exactly when its pattern is found |
| `Sanitization.ApplyRegex` | src/shared/sanitization.py:50-64 | the two loops compute the six passes in order and count the changing ones |
| `Sanitization.PassesClean` | src/shared/sanitization.py:54-63 | after all passes no pattern that had a pass is found, whatever later passes did |
| `Sanitization.SanitizedIsUndetected` | src/shared/sanitization.py:37-64 | for every text, the detector finds nothing in the sanitized text |
| `Sanitization.HitsAgreeWithDetector` | src/shared/sanitization.py:37-79 | for every text, hits are positive, and the text changed, exactly when the detector fires; never more than six hits |
| `Sanitization.SanitizeIdempotent` | src/shared/sanitization.py:67-79 | a second run changes nothing and reports no hit |
| `Substitution.PassReplacesMatches` | src/shared/sanitization.py:54-63 | every pass cuts the text at the matches of its expression, in one possible way, keeps all text in between and puts its replacement for each cut |
| `Substitution.SanitizeIsSixSubstitutions` | src/shared/sanitization.py:50-79 | for every text, the sanitized text and the hits are those of the six substitutions in order, with the expressions and replacements written out |
| `Substitution.DetectsIff` | src/shared/sanitization.py:37-47 | the detector fires exactly when one of the six expressions matches somewhere |
| `Substitution.LitAtIs` | src/shared/sanitization.py:15-26 | a literal stands where the characters are the same, or fold alike when case is ignored |
| `GateGraph.BuildTopology` | src/pipeline/graph/builder.py:78-171 | the graph built has exactly the nodes, edges, fan-out and gate targets that the execution model follows |
| `GateGraph.EdgesAreSuccessors` | src/pipeline/graph/builder.py:142-169 | the declared plain edges give every node exactly the successor the run follows |
| `GateGraph.PhaseNeedsAdvances` | src/pipeline/graph/builder.py:5-26 | on every run a node of phase k runs only after advances at gates 1 to k-1, in that order, and no halt; the terminal node only after one halt |
| `GateGraph.RunOverIff` | src/pipeline/graph/builder.py:21-26 | the run is over exactly after advances at all four gates, or after a halt that reached the terminal node, and never both |
| `GateGraph.RerunStaysInPhase` | src/pipeline/graph/nodes/gates.py:204-217 | a rerun at gate g re-enters phase g, and until the next advance or halt only nodes of phase g run |
| `GateGraph.JoinsMatchDispatches` | src/pipeline/graph/builder.py:28-32 | every join comes after all branches its dispatch sent, each once, and joins match dispatches |
| `GateGraph.OneJoinPerDispatch` | src/pipeline/graph/builder.py:149-157 | on every run there is one join per dispatch, save the dispatch still out |
| `GateGraph.JoinAfterItsBranches` | src/pipeline/graph/research.py:76-83 | the branches before a join are those the instructions at its dispatch select; all four exactly when none or all of the scopes are named |
| `GateGraph.JoinAfterOneBranch` | src/pipeline/graph/research.py:76-83 | a reachable run joins after a single branch |
| `GateReplies.HaltEnds` | src/pipeline/graph/nodes/gates.py:219-226 | on every run, after a reply whose text is "halt", bare or in a dictionary, only the terminal node runs, and the run is over |
| `GateReplies.RerunRepeats` | src/pipeline/graph/nodes/gates.py:204-217 | a reply whose text is "rerun" leads to the start of the gate's own phase |
| `GateReplies.OthersAdvance` | src/pipeline/graph/nodes/gates.py:229 | every other reply leads to the start of the next phase, and at gate 4 ends the run |
| `GateReplies.ReplyReachesGate` | src/pipeline/graph/nodes/gates.py:163-164 | the reply given at a pause is the one its gate decides on |
| `GateReplies.BranchesFollowInstructions` | src/pipeline/graph/research.py:76-83 | between a dispatch and its join exactly those branches run that the last rerun with notes or corrections names, or all four when it names none |
| `GateReplies.BranchOnce` | src/pipeline/graph/builder.py:28-32 | no branch runs twice after one dispatch |
| `RateLimit.RateLimitMiddleware.Trim` | src/api/middleware/rate_limit.py:66 | trimming keeps exactly the entries above the cutoff, in order |
| `RateLimit.RateLimitMiddleware.CleanupExpired` | src/api/middleware/rate_limit.py:41-53 | the sweep trims every list and deletes the clients left empty, and only when it is due |
| `RateLimit.CleanupMeans` | src/api/middleware/rate_limit.py:41-53 | a sweep is due every 300 seconds and keeps exactly the clients with an admission less than 60 seconds old, with those admissions |
| `RateLimit.RateLimitMiddleware.Dispatch` | src/api/middleware/rate_limit.py:55-81 | answer and new state of one request, for every limit; a switched-off limiter changes nothing |
| `RateLimit.PurgeInvisible` | src/api/middleware/rate_limit.py:41-78 | for every ordered request sequence each answer equals that of a limiter that keeps every admission forever |
| `RateLimit.WindowLimit` | src/api/middleware/rate_limit.py:55-78 | for every client and instant at most the limit is admitted in the sixty seconds up to it |
| `RateLimit.RejectedIff` | src/api/middleware/rate_limit.py:66-77 | with a limit of at least one, a request is rejected exactly when its client was admitted that often in the sixty seconds up to it, and else admitted |
| `RateLimit.RaisesIff` | src/api/middleware/rate_limit.py:68-71 | a request raises exactly when the limit is zero or less |
| `RateLimit.RetryAfter` | src/api/middleware/rate_limit.py:68-76 | the announced wait is the least whole number of seconds, 1 to 61, after which the client's limit-th last admission is more than sixty seconds old; without other requests of its own the client is next admitted exactly from the moment that is sixty seconds old |
| `CircuitBreaker.CircuitBreaker.GetState` | src/shared/circuit_breaker.py:86-98 | reading the state has no effect and is closed when Redis is away |
| `CircuitBreaker.CircuitBreaker.CheckRecovery` | src/shared/circuit_breaker.py:100-123 | an undisturbed check half-opens exactly an open breaker whose timeout has passed, and reports the state it leaves |
| `CircuitBreaker.CircuitBreaker.RecordSuccess` | src/shared/circuit_breaker.py:125-135 | a success closes, zeroes the count and forgets the opening time |
| `CircuitBreaker.CircuitBreaker.RecordFailure` | src/shared/circuit_breaker.py:16-33 | a failure counts, and opens a half-open breaker or one at the threshold, stamping the time |
| `CircuitBreaker.BreakerIsFold` | src/shared/circuit_breaker.py:16-33 | over any log of calls: closed exactly while fewer failures than the threshold followed the last success; else opened at the last failure, and half-open exactly when a check came at least the timeout later |
| `CircuitBreaker.ReplyIsState` | src/shared/circuit_breaker.py:137-161 | what record_failure answers is the state it leaves, over any log |
| `CircuitBreaker.StepsAreCheck` | src/shared/circuit_breaker.py:100-123 | the three steps of a check, uninterrupted, are the check |
| `CircuitBreaker.CheckSawOpen` | src/shared/circuit_breaker.py:104-116 | in every run a check in progress began on an open breaker, and one about to write has since read the opening time and found the timeout passed |
| `CircuitBreaker.OpenHasTime` | src/shared/circuit_breaker.py:100-149 | in every interleaving an open breaker has its opening time, and a closed one has none and is below the threshold |
| `CircuitBreaker.UndisturbedCheck` | src/shared/circuit_breaker.py:100-117 | from every reachable open state, a check finished after the timeout with no update meanwhile leaves the breaker half-open, whatever other checks did |
| `CircuitBreaker.NoOverlapRefines` | src/shared/circuit_breaker.py:100-149 | runs in which no update falls between a decision and its write have the keys of the one-call-at-a-time breaker |
| `CircuitBreaker.ExplainedIff` | src/shared/circuit_breaker.py:100-149 | after any interleaved run the keys are those of some log of single calls up to now exactly when a breaker that is not closed has its threshold of failures and a half-open one its timeout behind it |
| `CircuitBreaker.HalfOpenSince` | src/shared/circuit_breaker.py:111-116 | over any log, a half-open breaker was checked at least the timeout after it opened |
| `CircuitBreaker.OverlapEscapesIff` | src/shared/circuit_breaker.py:111-116 | after any run, an update that falls between a decision and its write leaves keys no such log explains, unless there is no timeout and the update is a failure that opens |
| `CircuitBreaker.UpdateSafeIff` | src/shared/circuit_breaker.py:100-149 | after any run and for every timeout: no pending write can follow an update with unexplained keys exactly when none is pending, or there is no timeout and the update is a failure that opens |
| `CircuitBreaker.StaleWriteReopens` | src/shared/circuit_breaker.py:111-116 | a run that opens the breaker on one failure after a success |
| `SseRelay.SentIsPrefix` | src/api/routes/cases.py:1394-1460 | in every interleaving the client has received a prefix of the channel's messages, none beyond the first that stops the producer |
| `SseRelay.DrainedSendsAll` | src/api/routes/cases.py:1394-1460 | a stream closed by neither client, watchdog nor lost connection sent exactly the messages up to and including the first that stops the producer |
| `SseRelay.ExactlyOnceToTerminalIff` | src/services/pipeline_events.py:97-118 | that is up to and including the first terminal event exactly when no message before makes the terminal test raise |
| `SseRelay.DrainedEndsAtEvent` | src/services/pipeline_events.py:97-118 | a drained stream ends at an interrupt, a governance or pipeline end or a done, error or confirmed event, written out, or at a message on which the test raises, and none of these comes before |
| `SseRelay.HeartbeatPerTimeout` | src/api/routes/cases.py:1404-1459 | an open stream has sent one heartbeat for each timeout of its wait, and a pipeline stream one warning for each that found the login about to expire |
| `SseRelay.FramesWellFormed` | src/api/routes/cases.py:1386-1459 | in every interleaving the snapshots come first, every payload frame is named by its message's kind or "progress", and a watchdog frame is the last of a stream the watchdog closed |
| `SseRelay.Drains` | src/api/routes/cases.py:1404-1460 | once the producer is done, the consumer sends the whole queue and closes |
| `SseRelay.StreamCompletes` | src/services/pipeline_events.py:340-359 | from every reachable open state with its connection intact, a stream whose channel has a stopping message can still close with everything sent |
| `SseLiveness.ProducerEnds` | src/services/pipeline_events.py:340-359 | in every fair behaviour whose channel has a stopping message the producer finishes, whatever else happens |
| `SseLiveness.EveryStreamEnds` | src/api/routes/cases.py:1394-1460 | in every such behaviour the stream closes; without faults with everything up to the first stop sent |
| `SseRelay.ArrayHidesPause` | src/services/pipeline_events.py:350-355 | an array on the channel closes the stream with the following gate pause unsent |
| `CaseStart.SerializesInCommitOrder` | src/api/routes/cases.py:1719-1737 | whatever interleaves or aborts, cases and job rows are what the committed requests give one at a time, each an atomic test-and-set; at most one transaction per case is past its flip |
| `CaseStart.StartsEqualRows` | src/api/routes/cases.py:1843-1870 | for every case and moment, successful flips by the two endpoints equal the case-pipeline rows they inserted |
| `CaseStart.OneStartPerStay` | src/api/routes/cases.py:1719-1737 | between two successful requests for one case another writer put it back into a status the second admits, and it still had it |
| `CaseStart.StartedFrom` | src/api/routes/cases.py:54 | on every run every committed start was made from one of the three statuses, named, that its endpoint admits |
| `CaseStart.FlipIff` | src/api/routes/cases.py:1719-1730 | a flip that gets the row lock goes through exactly when the committed status is one of those, and else changes nothing |
| `CaseStart.StatusIsLastChange` | src/api/routes/cases.py:1843-1848 | a case has the status its last committed change gave it: processing after a start |
| `CaseStart.StatusUntouched` | src/api/routes/cases.py:1843-1848 | without a committed change it has its first status |
| `PipelineState.CheckpointTable.PersistCaseState` | src/db/pipeline_state.py:92-164 | table, reply and number of attempts of the retry loop for every sequence of outcomes |
| `PipelineState.CheckpointTable.LoadCaseState` | src/db/pipeline_state.py:167-220 | which rows load and which error each other shape gives |
| `PipelineState.PersistOutcome` | src/db/pipeline_state.py:117-164 | at most three attempts, one more only after a transient error; other keys untouched; the key at its new row exactly when some attempt stored it; the reply is that of the last attempt |
| `PipelineState.RaisedYetStored` | src/db/pipeline_state.py:122-127 | an IntegrityError can be raised with the new state stored |
| `PipelineState.LoadReturnsLastEffective` | src/db/pipeline_state.py:207-213 | over any history a load finds the last write that took effect, and returns it exactly when its version is 2 or 3 |
| `PipelineState.LoadUnaffected` | src/db/pipeline_state.py:182-188 | a history without effective writes of a key leaves its load as it was |
| `PersistResults.Session.ClearChildRows` | src/db/persist_case_results.py:108-128 | the rows of the case leave all seven tables, others stay |
| `PersistResults.Session.InsertItems` | src/db/persist_case_results.py:188-210 | the insert loop adds the rows of the usable items in order, or raises exactly when reading some item does |
| `PersistResults.Session.InsertArguments` | src/db/persist_case_results.py:364-403 | the same over the argument groups, with side aliases |
| `PersistResults.Session.InsertAuditLog` | src/db/persist_case_results.py:430-451 | the whole log is appended |
| `PersistResults.Session.PersistCaseResults` | src/db/persist_case_results.py:57-100 | committed data, reply and checkpoint of one save under every fault; a save that raised changed nothing unless its commit took effect |
| `PersistResults.SaveReplaces` | src/db/persist_case_results.py:71-87 | a committed save leaves in each table exactly the state's projection for its case, leaves other cases alone, and appends the log |
| `PersistResults.RowsAreLastCommitted` | src/db/persist_case_results.py:65-66 | after any history a case's rows are the projection of its last committed state |
| `PersistResults.RowsUntouched` | src/db/persist_case_results.py:83-86 | without a committed save a case keeps its rows |
| `PersistResults.AuditIsAllLogs` | src/db/persist_case_results.py:430-451 | the audit log of a case is what it was followed by every committed save's log |
| `SavedRows.ItemReads` | src/db/persist_case_results.py:302-318 | an item with readable columns gives one row, named by its first field that is not falsy, stripped; none if that is blank or all are falsy |
| `SavedRows.SavedItems` | src/db/persist_case_results.py:188-351 | after a committed save each of five tables has for the case one row for every item that a field (or evidence type, with its aliases) names, in order, and no other |
| `SavedRows.SavedArguments` | src/db/persist_case_results.py:354-402 | likewise the arguments, each on the side its group key stands for; groups of no side are skipped |
| `SavedRows.SavedHearing` | src/db/persist_case_results.py:415-427 | and the one hearing analysis, if there is one |
| `SavedRows.SaveRaisesIff` | src/db/persist_case_results.py:70-87 | reading a state raises exactly when one of its items does, or a known case's complexity or route is a list or an object; an unknown case is passed over |
| `SavedRows.CaseRowIsLastSet` | src/db/persist_case_results.py:131-159 | after any history, status, run id, gate state and jurisdiction of the case row are those of the last committed save that sets them |
| `SavedRows.LevelsAreLastSet` | src/db/persist_case_results.py:148-156 | likewise complexity and route, which only their three values each set |
| `OverlappingSaves.RowsAreLeft` | src/db/persist_case_results.py:71-82 | in every interleaving of saves a table holds, in commit order, the whole projection of each committed save that no later one started to delete after its commit |
| `OverlappingSaves.ReplacedIff` | src/db/persist_case_results.py:65-66 | a table holds exactly the projection of the case's last committed save if and only if the earlier saves not overwritten had no rows for it |
| `OverlappingSaves.ReplacedIffNoOverlap` | src/db/persist_case_results.py:65-66 | where every save writes rows: if and only if the last save's delete of that table started after all others had committed |
| `OverlappingSaves.SerialReplaces` | src/db/persist_case_results.py:71-82 | saves whose deletes start after all earlier commits replace the rows, whatever they write |
| `OverlappingSaves.OverlapDoubles` | src/db/persist_case_results.py:71-82 | for any two readable states of a case a run of overlapping saves leaves the rows of both in every table |
| `OverlappingSaves.SaveAlone` | src/db/persist_case_results.py:71-82 | from every state of every run, a save during which no other commits leaves exactly its projection in every table |
| `PersistResults.WhatIfLoads` | src/db/persist_case_results.py:88-100 | after a committed save a what-if run loads that state exactly when the checkpoint write took effect, and else what was there before |
| `Migration.LatestRows` | scripts/migrate_in_flight_cases.py:83-88 | the dictionary pass finds each case's newest row, the first among ties |
| `Migration.PlanMigrations` | scripts/migrate_in_flight_cases.py:68-104 | exactly one entry per unmigrated case, from its newest row, in strictly ascending thread order |
| `Migration.PlanUnique` | scripts/migrate_in_flight_cases.py:68-104 | those conditions determine the plan |
| `Migration.ReplanIsSuffix` | scripts/migrate_in_flight_cases.py:78-81 | after any prefix was applied, planning again gives exactly the rest |
| `Migration.Migrate` | scripts/migrate_in_flight_cases.py:222-235 | one run, possibly dying, plans against the saver and writes a prefix of its plan |
| `Migration.RerunCompletes` | scripts/migrate_in_flight_cases.py:222-235 | a run that died followed by a complete one leaves the saver of one undisturbed run |
| `Migration.PlanCarries` | scripts/migrate_in_flight_cases.py:90-102 | every entry of a plan carries the columns of its case's newest row |
| `Migration.CompleteRunHolds` | scripts/migrate_in_flight_cases.py:222-235 | a complete run leaves for every case with rows and no thread a thread with the state of its newest row |
| `Migration.CompleteRunKeeps` | scripts/migrate_in_flight_cases.py:78-81 | all other threads stay as they are, and none is made for a case without rows |
| `Migration.CompleteRunIsLast` | scripts/migrate_in_flight_cases.py:11-12 | after a complete run the next plans nothing |
| `TracePropagation.HexReadsBack` | src/api/trace_propagation.py:58 | zero-padded hex of a number below 16^width has exactly that many digits and reads back |
| `TracePropagation.HexWritesBack` | src/api/trace_propagation.py:81-87 | every hex string is what its number is written as |
| `TracePropagation.FormatThenParse` | src/api/trace_propagation.py:50-87 | exactly the valid contexts are formatted, and each with eight-bit flags survives format then parse |
| `TracePropagation.ParseThenFormatIff` | src/api/trace_propagation.py:26-87 | an accepted header re-formats to its stripped self exactly when its version is 00 and neither identifier is all zeros |
| `TracePropagation.AcceptedIff` | src/api/trace_propagation.py:61-68 | a header is accepted exactly when, stripped, it is four groups of 2, 32, 16 and 2 hex digits, of any version |
| `Text.StripIs` | src/api/trace_propagation.py:65 | stripping takes the white space off both ends, all of it, and nothing else |
| `TracePropagation.ZeroTraceIdAccepted` | src/api/trace_propagation.py:61-87 | an all-zero trace id is accepted and not written back |

## Left out

- SseRelay.StreamCompletes: says that the stream can still close; that it does is `SseLiveness.EveryStreamEnds`.
- OutboxProgress.NoRowStranded: says that each row can still be completed and by which steps; that it does end is `OutboxLiveness.EveryRowEnds`.
- OutboxProgress.NoReachableRowStranded: the same for states of runs.
- Migration.PlanMigrations: visits the dictionary in an arbitrary order, where the source uses insertion order; the sort by distinct thread ids makes the result the same.
- TracePropagation.FormatThenParse: takes the flags to be eight bits wide, as section 3.2 of W3C Trace Context has them; the library type would accept wider ones.
- The claim in the protocol is one atomic step; the select and the locking of its rows by the database are not taken apart.
- Deletion of job rows, and the number of worker slots: any number of runs may be in flight.
- `sanitize_user_input` (it strips NUL characters after the passes) and the classifier layer of the sanitizer.
- `send_back`, chat steering and field corrections other than `extra_instructions` in the graph; retries inside a phase node; what the nodes compute.
- Advance, rerun and respond requests: they read the status and then write it, with no conditional update, so no one-winner property holds of them.
- The checks of process and restart requests before their status flip (existence, ownership, documents, intake): a request may abort at any point, which covers them.
- In `PersistResults`, the columns of a child row other than its key text and the side of an argument are represented by the fields they are computed from; which of these computations raise is modelled, their values are not.
- Interleaved checkpoint writes of one key.
- Overlapping result saves cover the child tables, not the case row and the audit log; that a `DELETE` waits for another transaction deleting the same rows is not modelled (it rules out interleavings, and the theorems hold for all).
- The stuck-case watchdog, domain-document reconciliation, precedent search: they rest on behaviour of other services.
- Authentication, HTTP error shapes, drivers, model calls, migrations of the schema, reports and metrics.
