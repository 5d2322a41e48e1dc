/**
 Runs of the outbox protocol, step by step from the empty table: a failed row that completes, and the
 second start that the row locks prevent.
 */
module OutboxScenarios {
  import opened Sequences
  import opened Wrappers
  import opened PipelineJobs
  import opened OutboxProtocol
  import opened OutboxSafety

  // ---- the protocol without the wait for the row lock ----

  /** As `Enabled`, but `_complete` and `_fail` do not wait for a transaction that holds the row. */
  ghost predicate UnguardedEnabled(s: State, step: Step) {
    || Enabled(s, step)
    || (step.RunStep? && step.id in s.jobs && (step.action.Succeed? || step.action.Fail?)
        && CanAct(Freed(s.jobs[step.id]), step.action))
  }

  ghost function UnguardedApply(s: State, step: Step): State
    requires UnguardedEnabled(s, step)
  {
    if Enabled(s, step) then Apply(s, step)
    else
      var job := s.jobs[step.id];
      SetJob(s, step.id, Act(Freed(job), s.now, step.action).(lock := job.lock))
  }

  ghost predicate IsUnguardedRun(run: seq<State>, steps: seq<Step>) {
    && |run| == |steps| + 1 && Init(run[0])
    && forall i | 0 <= i < |steps| :: UnguardedEnabled(run[i], steps[i]) && run[i + 1] == UnguardedApply(run[i], steps[i])
  }

  ghost predicate IsRunWith(guarded: bool, run: seq<State>, steps: seq<Step>) {
    if guarded then IsRun(run, steps) else IsUnguardedRun(run, steps)
  }

  // ---- extending a run ----

  lemma {:induction false} CutsSoFar(run: seq<State>, steps: seq<Step>, s: State, step: Step, id: JobId, i: nat)
    requires i <= |steps| < |run|
    ensures StartedCuts(run + [s], steps + [step], id, i) == StartedCuts(run, steps, id, i)
  {
    if i > 0 {
      CutsSoFar(run, steps, s, step, id, i - 1);
    }
  }

  /** What a run amounts to: where it ends, and how often the runner of `id` started and was cut. */
  ghost predicate Tally(guarded: bool, run: seq<State>, steps: seq<Step>, id: JobId, starts: nat, cuts: nat) {
    IsRunWith(guarded, run, steps) && Starts(steps, id) == starts && StartedCuts(run, steps, id, |steps|) == cuts
  }

  ghost function Next(guarded: bool, s: State, step: Step): State
    requires if guarded then Enabled(s, step) else UnguardedEnabled(s, step)
  {
    if guarded then Apply(s, step) else UnguardedApply(s, step)
  }

  lemma Extend(guarded: bool, run: seq<State>, steps: seq<Step>, id: JobId, starts: nat, cuts: nat, step: Step)
    returns (run': seq<State>, steps': seq<Step>)
    requires run != [] && Tally(guarded, run, steps, id, starts, cuts)
    requires if guarded then Enabled(Last(run), step) else UnguardedEnabled(Last(run), step)
    ensures run' != [] && run < run' && Last(run') == Next(guarded, Last(run), step)
    ensures Tally(guarded, run', steps', id, starts + One(IsStart(step, id)), cuts + One(IsStartedCut(Last(run), step, id)))
  {
    var s := Next(guarded, Last(run), step);
    run', steps' := run + [s], steps + [step];
    CutsSoFar(run, steps, s, step, id, |steps|);
    assert steps'[..|steps|] == steps;
  }

  // ---- one job on its own ----

  /** The only row is `id`, and no transaction is open. */
  predicate Alone(s: State, id: JobId, job: Job) {
    s.jobs == map[id := job] && s.txs == map[]
  }

  /** The only row is `id`, and the one open transaction has claimed it and enqueued `k` of it. */
  predicate Claimed(s: State, id: JobId, job: Job, x: TxId, k: nat) {
    s.jobs == map[id := job] && s.txs == map[x := Dispatching(s.now, [id], k)] && job.lock == Some(x)
  }

  lemma ClaimAlone(s: State, id: JobId, job: Job, x: TxId)
    requires Alone(s, id, job) && job.row.status == Pending && job.lock.None?
    ensures Enabled(s, Claim(x, [id])) && Claimed(Apply(s, Claim(x, [id])), id, job.(lock := Some(x)), x, 0)
  {
    assert Claimable(TableOf(s), LockedIds(s), id);
    assert IsClaim(TableOf(s), LockedIds(s), BATCH_SIZE, [id]);
    assert IdsOf([id]) == {id};
  }

  // ---- a task run ----

  /** The run ends with the one job, which stands as `job`. */
  ghost predicate EndsWith(run: seq<State>, id: JobId, job: Job, txs: map<TxId, Tx>, now: nat) {
    run != [] && Last(run).jobs == map[id := job] && Last(run).txs == txs && Last(run).now == now
  }

  lemma ActOne(guarded: bool, run: seq<State>, steps: seq<Step>, id: JobId, job: Job, txs: map<TxId, Tx>, now: nat,
               starts: nat, cuts: nat, a: RunAction)
    returns (run': seq<State>, steps': seq<Step>)
    requires Tally(guarded, run, steps, id, starts, cuts) && EndsWith(run, id, job, txs, now) && CanAct(job, a)
    ensures run < run' && EndsWith(run', id, Act(job, now, a), txs, now)
    ensures Tally(guarded, run', steps', id, starts + One(a.Begin?), cuts + One(a.Cut? && Started(job.entry)))
  {
    run', steps' := Extend(guarded, run, steps, id, starts, cuts, RunStep(id, a));
  }

  function Begun(job: Job): Job
    requires !job.entry.NoEntry?
  {
    job.(entry := Active(job.entry.task, Running), counts := job.counts.(starts := job.counts.starts + 1))
  }

  lemma BegunIs(job: Job, now: nat)
    requires job.entry == Queued(TaskByJobType(job.row.request.jobType)) && job.row.status != Completed
    ensures CanAct(job, Pick) && CanAct(Act(job, now, Pick), Load) && CanAct(Act(Act(job, now, Pick), now, Load), Begin)
    ensures Act(Act(Act(job, now, Pick), now, Load), now, Begin) == Begun(job)
  {
    TasksMatchTypes(job.row.request.jobType, job.row.request.jobType);
  }

  /** Pick, load, begin: the runner of the one job is running. */
  lemma StartRun(guarded: bool, run: seq<State>, steps: seq<Step>, id: JobId, job: Job, txs: map<TxId, Tx>, now: nat,
                 starts: nat, cuts: nat)
    returns (run': seq<State>, steps': seq<Step>)
    requires Tally(guarded, run, steps, id, starts, cuts) && EndsWith(run, id, job, txs, now)
    requires job.entry == Queued(TaskByJobType(job.row.request.jobType)) && job.row.status != Completed
    ensures run < run' && Tally(guarded, run', steps', id, starts + 1, cuts) && EndsWith(run', id, Begun(job), txs, now)
  {
    BegunIs(job, now);
    var run1, steps1 := ActOne(guarded, run, steps, id, job, txs, now, starts, cuts, Pick);
    var run2, steps2 := ActOne(guarded, run1, steps1, id, Act(job, now, Pick), txs, now, starts, cuts, Load);
    run', steps' := ActOne(guarded, run2, steps2, id, Act(Act(job, now, Pick), now, Load), txs, now, starts, cuts, Begin);
  }

  /** A new row. */
  lemma JustInserted(guarded: bool, id: JobId, request: Request, x: TxId) returns (run: seq<State>, steps: seq<Step>)
    ensures run != [] && Tally(guarded, run, steps, id, 0, 0) && Last(run).now == 0
    ensures Alone(Last(run), id, NewJob(request, 0))
  {
    var s := State(0, map[], map[]);
    assert Tally(guarded, [s], [], id, 0, 0);
    run, steps := Extend(guarded, [s], [], id, 0, 0, BeginInsert(x));
    run, steps := Extend(guarded, run, steps, id, 0, 0, CommitInsert(x, map[id := request]));
  }

  /** A new row, claimed. */
  lemma InsertedAndClaimed(guarded: bool, id: JobId, request: Request, x: TxId) returns (run: seq<State>, steps: seq<Step>)
    ensures run != [] && Tally(guarded, run, steps, id, 0, 0) && Last(run).now == 0
    ensures Claimed(Last(run), id, NewJob(request, 0).(lock := Some(x)), x, 0)
  {
    run, steps := JustInserted(guarded, id, request, x);
    ClaimAlone(Last(run), id, NewJob(request, 0), x);
    run, steps := Extend(guarded, run, steps, id, 0, 0, Claim(x, [id]));
  }

  function QueuedJob(request: Request): Job {
    NewJob(request, 0).(entry := Queued(TaskByJobType(request.jobType)))
  }

  /** Insert, claim, and an enqueue call that raises after Redis took the entry: the row is pending and
      unlocked, its entry queued. */
  lemma QueuedByFailedBatch(guarded: bool, id: JobId, request: Request, x: TxId)
    returns (run: seq<State>, steps: seq<Step>)
    ensures Tally(guarded, run, steps, id, 0, 0) && EndsWith(run, id, QueuedJob(request), map[], 0)
  {
    run, steps := InsertedAndClaimed(guarded, id, request, x);
    run, steps := Extend(guarded, run, steps, id, 0, 0, EnqueueRaise(x, true));
  }

  // ---- a failed row that completes ----

  /** The first run of the row fails. */
  lemma FailedOnce(id: JobId, request: Request, x: TxId) returns (run: seq<State>, steps: seq<Step>, job: Job)
    ensures Tally(true, run, steps, id, 1, 0) && EndsWith(run, id, job, map[], 0)
    ensures job.row.status == Failed && job.row.request == request && job.lock.None?
    ensures job.entry == Active(TaskByJobType(request.jobType), Finished(false))
  {
    run, steps := QueuedByFailedBatch(true, id, request, x);
    run, steps := StartRun(true, run, steps, id, QueuedJob(request), map[], 0, 0, 0);
    var begun := Begun(QueuedJob(request));
    run, steps := ActOne(true, run, steps, id, begun, map[], 0, 1, 0, Fail("error"));
    job := Act(begun, 0, Fail("error"));
  }

  /** Its worker is lost before arq removes the entry; the redelivered entry completes the row. */
  lemma RedeliveredAndCompleted(run: seq<State>, steps: seq<Step>, id: JobId, job: Job)
    returns (run': seq<State>, steps': seq<Step>)
    requires Tally(true, run, steps, id, 1, 0) && EndsWith(run, id, job, map[], 0)
    requires job.row.status == Failed && job.lock.None?
    requires job.entry == Active(TaskByJobType(job.row.request.jobType), Finished(false))
    ensures run < run' && Tally(true, run', steps', id, 2, 1)
    ensures id in Last(run').jobs && Last(run').jobs[id].row.status == Completed
  {
    var run1, steps1 := ActOne(true, run, steps, id, job, map[], 0, 1, 0, Cut(true));
    var queued := Act(job, 0, Cut(true));
    var run2, steps2 := StartRun(true, run1, steps1, id, queued, map[], 0, 1, 1);
    run', steps' := ActOne(true, run2, steps2, id, Begun(queued), map[], 0, 2, 1, Succeed);
  }

  /** A run in which a row fails at `i` and is completed later: two starts, one cut. */
  lemma FailedThenCompleted(id: JobId, request: Request, x: TxId) returns (run: seq<State>, steps: seq<Step>, i: nat)
    ensures IsRun(run, steps) && i < |run| - 1
    ensures id in run[i].jobs && run[i].jobs[id].row.status == Failed
    ensures id in Last(run).jobs && Last(run).jobs[id].row.status == Completed
    ensures Starts(steps, id) == 2 && StartedCuts(run, steps, id, |steps|) == 1
  {
    var first, job;
    first, steps, job := FailedOnce(id, request, x);
    i := |first| - 1;
    run, steps := RedeliveredAndCompleted(first, steps, id, job);
    assert run[i] == first[i];
  }

  // ---- why the final update waits for the row lock ----

  /** A reachable state in which a dispatcher holds a pending row whose runner is already running. */
  lemma HeldWhileRunning(guarded: bool, id: JobId, request: Request, x: TxId)
    returns (run: seq<State>, steps: seq<Step>, job: Job)
    ensures run != [] && Tally(guarded, run, steps, id, 1, 0) && Last(run).now == 0 && Claimed(Last(run), id, job, x, 0)
    ensures job.row.status == Pending && job.row.request == request
    ensures job.entry == Active(TaskByJobType(request.jobType), Running)
  {
    run, steps := QueuedByFailedBatch(guarded, id, request, x);
    run, steps := StartRun(guarded, run, steps, id, QueuedJob(request), map[], 0, 0, 0);
    job := Begun(QueuedJob(request));
    ClaimAlone(Last(run), id, job, x);
    run, steps := Extend(guarded, run, steps, id, 1, 0, Claim(x, [id]));
    job := job.(lock := Some(x));
  }

  /** The failed update that does not wait, and the end of the run. */
  lemma FailUnguarded(run: seq<State>, steps: seq<Step>, id: JobId, job: Job, x: TxId)
    returns (run': seq<State>, steps': seq<Step>, job': Job)
    requires run != [] && Tally(false, run, steps, id, 1, 0) && Last(run).now == 0 && Claimed(Last(run), id, job, x, 0)
    requires job.entry.Active? && job.entry.pc.Running?
    ensures run' != [] && Tally(false, run', steps', id, 1, 0) && Last(run').now == 0 && Claimed(Last(run'), id, job', x, 0)
    ensures job'.row.status == Failed && job'.row.request == job.row.request && job'.entry.NoEntry?
  {
    var step := RunStep(id, Fail("error"));
    assert !Enabled(Last(run), step);
    run', steps' := Extend(false, run, steps, id, 1, 0, step);
    var failed := Act(Freed(job), 0, Fail("error")).(lock := Some(x));
    assert EndsWith(run', id, failed, Last(run).txs, 0);
    run', steps' := ActOne(false, run', steps', id, failed, Last(run).txs, 0, 1, 0, Retire);
    job' := Act(failed, 0, Retire);
  }

  /** The bound on starts needs the row locks: if the final update did not wait for the dispatcher that
      holds the row, that dispatcher would enqueue the failed row again, and its runner start twice in a
      run without any cut. */
  lemma BoundNeedsLocks(id: JobId, request: Request, x: TxId) returns (run: seq<State>, steps: seq<Step>)
    ensures IsUnguardedRun(run, steps)
    ensures Starts(steps, id) == 2 && StartedCuts(run, steps, id, |steps|) == 0
  {
    var job;
    run, steps, job := HeldWhileRunning(false, id, request, x);
    run, steps, job := FailUnguarded(run, steps, id, job, x);
    run, steps := Extend(false, run, steps, id, 1, 0, EnqueueNext(x));
    run, steps := StartRun(false, run, steps, id, Enqueued(job), Last(run).txs, 0, 1, 0);
  }
}
