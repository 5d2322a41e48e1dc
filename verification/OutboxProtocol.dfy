/**
 The outbox protocol as a transition system: API transactions insert rows, whose creation time is
 that of the start of the transaction and which others see from its commit on; any number of
 dispatchers and recovery ticks run as database transactions with row locks, workers run the
 arq entries, and anything may be cut short at any point.

 Environment: arq holds at most one entry per job id and hands it to at most one worker, so the
 run of an entry is part of its entry here; the row locks of a transaction are held until it
 commits or rolls back.
 */
module OutboxProtocol {
  import opened Wrappers
  import opened PipelineJobs

  /** Where a task run stands between `_load_job` and arq's removal of the entry. */
  datatype Pc = Picked | Loaded(seen: Status, seenType: JobType) | Running | Finished(ok: bool) | Exiting

  datatype Entry = NoEntry | Queued(task: Task) | Active(task: Task, pc: Pc)

  /** Runner starts, started runs cut short, started runs that ended normally, recoveries to
      pending, commits to dispatched. */
  datatype Counts = Counts(starts: nat, cuts: nat, ended: nat, recoveries: nat, dispatches: nat)

  /** One job id: its row, the transaction that holds the row lock, its arq entry. */
  datatype Job = Job(row: Row, lock: Option<TxId>, entry: Entry, counts: Counts)

  /** An open database transaction. */
  datatype Tx =
    | Dispatching(startedAt: nat, batch: seq<JobId>, enqueued: nat)
    | Recovering(startedAt: nat, ids: set<JobId>)
    | Inserting(startedAt: nat)            // an API request; its rows are not visible yet
  {
    function Held(): set<JobId> {
      match this
      case Dispatching(_, batch, _) => IdsOf(batch)
      case Recovering(_, ids) => ids
      case Inserting(_) => {}
    }
  }

  datatype State = State(now: nat, jobs: map<JobId, Job>, txs: map<TxId, Tx>)

  // ---- one task run ----

  datatype RunAction =
    | Pick                       // a worker takes the entry
    | Load                       // _load_job
    | Begin                      // runner(job) starts
    | Skip                       // already completed, or type mismatch
    | Succeed                    // _complete commits
    | Fail(message: string)      // _fail commits
    | Retire                     // the task function returns or raises; arq removes the entry
    | Cut(redeliver: bool)       // crash, timeout, or an error in the final update
    | LoseEntry                  // arq drops a queued entry

  predicate Proceeds(pc: Pc, task: Task) {
    pc.Loaded? && pc.seen != Completed && pc.seenType == ExpectedType(task)
  }

  predicate CanAct(job: Job, a: RunAction) {
    match a
    case Pick => job.entry.Queued?
    case LoseEntry => job.entry.Queued?
    case Load => job.entry.Active? && job.entry.pc.Picked?
    case Begin => job.entry.Active? && Proceeds(job.entry.pc, job.entry.task)
    case Skip => job.entry.Active? && job.entry.pc.Loaded? && !Proceeds(job.entry.pc, job.entry.task)
    case Succeed => job.entry.Active? && job.entry.pc.Running? && job.lock.None?
    case Fail(_) => job.entry.Active? && job.entry.pc.Running? && job.lock.None?
    case Retire => job.entry.Active? && (job.entry.pc.Finished? || job.entry.pc.Exiting?)
    case Cut(_) => job.entry.Active?
  }

  predicate Started(entry: Entry) { entry.Active? && (entry.pc.Running? || entry.pc.Finished?) }

  function Act(job: Job, now: nat, a: RunAction): Job
    requires CanAct(job, a)
  {
    var c := job.counts;
    match a
    case Pick => job.(entry := Active(job.entry.task, Picked))
    case LoseEntry => job.(entry := NoEntry)
    case Load => job.(entry := Active(job.entry.task, Loaded(job.row.status, job.row.request.jobType)))
    case Begin => job.(entry := Active(job.entry.task, Running), counts := c.(starts := c.starts + 1))
    case Skip => job.(entry := Active(job.entry.task, Exiting))
    case Succeed => job.(entry := Active(job.entry.task, Finished(true)), row := CompletedRow(job.row, now))
    case Fail(message) => job.(entry := Active(job.entry.task, Finished(false)), row := FailedRow(job.row, now, message))
    case Retire => job.(entry := NoEntry, counts := if job.entry.pc.Finished? then c.(ended := c.ended + 1) else c)
    case Cut(redeliver) =>
      job.(entry := if redeliver then Queued(job.entry.task) else NoEntry,
           counts := if Started(job.entry) then c.(cuts := c.cuts + 1) else c)
  }

  // ---- the whole system ----

  datatype Step =
    | BeginInsert(tx: TxId)
    | CommitInsert(tx: TxId, requests: map<JobId, Request>)     // none, if the request rolled back
    | Tick
    | Claim(tx: TxId, batch: seq<JobId>)
    | EnqueueNext(tx: TxId)
    | EnqueueRaise(tx: TxId, accepted: bool)
    | CommitDispatch(tx: TxId)
    | Abort(tx: TxId)
    | RecoverBegin(tx: TxId, ids: set<JobId>)
    | CommitRecover(tx: TxId)
    | RunStep(id: JobId, action: RunAction)

  /** What may go wrong: failed calls, crashes, timeouts, lost entries. */
  predicate IsFault(step: Step) {
    step.EnqueueRaise? || step.Abort? || (step.RunStep? && (step.action.Cut? || step.action.LoseEntry?))
  }

  function TableOf(s: State): Table { map id | id in s.jobs :: s.jobs[id].row }

  function LockedIds(s: State): set<JobId> { set id | id in s.jobs && s.jobs[id].lock.Some? }

  predicate IsDispatching(s: State, x: TxId) { x in s.txs && s.txs[x].Dispatching? }

  /** The dispatcher of `x` has a next row to enqueue. */
  predicate HasNext(s: State, x: TxId) {
    && IsDispatching(s, x) && s.txs[x].enqueued < |s.txs[x].batch|
    && s.txs[x].batch[s.txs[x].enqueued] in s.jobs
  }

  function NextId(s: State, x: TxId): JobId
    requires HasNext(s, x)
  {
    s.txs[x].batch[s.txs[x].enqueued]
  }

  ghost predicate Enabled(s: State, step: Step) {
    match step
    case BeginInsert(x) => x !in s.txs
    case CommitInsert(x, requests) => x in s.txs && s.txs[x].Inserting? && requests.Keys !! s.jobs.Keys
    case Tick => true
    case Claim(x, batch) => x !in s.txs && batch != [] && IsClaim(TableOf(s), LockedIds(s), BATCH_SIZE, batch)
    case EnqueueNext(x) => HasNext(s, x)
    case EnqueueRaise(x, _) => HasNext(s, x)
    case CommitDispatch(x) => IsDispatching(s, x) && s.txs[x].enqueued == |s.txs[x].batch|
    case Abort(x) => x in s.txs
    case RecoverBegin(x, ids) => x !in s.txs && ids != {} &&
      forall id | id in ids :: id in s.jobs && Stale(s.jobs[id].row, s.now) && s.jobs[id].lock.None?
    case CommitRecover(x) => x in s.txs && s.txs[x].Recovering?
    case RunStep(id, a) => id in s.jobs && CanAct(s.jobs[id], a)
  }

  /** `enqueue_job(task, id, _job_id=id)`: a live entry makes it a no-op. */
  function Enqueued(job: Job): Job {
    if job.entry.NoEntry? then job.(entry := Queued(TaskByJobType(job.row.request.jobType))) else job
  }

  function Dispatch(job: Job, at: nat): Job {
    job.(row := DispatchedRow(job.row, at), counts := job.counts.(dispatches := job.counts.dispatches + 1))
  }

  function Revive(job: Job): Job {
    job.(row := RecoveredRow(job.row), counts := job.counts.(recoveries := job.counts.recoveries + 1))
  }

  function Update(s: State, ids: set<JobId>, f: Job -> Job): State {
    s.(jobs := map id | id in s.jobs :: if id in ids then f(s.jobs[id]) else s.jobs[id])
  }

  function Lock(s: State, x: TxId, tx: Tx): State {
    Update(s, tx.Held(), (job: Job) => job.(lock := Some(x))).(txs := s.txs[x := tx])
  }

  /** Commit and rollback alike release the locks; a commit also applies `f` to the rows held. */
  function Close(s: State, x: TxId, f: Job -> Job): State
    requires x in s.txs
  {
    Update(s, s.txs[x].Held(), (job: Job) => f(job).(lock := None)).(txs := s.txs - {x})
  }

  function NewJob(request: Request, now: nat): Job {
    Job(NewRow(request, now), None, NoEntry, Counts(0, 0, 0, 0, 0))
  }

  function AddJobs(s: State, requests: map<JobId, Request>, at: nat): State {
    s.(jobs := s.jobs + map id | id in requests :: NewJob(requests[id], at))
  }

  function SetJob(s: State, id: JobId, job: Job): State {
    s.(jobs := s.jobs[id := job])
  }

  ghost function Apply(s: State, step: Step): State
    requires Enabled(s, step)
  {
    match step
    case BeginInsert(x) => s.(txs := s.txs[x := Inserting(s.now)])
    case CommitInsert(x, requests) => AddJobs(s, requests, s.txs[x].startedAt).(txs := s.txs - {x})
    case Tick => s.(now := s.now + 1)
    case Claim(x, batch) => Lock(s, x, Dispatching(s.now, batch, 0))
    case EnqueueNext(x) =>
      SetJob(s, NextId(s, x), Enqueued(s.jobs[NextId(s, x)]))
      .(txs := s.txs[x := s.txs[x].(enqueued := s.txs[x].enqueued + 1)])
    case EnqueueRaise(x, accepted) =>
      Close(if accepted then SetJob(s, NextId(s, x), Enqueued(s.jobs[NextId(s, x)])) else s, x, (job: Job) => job)
    case CommitDispatch(x) => Close(s, x, (job: Job) => Dispatch(job, s.txs[x].startedAt))
    case Abort(x) => Close(s, x, (job: Job) => job)
    case RecoverBegin(x, ids) => Lock(s, x, Recovering(s.now, ids))
    case CommitRecover(x) => Close(s, x, (job: Job) => Revive(job))
    case RunStep(id, a) => SetJob(s, id, Act(s.jobs[id], s.now, a))
  }

  ghost predicate Init(s: State) { s.jobs == map[] && s.txs == map[] }

  // ---- the invariant ----

  predicate PcOk(row: Row, pc: Pc) {
    match pc
    case Picked => true
    case Loaded(seen, seenType) => seenType == row.request.jobType && (seen == Completed <==> row.status == Completed)
    case Running => row.status != Completed
    case Finished(ok) => row.status == if ok then Completed else Failed
    case Exiting => row.status == Completed
  }

  predicate Terminal(row: Row) { row.status == Completed || row.status == Failed }

  function One(b: bool): nat { if b then 1 else 0 }

  /** The entry belongs to the row's own task, and its run agrees with the row. */
  predicate EntryOk(job: Job) {
    && (!job.entry.NoEntry? ==> job.entry.task == TaskByJobType(job.row.request.jobType))
    && (job.entry.Active? ==> PcOk(job.row, job.entry.pc))
  }

  /** Conservation: every runner start is the run in flight, one cut short, or the one that ended. */
  predicate StartsOk(job: Job) {
    var c := job.counts;
    && c.starts == c.cuts + c.ended + One(Started(job.entry))
    && (c.ended > 0 ==> c.ended == 1 && Terminal(job.row) && job.entry.NoEntry?)
    && job.row.attempts + One(job.entry.Active? && job.entry.pc.Running?) <= c.starts
  }

  /** Every pending period ends with at most one commit to dispatched. */
  predicate PeriodsOk(job: Job, now: nat) {
    var c := job.counts;
    && c.recoveries <= c.dispatches <= c.recoveries + 1
    && (job.row.status == Pending ==> c.dispatches == c.recoveries)
    && (job.row.status == Dispatched ==>
          c.dispatches == c.recoveries + 1 && job.row.dispatchedAt.Some? && job.row.dispatchedAt.value <= now)
  }

  predicate JobOk(job: Job, now: nat) {
    EntryOk(job) && StartsOk(job) && PeriodsOk(job, now)
  }

  /** What a transaction holds is locked by it, and in the status it selected. */
  predicate HeldOk(s: State, x: TxId, id: JobId)
    requires x in s.txs
  {
    && id in s.jobs && s.jobs[id].lock == Some(x)
    && if s.txs[x].Dispatching? then s.jobs[id].row.status == Pending else Stale(s.jobs[id].row, s.txs[x].startedAt)
  }

  predicate BatchOk(batch: seq<JobId>) { 0 < |batch| <= BATCH_SIZE && NoRepeats(batch) }

  predicate TxOk(s: State, x: TxId)
    requires x in s.txs
  {
    && s.txs[x].startedAt <= s.now
    && (s.txs[x].Dispatching? ==> s.txs[x].enqueued <= |s.txs[x].batch| && BatchOk(s.txs[x].batch))
    && forall id | id in s.txs[x].Held() :: HeldOk(s, x, id)
  }

  predicate LockOk(s: State, id: JobId)
    requires id in s.jobs
  {
    s.jobs[id].lock.Some? ==> s.jobs[id].lock.value in s.txs && id in s.txs[s.jobs[id].lock.value].Held()
  }

  ghost predicate Inv(s: State) {
    && (forall id | id in s.jobs :: JobOk(s.jobs[id], s.now))
    && (forall id | id in s.jobs :: LockOk(s, id))
    && (forall x | x in s.txs :: TxOk(s, x))
  }

  // ---- runs ----

  ghost predicate IsRun(run: seq<State>, steps: seq<Step>) {
    && |run| == |steps| + 1 && Init(run[0])
    && forall i | 0 <= i < |steps| :: Enabled(run[i], steps[i]) && run[i + 1] == Apply(run[i], steps[i])
  }
}
