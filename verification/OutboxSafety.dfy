/**
 Safety of the outbox protocol over whole runs: how often a runner can start, what a completed
 row can become, who holds a row, and how often a row is dispatched.
 */
module OutboxSafety {
  import opened Wrappers
  import opened PipelineJobs
  import opened OutboxProtocol

  // ---- every step keeps the invariant ----

  lemma ActKeepsJob(job: Job, now: nat, a: RunAction)
    requires JobOk(job, now) && CanAct(job, a)
    ensures JobOk(Act(job, now, a), now)
    ensures Act(job, now, a).lock == job.lock
    ensures job.lock.Some? ==> Act(job, now, a).row == job.row
  {
    TasksMatchTypes(job.row.request.jobType, job.row.request.jobType);
  }

  /** A transaction that holds nothing opens. */
  lemma BeginInsertKeeps(s: State, x: TxId)
    requires Inv(s) && x !in s.txs
    ensures Inv(s.(txs := s.txs[x := Inserting(s.now)]))
  {
    var s' := s.(txs := s.txs[x := Inserting(s.now)]);
    forall j | j in s'.jobs ensures LockOk(s', j) {
      assert LockOk(s, j);
    }
    TxsKeep(s, s');
  }

  /** Transactions that neither change nor lose rows stay as they should be. */
  lemma TxsKeep(s: State, s': State)
    requires Inv(s) && s'.now == s.now
    requires forall j | j in s.jobs :: j in s'.jobs && s'.jobs[j] == s.jobs[j]
    requires forall y | y in s'.txs :: (y in s.txs && s'.txs[y] == s.txs[y]) || s'.txs[y] == Inserting(s.now)
    ensures forall y | y in s'.txs :: TxOk(s', y)
  {
    forall y | y in s'.txs ensures TxOk(s', y) {
      if y in s.txs && s'.txs[y] == s.txs[y] {
        assert TxOk(s, y);
        forall j | j in s'.txs[y].Held() ensures HeldOk(s', y, j) {
          assert HeldOk(s, y, j);
        }
      }
    }
  }

  lemma CommitInsertKeeps(s: State, x: TxId, requests: map<JobId, Request>)
    requires Inv(s) && Enabled(s, CommitInsert(x, requests))
    ensures Inv(Apply(s, CommitInsert(x, requests)))
  {
    var s' := Apply(s, CommitInsert(x, requests));
    forall j | j in s'.jobs ensures JobOk(s'.jobs[j], s'.now) && LockOk(s', j) {
      if j in s.jobs {
        assert JobOk(s.jobs[j], s.now) && LockOk(s, j);
      }
    }
    TxsKeep(s, s');
  }

  /** Rows fit to be held by a transaction: unlocked, and in the status it selects. */
  predicate Holdable(s: State, tx: Tx) {
    forall id | id in tx.Held() :: id in s.jobs && s.jobs[id].lock.None?
      && if tx.Dispatching? then s.jobs[id].row.status == Pending else Stale(s.jobs[id].row, tx.startedAt)
  }

  lemma LockKeepsJobs(s: State, x: TxId, tx: Tx)
    requires Inv(s) && x !in s.txs
    ensures forall j | j in Lock(s, x, tx).jobs :: JobOk(Lock(s, x, tx).jobs[j], s.now) && LockOk(Lock(s, x, tx), j)
  {
    var s' := Lock(s, x, tx);
    forall j | j in s'.jobs ensures JobOk(s'.jobs[j], s.now) && LockOk(s', j) {
      assert JobOk(s.jobs[j], s.now) && LockOk(s, j);
    }
  }

  /** Opening a transaction on unlocked rows of its status. */
  lemma LockKeeps(s: State, x: TxId, tx: Tx)
    requires Inv(s) && x !in s.txs && tx.startedAt <= s.now && Holdable(s, tx)
    requires tx.Dispatching? ==> tx.enqueued <= |tx.batch| && BatchOk(tx.batch)
    ensures Inv(Lock(s, x, tx))
  {
    var s' := Lock(s, x, tx);
    LockKeepsJobs(s, x, tx);
    forall y | y in s'.txs ensures TxOk(s', y) {
      if y == x {
        forall j | j in tx.Held() ensures HeldOk(s', x, j) {}
      }
    }
  }

  /** No row is held by two transactions. */
  lemma HeldByOne(s: State, x: TxId, y: TxId)
    requires Inv(s) && x in s.txs && y in s.txs && x != y
    ensures s.txs[x].Held() !! s.txs[y].Held()
  {
    assert TxOk(s, x) && TxOk(s, y);
    assert forall id | id in s.txs[x].Held() :: HeldOk(s, x, id);
    assert forall id | id in s.txs[y].Held() :: HeldOk(s, y, id);
  }

  /** Closing a transaction: only the rows it held change. */
  lemma CloseKeeps(s: State, x: TxId, f: Job -> Job)
    requires Inv(s) && x in s.txs
    requires forall id | id in s.txs[x].Held() :: JobOk(f(s.jobs[id]).(lock := None), s.now)
    ensures Inv(Close(s, x, f))
  {
    var s' := Close(s, x, f);
    forall j | j in s'.jobs ensures JobOk(s'.jobs[j], s'.now) {
      assert JobOk(s.jobs[j], s.now);
    }
    forall j | j in s'.jobs ensures LockOk(s', j) {
      assert LockOk(s, j);
    }
    forall y | y in s'.txs ensures TxOk(s', y) {
      assert TxOk(s, y);
      HeldByOne(s, x, y);
      forall j | j in s'.txs[y].Held() ensures HeldOk(s', y, j) {
        assert HeldOk(s, y, j);
      }
    }
  }

  lemma AbortKeeps(s: State, x: TxId)
    requires Inv(s) && x in s.txs
    ensures Inv(Close(s, x, (job: Job) => job))
  {
    assert TxOk(s, x);
    forall id | id in s.txs[x].Held() ensures JobOk(s.jobs[id].(lock := None), s.now) {
      assert HeldOk(s, x, id);
    }
    CloseKeeps(s, x, (job: Job) => job);
  }

  lemma EnqueueKeeps(s: State, x: TxId)
    requires Inv(s) && HasNext(s, x)
    ensures Inv(SetJob(s, NextId(s, x), Enqueued(s.jobs[NextId(s, x)])))
  {
    assert TxOk(s, x);
    assert HeldOk(s, x, NextId(s, x));
  }

  lemma EnqueueNextKeeps(s: State, step: Step)
    requires Inv(s) && Enabled(s, step) && step.EnqueueNext?
    ensures Inv(Apply(s, step))
  {
    var x, s' := step.tx, Apply(s, step);
    EnqueueKeeps(s, x);
    var m := SetJob(s, NextId(s, x), Enqueued(s.jobs[NextId(s, x)]));
    forall j | j in s'.jobs ensures LockOk(s', j) {
      assert LockOk(m, j);
    }
    forall y | y in s'.txs ensures TxOk(s', y) {
      assert TxOk(m, y);
      forall j | j in s'.txs[y].Held() ensures HeldOk(s', y, j) {
        assert HeldOk(m, y, j);
      }
    }
  }

  lemma CommitKeeps(s: State, step: Step)
    requires Inv(s) && Enabled(s, step) && (step.CommitDispatch? || step.CommitRecover?)
    ensures Inv(Apply(s, step))
  {
    var x := step.tx;
    var at := s.txs[x].startedAt;
    assert TxOk(s, x);
    forall id | id in s.txs[x].Held()
      ensures id in s.jobs
      ensures step.CommitDispatch? ==> JobOk(Dispatch(s.jobs[id], at).(lock := None), s.now)
      ensures step.CommitRecover? ==> JobOk(Revive(s.jobs[id]).(lock := None), s.now)
    {
      assert HeldOk(s, x, id);
    }
    if step.CommitDispatch? {
      CloseKeeps(s, x, (job: Job) => Dispatch(job, at));
    } else {
      CloseKeeps(s, x, (job: Job) => Revive(job));
    }
  }

  lemma TickKeeps(s: State)
    requires Inv(s)
    ensures Inv(s.(now := s.now + 1))
  {
    var s' := s.(now := s.now + 1);
    forall j | j in s'.jobs ensures JobOk(s'.jobs[j], s'.now) && LockOk(s', j) {
      assert JobOk(s.jobs[j], s.now) && LockOk(s, j);
    }
    forall y | y in s'.txs ensures TxOk(s', y) {
      assert TxOk(s, y);
      forall j | j in s'.txs[y].Held() ensures HeldOk(s', y, j) {
        assert HeldOk(s, y, j);
      }
    }
  }

  lemma ClaimKeeps(s: State, step: Step)
    requires Inv(s) && Enabled(s, step) && step.Claim?
    ensures Inv(Apply(s, step))
  {
    forall id | id in IdsOf(step.batch) ensures Claimable(TableOf(s), LockedIds(s), id) {
      var i :| 0 <= i < |step.batch| && step.batch[i] == id;
    }
    LockKeeps(s, step.tx, Dispatching(s.now, step.batch, 0));
  }

  lemma StepKeepsInv(s: State, step: Step)
    requires Inv(s) && Enabled(s, step)
    ensures Inv(Apply(s, step))
  {
    match step
    case BeginInsert(x) => BeginInsertKeeps(s, x);
    case CommitInsert(x, requests) => CommitInsertKeeps(s, x, requests);
    case Tick => TickKeeps(s);
    case Claim(_, _) => ClaimKeeps(s, step);
    case EnqueueNext(_) => EnqueueNextKeeps(s, step);
    case EnqueueRaise(x, accepted) =>
      if accepted {
        EnqueueKeeps(s, x);
        AbortKeeps(SetJob(s, NextId(s, x), Enqueued(s.jobs[NextId(s, x)])), x);
      } else {
        AbortKeeps(s, x);
      }
    case CommitDispatch(_) => CommitKeeps(s, step);
    case Abort(x) => AbortKeeps(s, x);
    case RecoverBegin(x, ids) => LockKeeps(s, x, Recovering(s.now, ids));
    case CommitRecover(_) => CommitKeeps(s, step);
    case RunStep(id, a) =>
      ActKeepsJob(s.jobs[id], s.now, a);
  }

  lemma {:induction false} RunInv(run: seq<State>, steps: seq<Step>, i: nat)
    requires IsRun(run, steps) && i < |run|
    ensures Inv(run[i])
  {
    if i > 0 {
      RunInv(run, steps, i - 1);
      StepKeepsInv(run[i - 1], steps[i - 1]);
    }
  }

  // ---- one job under one step ----

  function Freed(job: Job): Job { job.(lock := None) }

  /** What a step does to one job. */
  ghost function Effect(s: State, step: Step, id: JobId): Job
    requires Enabled(s, step) && id in s.jobs
  {
    var job := s.jobs[id];
    match step
    case BeginInsert(_) => job
    case CommitInsert(_, _) => job
    case Tick => job
    case Claim(x, batch) => if id in batch then job.(lock := Some(x)) else job
    case EnqueueNext(x) => if id == NextId(s, x) then Enqueued(job) else job
    case EnqueueRaise(x, accepted) =>
      var e := if accepted && id == NextId(s, x) then Enqueued(job) else job;
      if id in s.txs[x].Held() then Freed(e) else e
    case CommitDispatch(x) => if id in s.txs[x].Held() then Freed(Dispatch(job, s.txs[x].startedAt)) else job
    case Abort(x) => if id in s.txs[x].Held() then Freed(job) else job
    case RecoverBegin(x, ids) => if id in ids then job.(lock := Some(x)) else job
    case CommitRecover(x) => if id in s.txs[x].Held() then Freed(Revive(job)) else job
    case RunStep(j, a) => if j == id then Act(job, s.now, a) else job
  }

  /** A step touches each job as told, adds those it inserts, and drops none. */
  lemma EffectIs(s: State, step: Step)
    requires Enabled(s, step)
    ensures Apply(s, step).jobs.Keys == s.jobs.Keys + if step.CommitInsert? then step.requests.Keys else {}
    ensures forall id | id in s.jobs :: Apply(s, step).jobs[id] == Effect(s, step, id)
  {
  }

  lemma HeldIs(s: State, x: TxId, id: JobId)
    requires Inv(s) && x in s.txs && id in s.txs[x].Held()
    ensures HeldOk(s, x, id)
  {
    assert TxOk(s, x);
  }

  // ---- how often a runner starts ----

  predicate IsStart(step: Step, id: JobId) { step.RunStep? && step.id == id && step.action.Begin? }

  /** A run of the row is cut short between its runner's start and the removal of its entry. */
  predicate IsStartedCut(s: State, step: Step, id: JobId) {
    step.RunStep? && step.id == id && step.action.Cut? && id in s.jobs && Started(s.jobs[id].entry)
  }

  function Starts(steps: seq<Step>, id: JobId): nat {
    if steps == [] then 0 else Starts(steps[..|steps| - 1], id) + One(IsStart(steps[|steps| - 1], id))
  }

  /** How many of the first `i` steps cut a started run of the row short. */
  function StartedCuts(run: seq<State>, steps: seq<Step>, id: JobId, i: nat): nat
    requires i <= |steps| < |run|
  {
    if i == 0 then 0 else StartedCuts(run, steps, id, i - 1) + One(IsStartedCut(run[i - 1], steps[i - 1], id))
  }

  /** A step changes the start and cut counters of a row exactly when it is such a step on it. */
  lemma StepTallies(s: State, step: Step, id: JobId)
    requires Enabled(s, step) && id in s.jobs
    ensures Effect(s, step, id).counts.starts == s.jobs[id].counts.starts + One(IsStart(step, id))
    ensures Effect(s, step, id).counts.cuts == s.jobs[id].counts.cuts + One(IsStartedCut(s, step, id))
  {
  }

  lemma {:induction false} RunTallies(run: seq<State>, steps: seq<Step>, i: nat, id: JobId)
    requires IsRun(run, steps) && i < |run|
    ensures id in run[i].jobs ==> run[i].jobs[id].counts.starts == Starts(steps[..i], id)
                                  && run[i].jobs[id].counts.cuts == StartedCuts(run, steps, id, i)
    ensures id !in run[i].jobs ==> Starts(steps[..i], id) == 0 == StartedCuts(run, steps, id, i)
  {
    if i > 0 {
      var s, step := run[i - 1], steps[i - 1];
      RunTallies(run, steps, i - 1, id);
      assert steps[..i][..i - 1] == steps[..i - 1];
      EffectIs(s, step);
      if id in s.jobs {
        StepTallies(s, step, id);
      } else if step.CommitInsert? && id in step.requests {
        assert run[i].jobs[id] == NewJob(step.requests[id], s.txs[step.tx].startedAt);
      }
    }
  }

  /** In every run, the runner of a row starts at most once more often than its started runs are cut
      short. */
  lemma RunnerStartsBounded(run: seq<State>, steps: seq<Step>, id: JobId)
    requires IsRun(run, steps)
    ensures Starts(steps, id) <= 1 + StartedCuts(run, steps, id, |steps|)
  {
    RunTallies(run, steps, |steps|, id);
    RunInv(run, steps, |steps|);
    assert steps[..|steps|] == steps;
    assert id in run[|steps|].jobs ==> JobOk(run[|steps|].jobs[id], run[|steps|].now);
  }

  /** The failure count of a row never exceeds the number of its runner starts. */
  lemma AttemptsBounded(run: seq<State>, steps: seq<Step>, id: JobId)
    requires IsRun(run, steps) && id in run[|steps|].jobs
    ensures run[|steps|].jobs[id].row.attempts <= Starts(steps, id)
  {
    RunTallies(run, steps, |steps|, id);
    RunInv(run, steps, |steps|);
    assert steps[..|steps|] == steps;
    assert JobOk(run[|steps|].jobs[id], run[|steps|].now);
  }

  // ---- what becomes of a status ----

  predicate MayBecome(a: Status, b: Status) {
    match a
    case Pending => true
    case Dispatched => true
    case Failed => b == Failed || b == Completed
    case Completed => b == Completed
  }

  lemma StepStatus(s: State, step: Step, id: JobId)
    requires Inv(s) && Enabled(s, step) && id in s.jobs
    ensures MayBecome(s.jobs[id].row.status, Effect(s, step, id).row.status)
    ensures Effect(s, step, id).row.request == s.jobs[id].row.request
    ensures Effect(s, step, id).row.createdAt == s.jobs[id].row.createdAt
  {
    if (step.CommitDispatch? || step.CommitRecover?) && id in s.txs[step.tx].Held() {
      HeldIs(s, step.tx, id);
    } else if step.RunStep? {
      assert JobOk(s.jobs[id], s.now);
    }
  }

  /** Rows never disappear and never lose what was asked for; a completed row stays completed, a failed
      one is never pending again. */
  lemma {:induction false} CompletedAbsorbing(run: seq<State>, steps: seq<Step>, i: nat, j: nat, id: JobId)
    requires IsRun(run, steps) && i <= j < |run| && id in run[i].jobs
    ensures id in run[j].jobs
    ensures run[j].jobs[id].row.request == run[i].jobs[id].row.request
    ensures run[i].jobs[id].row.status == Completed ==> run[j].jobs[id].row.status == Completed
    ensures run[i].jobs[id].row.status == Failed ==>
              run[j].jobs[id].row.status == Failed || run[j].jobs[id].row.status == Completed
  {
    if i < j {
      CompletedAbsorbing(run, steps, i, j - 1, id);
      RunInv(run, steps, j - 1);
      EffectIs(run[j - 1], steps[j - 1]);
      StepStatus(run[j - 1], steps[j - 1], id);
    }
  }

  // ---- interleaved dispatchers refine a sequential one ----

  /** What an observer of the committed table sees of a step. */
  datatype TableStep =
    | Unchanged
    | Inserted(rows: map<JobId, Row>)
    | DispatchedBatch(batch: seq<JobId>, at: nat)
    | RecoveredRows(ids: set<JobId>, at: nat)
    | CompletedOne(id: JobId, at: nat)
    | FailedOne(id: JobId, at: nat, message: string)

  /** The table steps of one dispatcher, one recovery loop and one worker, each a single atomic act. */
  ghost predicate TableNext(t: Table, a: TableStep, t': Table) {
    match a
    case Unchanged => t' == t
    case Inserted(rows) => rows.Keys !! t.Keys && (forall id | id in rows :: rows[id].status == Pending) && t' == t + rows
    case DispatchedBatch(batch, at) =>
      && BatchOk(batch)
      && (forall id | id in IdsOf(batch) :: id in t && t[id].status == Pending)
      && t' == MarkDispatched(t, IdsOf(batch), at)
    case RecoveredRows(ids, at) =>
      && (forall id | id in ids :: id in t && Stale(t[id], at))
      && t' == Recover(t, ids)
    case CompletedOne(id, at) => id in t && t[id].status != Completed && t' == MarkCompleted(t, id, at)
    case FailedOne(id, at, message) => id in t && t[id].status != Completed && t' == MarkFailed(t, id, at, message)
  }

  function NewRows(requests: map<JobId, Request>, at: nat): Table {
    map id | id in requests :: NewRow(requests[id], at)
  }

  ghost function Observed(s: State, step: Step): TableStep
    requires Enabled(s, step)
  {
    match step
    case CommitInsert(x, requests) => Inserted(NewRows(requests, s.txs[x].startedAt))
    case CommitDispatch(x) => DispatchedBatch(s.txs[x].batch, s.txs[x].startedAt)
    case CommitRecover(x) => RecoveredRows(s.txs[x].ids, s.txs[x].startedAt)
    case RunStep(id, Succeed) => CompletedOne(id, s.now)
    case RunStep(id, Fail(message)) => FailedOne(id, s.now, message)
    case _ => Unchanged
  }

  lemma DispatchObserved(s: State, x: TxId)
    requires Inv(s) && Enabled(s, CommitDispatch(x))
    ensures TableNext(TableOf(s), DispatchedBatch(s.txs[x].batch, s.txs[x].startedAt), TableOf(Apply(s, CommitDispatch(x))))
  {
    var t' := TableOf(Apply(s, CommitDispatch(x)));
    EffectIs(s, CommitDispatch(x));
    assert TxOk(s, x);
    forall id | id in s.txs[x].Held() ensures id in s.jobs && s.jobs[id].row.status == Pending {
      HeldIs(s, x, id);
    }
    assert t'.Keys == TableOf(s).Keys;
    assert t' == MarkDispatched(TableOf(s), IdsOf(s.txs[x].batch), s.txs[x].startedAt);
  }

  lemma RecoverObserved(s: State, x: TxId)
    requires Inv(s) && Enabled(s, CommitRecover(x))
    ensures TableNext(TableOf(s), RecoveredRows(s.txs[x].ids, s.txs[x].startedAt), TableOf(Apply(s, CommitRecover(x))))
  {
    var t' := TableOf(Apply(s, CommitRecover(x)));
    EffectIs(s, CommitRecover(x));
    forall id | id in s.txs[x].Held() ensures id in s.jobs && Stale(s.jobs[id].row, s.txs[x].startedAt) {
      HeldIs(s, x, id);
    }
    assert t'.Keys == TableOf(s).Keys;
    assert t' == Recover(TableOf(s), s.txs[x].ids);
  }

  lemma RunStepObserved(s: State, id: JobId, a: RunAction)
    requires Inv(s) && Enabled(s, RunStep(id, a))
    ensures TableNext(TableOf(s), Observed(s, RunStep(id, a)), TableOf(Apply(s, RunStep(id, a))))
  {
    assert JobOk(s.jobs[id], s.now);
    assert TableOf(SetJob(s, id, Act(s.jobs[id], s.now, a))) == TableOf(s)[id := Act(s.jobs[id], s.now, a).row];
    assert TableOf(s)[id := s.jobs[id].row] == TableOf(s);
  }

  lemma InsertObserved(s: State, step: Step)
    requires Enabled(s, step) && step.CommitInsert?
    ensures TableNext(TableOf(s), Observed(s, step), TableOf(Apply(s, step)))
  {
    assert TableOf(Apply(s, step)) == TableOf(s) + NewRows(step.requests, s.txs[step.tx].startedAt);
  }

  predicate IsQuiet(step: Step) { !step.CommitInsert? && !step.CommitDispatch? && !step.CommitRecover? && !step.RunStep? }

  /** Steps that change no row. */
  lemma QuietStepObserved(s: State, step: Step)
    requires Enabled(s, step) && IsQuiet(step)
    ensures TableOf(Apply(s, step)) == TableOf(s)
  {
    EffectIs(s, step);
    forall id | id in s.jobs ensures Apply(s, step).jobs[id].row == s.jobs[id].row {}
    assert TableOf(Apply(s, step)).Keys == TableOf(s).Keys;
  }

  /** Every step of any number of dispatchers, recovery ticks and workers is one atomic act of a
      sequential system on the table; in particular a batch appears at its commit, all at once,
      and a failed batch never appears. */
  lemma {:induction false} StepRefinesSequential(s: State, step: Step)
    requires Inv(s) && Enabled(s, step)
    ensures TableNext(TableOf(s), Observed(s, step), TableOf(Apply(s, step)))
  {
    match step
    case CommitDispatch(x) => DispatchObserved(s, x);
    case CommitRecover(x) => RecoverObserved(s, x);
    case RunStep(id, a) => RunStepObserved(s, id, a);
    case CommitInsert(_, _) => InsertObserved(s, step);
    case _ => QuietStepObserved(s, step);
  }

  /** A step that closes transaction `x`. */
  predicate Closes(step: Step, x: TxId) {
    match step
    case EnqueueRaise(y, _) => x == y
    case CommitDispatch(y) => x == y
    case Abort(y) => x == y
    case CommitRecover(y) => x == y
    case CommitInsert(y, _) => x == y
    case _ => false
  }

  /** A transaction's rows stand still while it is open, whatever the others do. */
  lemma HeldRowStands(s: State, step: Step, x: TxId, id: JobId)
    requires Inv(s) && Enabled(s, step) && x in s.txs && !Closes(step, x) && id in s.txs[x].Held()
    ensures id in s.jobs && Effect(s, step, id).row == s.jobs[id].row && Effect(s, step, id).lock == Some(x)
  {
    HeldIs(s, x, id);
    if (step.CommitDispatch? || step.CommitRecover? || step.Abort? || step.EnqueueRaise?) && step.tx != x {
      HeldByOne(s, x, step.tx);
    }
  }

  lemma StepKeepsHeld(s: State, step: Step, x: TxId)
    requires Inv(s) && Enabled(s, step) && IsDispatching(s, x) && !Closes(step, x)
    ensures IsDispatching(Apply(s, step), x)
    ensures Apply(s, step).txs[x].batch == s.txs[x].batch && Apply(s, step).txs[x].startedAt == s.txs[x].startedAt
    ensures forall id | id in s.txs[x].Held() :: id in s.jobs && id in Apply(s, step).jobs
                                                 && Apply(s, step).jobs[id].row == s.jobs[id].row
  {
    EffectIs(s, step);
    forall id | id in s.txs[x].Held() ensures id in s.jobs && Effect(s, step, id).row == s.jobs[id].row {
      HeldRowStands(s, step, x, id);
    }
  }

  lemma {:induction false} BatchFrozen(run: seq<State>, steps: seq<Step>, i: nat, j: nat, x: TxId)
    requires IsRun(run, steps) && i <= j < |run| && IsDispatching(run[i], x)
    requires forall k | i <= k < j :: !Closes(steps[k], x)
    ensures IsDispatching(run[j], x) && run[j].txs[x].batch == run[i].txs[x].batch
    ensures run[j].txs[x].startedAt == run[i].txs[x].startedAt
    ensures forall id | id in run[i].txs[x].Held() ::
              id in run[i].jobs && id in run[j].jobs && run[j].jobs[id].row == run[i].jobs[id].row
  {
    RunInv(run, steps, i);
    assert TxOk(run[i], x);
    assert forall id | id in run[i].txs[x].Held() :: HeldOk(run[i], x, id);
    if i < j {
      BatchFrozen(run, steps, i, j - 1, x);
      RunInv(run, steps, j - 1);
      StepKeepsHeld(run[j - 1], steps[j - 1], x);
    }
  }

  /** A batch that commits is the oldest unlocked pending rows of the moment it was claimed, and
      not one of its rows has changed in between. */
  lemma CommittedBatchIsOldestClaim(run: seq<State>, steps: seq<Step>, i: nat, j: nat, x: TxId)
    requires IsRun(run, steps) && i < j < |steps|
    requires steps[i].Claim? && steps[i].tx == x && steps[j] == CommitDispatch(x)
    requires forall k | i < k < j :: !Closes(steps[k], x)
    ensures var batch := steps[i].batch;
            && IsClaim(TableOf(run[i]), LockedIds(run[i]), BATCH_SIZE, batch)
            && (forall id | id in IdsOf(batch) ::
                  id in TableOf(run[i]) && id in TableOf(run[j]) && TableOf(run[j])[id] == TableOf(run[i])[id])
            && TableOf(run[j + 1]) == MarkDispatched(TableOf(run[j]), IdsOf(batch), run[i].now)
  {
    var batch := steps[i].batch;
    assert run[i + 1].txs[x] == Dispatching(run[i].now, batch, 0);
    BatchFrozen(run, steps, i + 1, j, x);
    RunInv(run, steps, i);
    RunInv(run, steps, j);
    DispatchObserved(run[j], x);
    forall id | id in IdsOf(batch) ensures id in TableOf(run[i]) && TableOf(run[j])[id] == TableOf(run[i])[id] {
      var k :| 0 <= k < |batch| && batch[k] == id;
      assert Claimable(TableOf(run[i]), LockedIds(run[i]), batch[k]);
    }
  }

  /** Each pending period of a row ends in at most one commit to `dispatched`: commits never get
      ahead of the recoveries that opened new periods by more than the first one. */
  lemma OneDispatchPerPendingPeriod(run: seq<State>, steps: seq<Step>, i: nat, id: JobId)
    requires IsRun(run, steps) && i < |run| && id in run[i].jobs
    ensures var c := run[i].jobs[id].counts;
            && c.recoveries <= c.dispatches <= c.recoveries + 1
            && (run[i].jobs[id].row.status == Pending ==> c.dispatches == c.recoveries)
            && (run[i].jobs[id].row.status == Dispatched ==> c.dispatches == c.recoveries + 1)
  {
    RunInv(run, steps, i);
    assert JobOk(run[i].jobs[id], run[i].now);
  }
}
