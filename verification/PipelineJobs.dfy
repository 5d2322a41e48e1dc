/**
 The `pipeline_jobs` outbox table: its rows, the effect of each SQL statement on the committed
 table, and the dispatcher and worker routines that issue those statements.
 */
module PipelineJobs {
  import opened TracePropagation
  import opened Wrappers

  type JobId = nat
  type TxId = nat

  datatype JobType = CasePipeline | WhatifScenario | StabilityComputation | GateRun | IntakeExtraction | DocumentParse

  datatype Status = Pending | Dispatched | Completed | Failed

  /** What the writer asks for; no later statement touches it. */
  datatype Request = Request(caseId: nat, jobType: JobType, targetId: Option<nat>,
                             payload: Option<string>, traceparent: Option<string>)

  datatype Row = Row(request: Request, status: Status, attempts: nat,
                     createdAt: nat, dispatchedAt: Option<nat>, completedAt: Option<nat>, error: Option<string>)

  type Table = map<JobId, Row>

  const BATCH_SIZE: nat := 10
  const STUCK_THRESHOLD: nat := 1200
  const MAX_ERROR: nat := 1000

  // ---- the statements, on the committed table ----

  function NewRow(request: Request, now: nat): Row {
    Row(request, Pending, 0, now, None, None, None)
  }

  /** Without an explicit traceparent, the header of the writer's span is captured. */
  function Captured(request: Request, span: SpanContext): Request {
    if request.traceparent.Some? then request else request.(traceparent := FormatTraceparent(span))
  }

  /** The trace id a worker hands to the runner. */
  function TraceIdOf(row: Row): Option<string> {
    var f := ParseTraceparent(row.request.traceparent);
    if f.Some? then Some(f.value.traceId) else None
  }

  function DispatchedRow(row: Row, at: nat): Row {
    if row.status == Pending then row.(status := Dispatched, dispatchedAt := Some(at)) else row
  }

  /** UPDATE ... SET status = 'dispatched' WHERE id = ANY(ids) AND status = 'pending' */
  function MarkDispatched(t: Table, ids: set<JobId>, at: nat): Table {
    map id | id in t :: if id in ids then DispatchedRow(t[id], at) else t[id]
  }

  function CompletedRow(row: Row, at: nat): Row {
    row.(status := Completed, completedAt := Some(at), error := None)
  }

  /** UPDATE ... SET status = 'completed' WHERE id = id */
  function MarkCompleted(t: Table, id: JobId, at: nat): Table {
    if id in t then t[id := CompletedRow(t[id], at)] else t
  }

  function FirstChars(s: string, n: nat): (t: string)
    ensures t <= s && |t| == if |s| <= n then |s| else n
  {
    if |s| <= n then s else s[..n]
  }

  function FailedRow(row: Row, at: nat, message: string): Row {
    row.(status := Failed, attempts := row.attempts + 1, completedAt := Some(at),
         error := Some(FirstChars(message, MAX_ERROR)))
  }

  /** UPDATE ... SET status = 'failed', attempts = attempts + 1 WHERE id = id */
  function MarkFailed(t: Table, id: JobId, at: nat, message: string): Table {
    if id in t then t[id := FailedRow(t[id], at, message)] else t
  }

  /** WHERE status = 'dispatched' AND dispatched_at < NOW() - threshold */
  predicate Stale(row: Row, at: nat) {
    row.status == Dispatched && row.dispatchedAt.Some? && row.dispatchedAt.value + STUCK_THRESHOLD < at
  }

  function RecoveredRow(row: Row): Row {
    row.(status := Pending, dispatchedAt := None)
  }

  /** UPDATE ... SET status = 'pending', dispatched_at = NULL on the rows `ids` */
  function Recover(t: Table, ids: set<JobId>): Table {
    map id | id in t :: if id in ids then RecoveredRow(t[id]) else t[id]
  }

  predicate Claimable(t: Table, locked: set<JobId>, id: JobId) {
    id in t && t[id].status == Pending && id !in locked
  }

  predicate NoRepeats<T(==)>(s: seq<T>) {
    forall i, j | 0 <= i < j < |s| :: s[i] != s[j]
  }

  /** SELECT ... WHERE status = 'pending' ORDER BY created_at FOR UPDATE SKIP LOCKED LIMIT n */
  ghost predicate IsClaim(t: Table, locked: set<JobId>, n: nat, batch: seq<JobId>) {
    && |batch| <= n && NoRepeats(batch)
    && (forall i | 0 <= i < |batch| :: Claimable(t, locked, batch[i]))
    && (forall i, j | 0 <= i < j < |batch| :: t[batch[i]].createdAt <= t[batch[j]].createdAt)
    && (forall id | Claimable(t, locked, id) && id !in batch ::
          |batch| == n && forall i | 0 <= i < n :: t[batch[i]].createdAt <= t[id].createdAt)
  }

  /** A claim in plain words: different rows, pending and unlocked, oldest first; a row left out is no older
      than any of them, and none is left out unless the claim is full. */
  lemma ClaimMeans(t: Table, locked: set<JobId>, n: nat, batch: seq<JobId>)
    requires IsClaim(t, locked, n, batch)
    ensures |batch| <= n
    ensures forall id | id in batch :: id in t && t[id].status == Pending && id !in locked
    ensures forall i, j | 0 <= i < j < |batch| :: batch[i] != batch[j] && t[batch[i]].createdAt <= t[batch[j]].createdAt
    ensures forall id | id in t && t[id].status == Pending && id !in locked && id !in batch ::
              |batch| == n && forall i | 0 <= i < n :: t[batch[i]].createdAt <= t[id].createdAt
  {
    forall id | id in batch ensures Claimable(t, locked, id) {
      var i :| 0 <= i < |batch| && batch[i] == id;
    }
    forall id | id in t && t[id].status == Pending && id !in locked && id !in batch
      ensures |batch| == n && forall i | 0 <= i < n :: t[batch[i]].createdAt <= t[id].createdAt
    {
      assert Claimable(t, locked, id);
    }
  }

  function IdsOf(batch: seq<JobId>): set<JobId> { set id | id in batch }

  // ---- tasks ----

  datatype Task = RunCasePipeline | RunWhatifScenario | RunStabilityComputation | RunGate | RunIntakeExtraction | RunDocumentParse

  /** TASK_BY_JOB_TYPE */
  function TaskByJobType(t: JobType): Task {
    match t
    case CasePipeline => RunCasePipeline
    case WhatifScenario => RunWhatifScenario
    case StabilityComputation => RunStabilityComputation
    case GateRun => RunGate
    case IntakeExtraction => RunIntakeExtraction
    case DocumentParse => RunDocumentParse
  }

  /** The `expected_type` each task function passes on. */
  function ExpectedType(t: Task): JobType {
    match t
    case RunCasePipeline => CasePipeline
    case RunWhatifScenario => WhatifScenario
    case RunStabilityComputation => StabilityComputation
    case RunGate => GateRun
    case RunIntakeExtraction => IntakeExtraction
    case RunDocumentParse => DocumentParse
  }

  /** Redis side of `enqueue_job`: the job key already there makes the call a no-op. */
  function AddEntry(entries: map<JobId, Task>, id: JobId, task: Task): map<JobId, Task> {
    if id in entries then entries else entries[id := task]
  }

  function AddEntries(entries: map<JobId, Task>, t: Table, batch: seq<JobId>): map<JobId, Task>
    requires forall i | 0 <= i < |batch| :: batch[i] in t
  {
    if batch == [] then entries
    else
      var id := batch[|batch| - 1];
      AddEntry(AddEntries(entries, t, batch[..|batch| - 1]), id, TaskByJobType(t[id].request.jobType))
  }

  // ---- the routines ----

  datatype EnqueueOutcome = Sent | RaisedBefore | RaisedAfter

  class Arq {
    var entries: map<JobId, Task>

    constructor ()
      ensures entries == map[]
    {
      entries := map[];
    }

    /** Redis may accept the entry and the call may still raise. */
    method EnqueueJob(task: Task, id: JobId, outcome: EnqueueOutcome) returns (raised: bool)
      modifies this
      ensures raised <==> outcome != Sent
      ensures entries == if outcome == RaisedBefore then old(entries) else AddEntry(old(entries), id, task)
    {
      if outcome != RaisedBefore {
        entries := AddEntry(entries, id, task);
      }
      raised := outcome != Sent;
    }
  }

  /** How many entries Redis took when the `k`-th call was the first to raise. */
  function Accepted(redis: nat -> EnqueueOutcome, k: nat): nat {
    if redis(k) == RaisedAfter then k + 1 else k
  }

  datatype RunnerOutcome = Returned | Raised(message: string)

  datatype TaskOutcome = NotFound | AlreadyCompleted | TypeMismatch | RanToCompletion | RanAndFailed

  class JobTable {
    var rows: Table
    var locks: map<JobId, TxId>

    constructor ()
      ensures rows == map[] && locks == map[]
    {
      rows, locks := map[], map[];
    }

    method EnqueueOutboxJob(id: JobId, request: Request, span: SpanContext, now: nat)
      requires id !in rows
      modifies this`rows
      ensures rows.Keys == old(rows.Keys) + {id} && forall j | j in old(rows) :: rows[j] == old(rows)[j]
      ensures rows[id].status == Pending && rows[id].attempts == 0 && rows[id].createdAt == now
      ensures rows[id].dispatchedAt == rows[id].completedAt == None && rows[id].error == None
      ensures rows[id].request.(traceparent := None) == request.(traceparent := None)
      ensures rows[id].request.traceparent
              == if request.traceparent.Some? then request.traceparent else FormatTraceparent(span)
    {
      rows := rows[id := NewRow(Captured(request, span), now)];
    }

    /** Picks the oldest unlocked pending row, `batchSize` times at most, and locks each. */
    method ClaimPendingJobs(tx: TxId, batchSize: nat) returns (batch: seq<JobId>)
      modifies this`locks
      ensures IsClaim(rows, old(locks).Keys, batchSize, batch)
      ensures forall id | id in batch :: id in rows && rows[id].status == Pending && id !in old(locks)
      ensures forall i, j | 0 <= i < j < |batch| :: batch[i] != batch[j] && rows[batch[i]].createdAt <= rows[batch[j]].createdAt
      ensures |batch| <= batchSize
      ensures forall id | id in rows && rows[id].status == Pending && id !in old(locks) && id !in batch ::
                |batch| == batchSize && forall i | 0 <= i < batchSize :: rows[batch[i]].createdAt <= rows[id].createdAt
      ensures forall id :: id in locks <==> id in old(locks) || id in batch
      ensures forall id | id in locks :: locks[id] == if id in batch then tx else old(locks)[id]
    {
      batch := [];
      var free := set id | id in rows && rows[id].status == Pending && id !in locks;
      while |batch| < batchSize && free != {}
        invariant |batch| <= batchSize && Picking(rows, old(locks).Keys, batch, free)
        invariant locks == Locked(old(locks), batch, tx)
        decreases free
      {
        OldestExists(rows, free);
        var oldest :| IsOldest(rows, free, oldest);
        PickOne(rows, old(locks).Keys, batch, free, oldest);
        LockOne(old(locks), batch, oldest, tx);
        batch, free := batch + [oldest], free - {oldest};
        locks := locks[oldest := tx];
      }
      ClaimMeans(rows, old(locks).Keys, batchSize, batch);
    }

    method MarkDispatchedJobs(batch: seq<JobId>, at: nat)
      modifies this`rows
      ensures rows == MarkDispatched(old(rows), IdsOf(batch), at)
      ensures rows.Keys == old(rows.Keys)
      ensures forall id | id in old(rows) && id in batch && old(rows)[id].status == Pending ::
                rows[id] == old(rows)[id].(status := Dispatched, dispatchedAt := Some(at))
      ensures forall id | id in old(rows) && !(id in batch && old(rows)[id].status == Pending) :: rows[id] == old(rows)[id]
    {
      if batch != [] {
        rows := MarkDispatched(rows, IdsOf(batch), at);
      }
    }

    method RecoverStuckJobs(now: nat) returns (ids: set<JobId>)
      modifies this`rows
      ensures forall id :: id in ids <==>
                id in old(rows) && old(rows)[id].status == Dispatched
                && old(rows)[id].dispatchedAt.Some? && old(rows)[id].dispatchedAt.value + 1200 < now
      ensures rows.Keys == old(rows.Keys)
      ensures forall id | id in ids :: rows[id] == old(rows)[id].(status := Pending, dispatchedAt := None)
      ensures forall id | id in old(rows) && id !in ids :: rows[id] == old(rows)[id]
    {
      ids := set id | id in rows && Stale(rows[id], now);
      rows := Recover(rows, ids);
    }

    method Release(ids: seq<JobId>)
      modifies this`locks
      ensures locks == old(locks) - IdsOf(ids)
    {
      locks := locks - IdsOf(ids);
    }

    /** The enqueue loop: `sent` entries are known to be in Redis when it ends. */
    method EnqueueBatch(arq: Arq, batch: seq<JobId>, redis: nat -> EnqueueOutcome) returns (sent: nat)
      requires forall id | id in batch :: id in rows
      modifies arq
      ensures sent <= |batch| && (forall i | 0 <= i < sent :: redis(i) == Sent)
      ensures sent == |batch| ==> arq.entries == AddEntries(old(arq.entries), rows, batch)
      ensures sent < |batch| ==> redis(sent) != Sent
      ensures sent < |batch| ==> arq.entries == AddEntries(old(arq.entries), rows, batch[..Accepted(redis, sent)])
    {
      sent := 0;
      assert batch[..0] == [];
      while sent < |batch|
        invariant sent <= |batch| && forall i | 0 <= i < sent :: redis(i) == Sent
        invariant arq.entries == AddEntries(old(arq.entries), rows, batch[..sent])
      {
        assert batch[..sent + 1][..sent] == batch[..sent];
        var raised := arq.EnqueueJob(TaskByJobType(rows[batch[sent]].request.jobType), batch[sent], redis(sent));
        if raised {
          return;
        }
        sent := sent + 1;
      }
      assert batch[..sent] == batch;
    }

    /** Claim, enqueue, mark dispatched, commit. `redis` says how each enqueue call ends. */
    method DispatchBatch(arq: Arq, tx: TxId, now: nat, redis: nat -> EnqueueOutcome)
      returns (r: Result<nat, nat>, batch: seq<JobId>)
      modifies this, arq
      ensures IsClaim(old(rows), old(locks).Keys, 10, batch)
      ensures locks == old(locks)
      ensures r.Success? ==> r.value == |batch| && rows == MarkDispatched(old(rows), IdsOf(batch), now)
                             && arq.entries == AddEntries(old(arq.entries), old(rows), batch)
      ensures r.Failure? ==> rows == old(rows) && r.error < |batch| && redis(r.error) != Sent
                             && arq.entries == AddEntries(old(arq.entries), old(rows), batch[..Accepted(redis, r.error)])
      ensures r.Success? <==> forall i | 0 <= i < |batch| :: redis(i) == Sent
    {
      batch := ClaimPendingJobs(tx, BATCH_SIZE);
      forall id | id in batch ensures id in rows && id !in old(locks) {
        var i :| 0 <= i < |batch| && batch[i] == id;
        assert Claimable(rows, old(locks).Keys, batch[i]);
      }
      assert locks - IdsOf(batch) == old(locks);
      if batch == [] {
        assert MarkDispatched(rows, IdsOf(batch), now) == rows;
        return Success(0), batch;
      }
      var sent := EnqueueBatch(arq, batch, redis);
      if sent < |batch| {
        Release(batch);
        return Failure(sent), batch;
      }
      MarkDispatchedJobs(batch, now);
      Release(batch);
      r := Success(|batch|);
    }

    /** One task run: load, check, run, then the final update; the runner's effects are elsewhere. */
    method RunWithOutbox(id: JobId, expected: JobType, runner: RunnerOutcome, now: nat)
      returns (r: TaskOutcome, traceId: Option<string>)
      modifies this`rows
      ensures r.NotFound? <==> id !in old(rows)
      ensures r.AlreadyCompleted? <==> id in old(rows) && old(rows)[id].status == Completed
      ensures r.TypeMismatch? <==> id in old(rows) && old(rows)[id].status != Completed && old(rows)[id].request.jobType != expected
      ensures r.RanToCompletion? ==> runner.Returned? && id in old(rows)
      ensures r.RanToCompletion? ==>
                rows == old(rows)[id := old(rows)[id].(status := Completed, completedAt := Some(now), error := None)]
      ensures r.RanAndFailed? ==> runner.Raised? && id in old(rows)
      ensures r.RanAndFailed? ==>
                rows == old(rows)[id := old(rows)[id].(status := Failed, attempts := old(rows)[id].attempts + 1,
                  completedAt := Some(now), error := Some(FirstChars(runner.message, 1000)))]
      ensures !r.RanToCompletion? && !r.RanAndFailed? ==> rows == old(rows) && traceId == None
      ensures r.RanToCompletion? || r.RanAndFailed? ==> traceId == TraceIdOf(old(rows)[id])
    {
      traceId := None;
      if id !in rows {
        return NotFound, None;
      }
      if rows[id].status == Completed {
        return AlreadyCompleted, None;
      }
      if rows[id].request.jobType != expected {
        return TypeMismatch, None;
      }
      var parent := SpanContextFrom(rows[id].request.traceparent);
      if parent.Some? {
        traceId := Some(ParseTraceparent(rows[id].request.traceparent).value.traceId);
      }
      match runner
      case Raised(message) =>
        rows := MarkFailed(rows, id, now, message);
        r := RanAndFailed;
      case Returned =>
        rows := MarkCompleted(rows, id, now);
        r := RanToCompletion;
    }
  }

  // ---- claiming ----

  predicate IsOldest(t: Table, ids: set<JobId>, x: JobId)
    requires forall id | id in ids :: id in t
  {
    x in ids && forall id | id in ids :: t[x].createdAt <= t[id].createdAt
  }

  /** Some row of a non-empty set of rows is the oldest. */
  lemma {:induction false} OldestExists(t: Table, ids: set<JobId>)
    requires ids != {} && forall id | id in ids :: id in t
    ensures exists x :: IsOldest(t, ids, x)
    decreases ids
  {
    var x :| x in ids;
    var rest := ids - {x};
    assert rest + {x} == ids;
    if rest == {} {
      assert IsOldest(t, ids, x);
    } else {
      OldestExists(t, rest);
      var y :| IsOldest(t, rest, y);
      OlderOf(t, rest, x, y);
    }
  }

  lemma OlderOf(t: Table, rest: set<JobId>, x: JobId, y: JobId)
    requires x in t && (forall id | id in rest :: id in t) && IsOldest(t, rest, y)
    ensures IsOldest(t, rest + {x}, if t[x].createdAt <= t[y].createdAt then x else y)
  {
  }

  /** `batch` is the oldest part of the claimable rows, `free` the others. */
  ghost predicate Picking(t: Table, locked: set<JobId>, batch: seq<JobId>, free: set<JobId>) {
    && (forall id | id in free :: Claimable(t, locked, id))
    && (forall id | Claimable(t, locked, id) :: id in free || id in batch)
    && NoRepeats(batch)
    && (forall i | 0 <= i < |batch| :: Claimable(t, locked, batch[i]) && batch[i] !in free)
    && (forall i, j | 0 <= i < j < |batch| :: t[batch[i]].createdAt <= t[batch[j]].createdAt)
    && (forall i, id | 0 <= i < |batch| && id in free :: t[batch[i]].createdAt <= t[id].createdAt)
  }

  lemma PickOne(t: Table, locked: set<JobId>, batch: seq<JobId>, free: set<JobId>, x: JobId)
    requires Picking(t, locked, batch, free) && IsOldest(t, free, x)
    ensures Picking(t, locked, batch + [x], free - {x})
  {
    var longer := batch + [x];
    forall id | Claimable(t, locked, id) ensures id in free - {x} || id in longer {
      assert longer[|batch|] == x;
    }
  }

  /** The locks with those of a batch added. */
  function Locked(locks: map<JobId, TxId>, batch: seq<JobId>, tx: TxId): map<JobId, TxId> {
    locks + map id | id in batch :: tx
  }

  lemma LockOne(locks: map<JobId, TxId>, batch: seq<JobId>, x: JobId, tx: TxId)
    ensures Locked(locks, batch + [x], tx) == Locked(locks, batch, tx)[x := tx]
  {
    assert forall id :: id in batch + [x] <==> id in batch || id == x;
  }

  // ---- what the routines mean ----

  /** The dispatcher never sends a row to a task of another job type, nor two types to one task. */
  lemma TasksMatchTypes(t: JobType, u: JobType)
    ensures ExpectedType(TaskByJobType(t)) == t
    ensures TaskByJobType(t) == TaskByJobType(u) ==> t == u
  {
  }

  lemma {:induction false} BatchKeys(entries: map<JobId, Task>, t: Table, batch: seq<JobId>)
    requires forall i | 0 <= i < |batch| :: batch[i] in t
    ensures AddEntries(entries, t, batch).Keys == entries.Keys + IdsOf(batch)
    ensures forall id | id in entries :: AddEntries(entries, t, batch)[id] == entries[id]
  {
    if batch != [] {
      BatchKeys(entries, t, batch[..|batch| - 1]);
    }
  }

  /** Enqueueing a batch adds exactly the missing entries, each under its row's own task, and leaves
      the entries that were there. */
  lemma {:induction false} BatchEntries(entries: map<JobId, Task>, t: Table, batch: seq<JobId>)
    requires forall i | 0 <= i < |batch| :: batch[i] in t
    ensures AddEntries(entries, t, batch).Keys == entries.Keys + IdsOf(batch)
    ensures forall id | id in entries :: AddEntries(entries, t, batch)[id] == entries[id]
    ensures forall id | id in IdsOf(batch) && id !in entries ::
              ExpectedType(AddEntries(entries, t, batch)[id]) == t[id].request.jobType
  {
    BatchKeys(entries, t, batch);
    if batch != [] {
      var front := batch[..|batch| - 1];
      BatchEntries(entries, t, front);
      TasksMatchTypes(t[batch[|batch| - 1]].request.jobType, t[batch[|batch| - 1]].request.jobType);
    }
  }

  /** The trace of the request that wrote a job reaches its runner, whatever became of the row. */
  lemma TraceReachesRunner(request: Request, span: SpanContext, row: Row)
    requires IsValid(span) && span.flags < 256 && request.traceparent.None?
    requires row.request == Captured(request, span)
    ensures TraceIdOf(row) == Some(Hex(span.traceId, 32))
    ensures SpanContextFrom(row.request.traceparent) == Some(span)
  {
    FormatThenParse(span);
  }

  /** A batch that failed part-way, tried again, leaves the queue a single clean pass would. */
  lemma {:induction false} RetryAfterPartialBatch(entries: map<JobId, Task>, t: Table, batch: seq<JobId>, k: nat)
    requires k <= |batch| && forall i | 0 <= i < |batch| :: batch[i] in t
    ensures AddEntries(AddEntries(entries, t, batch[..k]), t, batch) == AddEntries(entries, t, batch)
  {
    if batch == [] {
    } else if k == |batch| {
      assert batch[..k] == batch;
      ReAdd(AddEntries(entries, t, batch), t, batch, |batch|) by { BatchEntries(entries, t, batch); }
    } else {
      var front := batch[..|batch| - 1];
      assert front[..k] == batch[..k];
      RetryAfterPartialBatch(entries, t, front, k);
    }
  }

  lemma {:induction false} ReAdd(entries: map<JobId, Task>, t: Table, batch: seq<JobId>, k: nat)
    requires k <= |batch| && (forall i | 0 <= i < |batch| :: batch[i] in t) && IdsOf(batch) <= entries.Keys
    ensures AddEntries(entries, t, batch[..k]) == entries
  {
    if k > 0 {
      assert batch[..k][..k - 1] == batch[..k - 1];
      assert batch[k - 1] in IdsOf(batch);
      ReAdd(entries, t, batch, k - 1);
    }
  }
}
