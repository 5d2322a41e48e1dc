/**
 What a row of the outbox tells of the run behind it: when it was last dispatched, how often it failed,
 how it ended. The numbers and columns are written out.
 */
module OutboxHistory {
  import opened Wrappers
  import opened PipelineJobs
  import opened OutboxProtocol
  import opened OutboxSafety

  /** The step commits row `id` to dispatched. */
  predicate Dispatches(s: State, step: Step, id: JobId) {
    step.CommitDispatch? && step.tx in s.txs && id in s.txs[step.tx].Held()
  }

  /** The step is the final update of a run of the row. */
  predicate Ends(step: Step, id: JobId) {
    step.RunStep? && step.id == id && (step.action.Succeed? || step.action.Fail?)
  }

  function Failures(steps: seq<Step>, id: JobId): nat {
    if steps == [] then 0
    else
      var last := steps[|steps| - 1];
      Failures(steps[..|steps| - 1], id) + if last.RunStep? && last.id == id && last.action.Fail? then 1 else 0
  }

  // ---- one step ----

  /** What happens to the columns of a row in one step. */
  lemma ColumnsStep(s: State, step: Step, id: JobId)
    requires Inv(s) && Enabled(s, step) && id in s.jobs
    ensures var before, after := s.jobs[id].row, Effect(s, step, id).row;
            && (Dispatches(s, step, id) ==>
                  before.status == Pending && after == before.(status := Dispatched, dispatchedAt := Some(s.txs[step.tx].startedAt)))
            && (!Dispatches(s, step, id) && after.status == Dispatched ==> after == before)
            && (after.status == Pending ==> after == before || after == before.(status := Pending, dispatchedAt := None))
            && (after.status == Pending && after != before ==> before.status == Dispatched)
  {
    if (step.CommitDispatch? || step.CommitRecover?) && id in s.txs[step.tx].Held() {
      HeldIs(s, step.tx, id);
    }
  }

  lemma EndStep(s: State, step: Step, id: JobId)
    requires Inv(s) && Enabled(s, step) && id in s.jobs
    ensures var before, after := s.jobs[id].row, Effect(s, step, id).row;
            && after.attempts == before.attempts + (if Ends(step, id) && step.action.Fail? then 1 else 0)
            && (Ends(step, id) ==> EndedBy(after, step, s.now))
            && (!Ends(step, id) && (after.status == Completed || after.status == Failed) ==> after == before)
  {
    if (step.CommitDispatch? || step.CommitRecover?) && id in s.txs[step.tx].Held() {
      HeldIs(s, step.tx, id);
    }
  }

  /** The row as a final update at `now` leaves it. */
  predicate EndedBy(row: Row, step: Step, now: nat)
    requires step.RunStep?
  {
    && row.completedAt == Some(now)
    && (step.action.Succeed? ==> row.status == Completed && row.error == None)
    && (step.action.Fail? ==>
          && row.status == Failed
          && row.error == Some(FirstChars(step.action.message, 1000)))
  }

  /** A row is new, or was there before the step. */
  lemma RowBefore(run: seq<State>, steps: seq<Step>, i: nat, id: JobId)
    requires IsRun(run, steps) && 0 < i < |run| && id in run[i].jobs
    ensures Inv(run[i - 1]) && Enabled(run[i - 1], steps[i - 1])
    ensures id in run[i - 1].jobs ==> run[i].jobs[id] == Effect(run[i - 1], steps[i - 1], id)
    ensures id !in run[i - 1].jobs ==> run[i].jobs[id].row.status == Pending && run[i].jobs[id].row.attempts == 0
                                       && run[i].jobs[id].row.dispatchedAt == None && run[i].jobs[id].row.completedAt == None
                                       && run[i].jobs[id].row.error == None
  {
    var s, step := run[i - 1], steps[i - 1];
    RunInv(run, steps, i - 1);
    EffectIs(s, step);
    if id !in s.jobs {
      assert run[i].jobs[id] == NewJob(step.requests[id], s.txs[step.tx].startedAt);
    }
  }

  /** The step hands the row to arq, and Redis takes it. */
  predicate Enqueues(s: State, step: Step, id: JobId) {
    && (step.EnqueueNext? || (step.EnqueueRaise? && step.accepted))
    && HasNext(s, step.tx) && NextId(s, step.tx) == id
  }

  /** The step ends the row's entry: its run is retired, or lost without being delivered again, or arq
      drops it from the queue. */
  predicate DropsEntry(step: Step, id: JobId) {
    step.RunStep? && step.id == id
    && (step.action.Retire? || step.action.LoseEntry? || (step.action.Cut? && !step.action.redeliver))
  }

  /** A row has no entry after a step exactly when the step ended it, or it had none and is not enqueued. */
  lemma EntryGoneIff(s: State, step: Step, id: JobId)
    requires Enabled(s, step) && id in s.jobs
    ensures Effect(s, step, id).entry.NoEntry? <==>
              DropsEntry(step, id) || (s.jobs[id].entry.NoEntry? && !Enqueues(s, step, id))
  {
  }

  // ---- over whole runs ----

  /** A dispatched row was dispatched in the last step, or stood already. */
  lemma DispatchBefore(run: seq<State>, steps: seq<Step>, i: nat, id: JobId)
    requires IsRun(run, steps) && 0 < i < |run| && id in run[i].jobs && run[i].jobs[id].row.status == Dispatched
    ensures Dispatches(run[i - 1], steps[i - 1], id) ==>
              run[i].jobs[id].row.dispatchedAt == Some(run[i - 1].txs[steps[i - 1].tx].startedAt)
    ensures !Dispatches(run[i - 1], steps[i - 1], id) ==>
              id in run[i - 1].jobs && run[i - 1].jobs[id].row == run[i].jobs[id].row
  {
    RowBefore(run, steps, i, id);
    if id in run[i - 1].jobs {
      ColumnsStep(run[i - 1], steps[i - 1], id);
    }
  }

  /** A dispatched row bears the time of the transaction that last committed it to dispatched. */
  lemma {:induction false} LastDispatch(run: seq<State>, steps: seq<Step>, i: nat, id: JobId) returns (d: nat)
    requires IsRun(run, steps) && i < |run| && id in run[i].jobs && run[i].jobs[id].row.status == Dispatched
    ensures d < i && Dispatches(run[d], steps[d], id)
    ensures run[i].jobs[id].row.dispatchedAt == Some(run[d].txs[steps[d].tx].startedAt)
    ensures forall k | d < k < i :: !Dispatches(run[k], steps[k], id)
  {
    assert i > 0;
    DispatchBefore(run, steps, i, id);
    if Dispatches(run[i - 1], steps[i - 1], id) {
      d := i - 1;
    } else {
      d := LastDispatch(run, steps, i - 1, id);
    }
  }

  /** On every run: a row is taken back to pending only by a recovery that started more than 1200 seconds
      after the transaction that last dispatched it. */
  lemma RecoveredAfterThreshold(run: seq<State>, steps: seq<Step>, j: nat, id: JobId) returns (d: nat)
    requires IsRun(run, steps) && j < |steps| && steps[j].CommitRecover? && id in run[j].txs[steps[j].tx].Held()
    ensures d < j && Dispatches(run[d], steps[d], id) && forall k | d < k < j :: !Dispatches(run[k], steps[k], id)
    ensures run[d].txs[steps[d].tx].startedAt + 1200 < run[j].txs[steps[j].tx].startedAt
  {
    RunInv(run, steps, j);
    HeldIs(run[j], steps[j].tx, id);
    d := LastDispatch(run, steps, j, id);
  }

  /** In every state of every run the attempts of a row are its committed failures. */
  lemma {:induction false} AttemptsAreFailures(run: seq<State>, steps: seq<Step>, i: nat, id: JobId)
    requires IsRun(run, steps) && i < |run|
    ensures id in run[i].jobs ==> run[i].jobs[id].row.attempts == Failures(steps[..i], id)
    ensures id !in run[i].jobs ==> Failures(steps[..i], id) == 0
  {
    if i > 0 {
      AttemptsAreFailures(run, steps, i - 1, id);
      assert steps[..i][..i - 1] == steps[..i - 1];
      EffectIs(run[i - 1], steps[i - 1]);
      if id in run[i].jobs {
        RowBefore(run, steps, i, id);
      }
      if id in run[i - 1].jobs {
        EndStep(run[i - 1], steps[i - 1], id);
      }
    }
  }

  /** A row that has ended ended in the last step, or stood already. */
  lemma EndBefore(run: seq<State>, steps: seq<Step>, i: nat, id: JobId)
    requires IsRun(run, steps) && 0 < i < |run| && id in run[i].jobs
    requires run[i].jobs[id].row.status == Completed || run[i].jobs[id].row.status == Failed
    ensures Ends(steps[i - 1], id) ==> EndedBy(run[i].jobs[id].row, steps[i - 1], run[i - 1].now)
    ensures !Ends(steps[i - 1], id) ==> id in run[i - 1].jobs && run[i - 1].jobs[id].row == run[i].jobs[id].row
  {
    RowBefore(run, steps, i, id);
    EndStep(run[i - 1], steps[i - 1], id);
  }

  /** A completed or failed row tells of its last final update: when it was, how it went, and of a failure
      the first thousand characters of the message. */
  lemma {:induction false} LastEnd(run: seq<State>, steps: seq<Step>, i: nat, id: JobId) returns (e: nat)
    requires IsRun(run, steps) && i < |run| && id in run[i].jobs
    requires run[i].jobs[id].row.status == Completed || run[i].jobs[id].row.status == Failed
    ensures e < i && Ends(steps[e], id) && EndedBy(run[i].jobs[id].row, steps[e], run[e].now)
    ensures forall k | e < k < i :: !Ends(steps[k], id)
  {
    assert i > 0;
    EndBefore(run, steps, i, id);
    if Ends(steps[i - 1], id) {
      e := i - 1;
    } else {
      e := LastEnd(run, steps, i - 1, id);
    }
  }

  /** Pending or dispatched, the row bears no trace of an end; pending, none of a dispatch. */
  predicate Unended(row: Row) {
    && (row.status == Pending || row.status == Dispatched ==>
          row.completedAt == None && row.error == None && row.attempts == 0)
    && (row.status == Pending ==> row.dispatchedAt == None)
  }

  lemma UnendedStep(s: State, step: Step, id: JobId)
    requires Inv(s) && Enabled(s, step) && id in s.jobs && Unended(s.jobs[id].row)
    ensures Unended(Effect(s, step, id).row)
  {
    ColumnsStep(s, step, id);
  }

  lemma UnendedBefore(run: seq<State>, steps: seq<Step>, i: nat, id: JobId)
    requires IsRun(run, steps) && 0 < i < |run| && id in run[i].jobs
    requires id in run[i - 1].jobs ==> Unended(run[i - 1].jobs[id].row)
    ensures Unended(run[i].jobs[id].row)
  {
    RowBefore(run, steps, i, id);
    if id in run[i - 1].jobs {
      UnendedStep(run[i - 1], steps[i - 1], id);
    }
  }

  /** On every run. */
  lemma {:induction false} NotEnded(run: seq<State>, steps: seq<Step>, i: nat, id: JobId)
    requires IsRun(run, steps) && i < |run| && id in run[i].jobs
    ensures Unended(run[i].jobs[id].row)
  {
    assert i > 0;
    if id in run[i - 1].jobs {
      NotEnded(run, steps, i - 1, id);
    }
    UnendedBefore(run, steps, i, id);
  }

  /** A claim on any run: at most ten rows, all different, pending and unlocked, oldest first; whatever
      else is pending and unlocked is no older than any of them, and is left only by a full batch. */
  lemma ClaimTakesOldest(run: seq<State>, steps: seq<Step>, i: nat)
    requires IsRun(run, steps) && i < |steps| && steps[i].Claim?
    ensures var s, batch := run[i], steps[i].batch;
            && 1 <= |batch| <= 10
            && (forall k | 0 <= k < |batch| ::
                  batch[k] in s.jobs && s.jobs[batch[k]].row.status == Pending && s.jobs[batch[k]].lock == None)
            && (forall k, l | 0 <= k < l < |batch| :: batch[k] != batch[l] && s.jobs[batch[k]].row.createdAt <= s.jobs[batch[l]].row.createdAt)
            && (forall id | id in s.jobs && s.jobs[id].row.status == Pending && s.jobs[id].lock == None && id !in batch ::
                  |batch| == 10 && forall k | 0 <= k < 10 :: s.jobs[batch[k]].row.createdAt <= s.jobs[id].row.createdAt)
  {
    var s, batch := run[i], steps[i].batch;
    var t, locked := TableOf(s), LockedIds(s);
    ClaimMeans(t, locked, BATCH_SIZE, batch);
    forall k | 0 <= k < |batch|
      ensures batch[k] in s.jobs && s.jobs[batch[k]].row == t[batch[k]] && s.jobs[batch[k]].lock == None
    {
      assert batch[k] in batch;
    }
    forall id | id in s.jobs && s.jobs[id].lock == None ensures id in t && id !in locked && t[id] == s.jobs[id].row {}
  }
}
