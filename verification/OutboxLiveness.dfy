/**
 Liveness of the outbox protocol: in every fair infinite behaviour in which faults cease, each row is
 eventually completed or failed. Fairness is stated participant by participant; no schedule is chosen.
 */
module OutboxLiveness {
  import opened Wrappers
  import opened PipelineJobs
  import opened OutboxProtocol
  import opened OutboxSafety
  import opened OutboxProgress

  type Run = nat -> State
  type Schedule = nat -> Step

  ghost predicate StepsAt(run: Run, steps: Schedule, i: nat) {
    Enabled(run(i), steps(i)) && run(i + 1) == Apply(run(i), steps(i))
  }

  ghost predicate IsBehaviour(run: Run, steps: Schedule) {
    Init(run(0)) && forall i: nat :: StepsAt(run, steps, i)
  }

  predicate NoFaultAt(steps: Schedule, i: nat) { !IsFault(steps(i)) }

  ghost predicate FaultFreeFrom(steps: Schedule, n: nat) {
    forall i: nat | n <= i :: NoFaultAt(steps, i)
  }

  // ---- fairness ----

  /** A step of transaction `x` itself. */
  predicate OfTx(step: Step, x: TxId) {
    match step
    case EnqueueNext(y) => x == y
    case EnqueueRaise(y, _) => x == y
    case CommitDispatch(y) => x == y
    case Abort(y) => x == y
    case CommitRecover(y) => x == y
    case CommitInsert(y, _) => x == y
    case _ => false
  }

  /** An action of the row's task run, other than a fault. */
  predicate IsProgress(step: Step, id: JobId) { step.RunStep? && step.id == id && !IsFault(step) }

  /** The row's task run can act: its entry is live, and its final update need not wait for a lock. */
  predicate CanProgress(s: State, id: JobId) {
    && id in s.jobs && !s.jobs[id].entry.NoEntry?
    && !(s.jobs[id].entry.Active? && s.jobs[id].entry.pc.Running? && s.jobs[id].lock.Some?)
  }

  predicate Recoverable(s: State, id: JobId) {
    id in s.jobs && Stale(s.jobs[id].row, s.now) && s.jobs[id].lock.None?
  }

  ghost predicate ClockAdvancesAt(run: Run, i: nat) {
    exists k: nat :: i <= k && run(i).now < run(k).now
  }

  /** Who opened a transaction goes on with it. */
  ghost predicate TxContinuesAt(run: Run, steps: Schedule, i: nat, x: TxId) {
    x in run(i).txs ==> exists k: nat :: i <= k && OfTx(steps(k), x)
  }

  /** Some dispatcher claims, unless nothing stays claimable. */
  ghost predicate ClaimHappensAt(run: Run, steps: Schedule, i: nat) {
    exists k: nat :: i <= k && (steps(k).Claim? || Waiting(run(k)) == {})
  }

  predicate TakenByRecovery(step: Step, id: JobId) { step.RecoverBegin? && id in step.ids }

  /** A recovery tick takes the row if it stays recoverable. */
  ghost predicate RecoveryHappensAt(run: Run, steps: Schedule, i: nat, id: JobId) {
    exists k: nat :: i <= k && (TakenByRecovery(steps(k), id) || !Recoverable(run(k), id))
  }

  /** A task run that can act again and again acts again (it gets its row lock in the end). */
  ghost predicate RunActsAt(run: Run, steps: Schedule, i: nat, id: JobId) {
    || (exists k: nat :: i <= k && IsProgress(steps(k), id))
    || (exists m: nat :: i <= m && Idle(run, id, m))
  }

  ghost predicate Idle(run: Run, id: JobId, m: nat) {
    forall k: nat | m <= k :: !CanProgress(run(k), id)
  }

  ghost predicate Fair(run: Run, steps: Schedule) {
    && (forall i: nat :: ClockAdvancesAt(run, i))
    && (forall i: nat, x :: TxContinuesAt(run, steps, i, x))
    && (forall i: nat :: ClaimHappensAt(run, steps, i))
    && (forall i: nat, id :: RecoveryHappensAt(run, steps, i, id))
    && (forall i: nat, id :: RunActsAt(run, steps, i, id))
  }

  /** What is assumed of a behaviour from `n` on. */
  ghost predicate Good(run: Run, steps: Schedule, n: nat) {
    IsBehaviour(run, steps) && FaultFreeFrom(steps, n) && Fair(run, steps)
  }

  // ---- what persists ----

  lemma {:induction false} AlwaysInv(run: Run, steps: Schedule, i: nat)
    requires IsBehaviour(run, steps)
    ensures Inv(run(i))
  {
    if i > 0 {
      AlwaysInv(run, steps, i - 1);
      assert StepsAt(run, steps, i - 1);
      StepKeepsInv(run(i - 1), steps(i - 1));
    }
  }

  /** One step, seen from one row. */
  lemma StepAt(run: Run, steps: Schedule, i: nat, id: JobId)
    requires IsBehaviour(run, steps) && id in run(i).jobs
    ensures Inv(run(i)) && Enabled(run(i), steps(i)) && run(i + 1) == Apply(run(i), steps(i))
    ensures id in run(i + 1).jobs && run(i + 1).jobs[id] == Effect(run(i), steps(i), id)
  {
    AlwaysInv(run, steps, i);
    assert StepsAt(run, steps, i);
    EffectIs(run(i), steps(i));
  }

  predicate Ended(s: State, id: JobId) { id in s.jobs && Terminal(s.jobs[id].row) }

  predicate Busy(s: State, id: JobId) { id in s.jobs && !s.jobs[id].entry.NoEntry? }

  lemma {:induction false} Persists(run: Run, steps: Schedule, i: nat, k: nat, id: JobId)
    requires IsBehaviour(run, steps) && i <= k && id in run(i).jobs
    ensures id in run(k).jobs && run(k).jobs[id].row.createdAt == run(i).jobs[id].row.createdAt
    ensures Ended(run(i), id) ==> Ended(run(k), id)
    decreases k - i
  {
    if i < k {
      Persists(run, steps, i, k - 1, id);
      StepAt(run, steps, k - 1, id);
      StepStatus(run(k - 1), steps(k - 1), id);
    }
  }

  lemma {:induction false} ClockMonotone(run: Run, steps: Schedule, i: nat, k: nat)
    requires IsBehaviour(run, steps) && i <= k
    ensures run(i).now <= run(k).now
    decreases k - i
  {
    if i < k {
      ClockMonotone(run, steps, i, k - 1);
      assert StepsAt(run, steps, k - 1);
    }
  }

  lemma {:induction false} ClockReaches(run: Run, steps: Schedule, i: nat, at: nat) returns (k: nat)
    requires IsBehaviour(run, steps) && Fair(run, steps)
    ensures i <= k && at <= run(k).now
    decreases at - run(i).now
  {
    if at <= run(i).now {
      k := i;
    } else {
      assert ClockAdvancesAt(run, i);
      var m: nat :| i <= m && run(i).now < run(m).now;
      k := ClockReaches(run, steps, m, at);
    }
  }

  // ---- transactions end ----

  /** The next step of an open transaction, which finds it as it was. */
  lemma NextOfTx(run: Run, steps: Schedule, n: nat, i: nat, x: TxId) returns (k: nat)
    requires Good(run, steps, n) && x in run(i).txs
    ensures i <= k && OfTx(steps(k), x) && x in run(k).txs && run(k).txs[x] == run(i).txs[x]
  {
    assert TxContinuesAt(run, steps, i, x);
    var last: nat :| i <= last && OfTx(steps(last), x);
    k := i;
    while !OfTx(steps(k), x)
      invariant i <= k <= last && x in run(k).txs && run(k).txs[x] == run(i).txs[x]
      decreases last - k
    {
      assert StepsAt(run, steps, k);
      k := k + 1;
    }
  }

  function Remaining(tx: Tx): int { if tx.Dispatching? then |tx.batch| - tx.enqueued else 0 }

  /** The step commits the transaction. */
  predicate IsCommit(step: Step, x: TxId, tx: Tx) {
    match tx
    case Dispatching(_, _, _) => step == CommitDispatch(x)
    case Recovering(_, _) => step == CommitRecover(x)
    case Inserting(_) => step.CommitInsert? && step.tx == x
  }

  /** Every open transaction commits, with the rows it held all along. */
  lemma {:induction false} TxCommits(run: Run, steps: Schedule, n: nat, i: nat, x: TxId) returns (k: nat)
    requires Good(run, steps, n) && n <= i && x in run(i).txs
    ensures i <= k && x in run(k).txs && run(k).txs[x].Held() == run(i).txs[x].Held()
    ensures run(k).txs[x].Dispatching? == run(i).txs[x].Dispatching?
    ensures IsCommit(steps(k), x, run(i).txs[x])
    decreases Remaining(run(i).txs[x])
  {
    k := NextOfTx(run, steps, n, i, x);
    assert StepsAt(run, steps, k) && NoFaultAt(steps, k);
    if steps(k).EnqueueNext? {
      var m := k + 1;
      k := TxCommits(run, steps, n, m, x);
    }
  }

  lemma Holder(run: Run, steps: Schedule, i: nat, id: JobId) returns (x: TxId)
    requires IsBehaviour(run, steps) && id in run(i).jobs && run(i).jobs[id].lock.Some?
    ensures x in run(i).txs && id in run(i).txs[x].Held()
    ensures run(i).jobs[id].row.status == if run(i).txs[x].Dispatching? then Pending else Dispatched
  {
    AlwaysInv(run, steps, i);
    assert LockOk(run(i), id);
    x := run(i).jobs[id].lock.value;
    HeldIs(run(i), x, id);
  }

  lemma CommitAt(run: Run, steps: Schedule, m: nat, x: TxId, id: JobId)
    requires IsBehaviour(run, steps) && x in run(m).txs && id in run(m).txs[x].Held() && id in run(m).jobs
    requires steps(m) == if run(m).txs[x].Dispatching? then CommitDispatch(x) else CommitRecover(x)
    ensures id in run(m + 1).jobs && run(m + 1).jobs[id].lock.None?
    ensures run(m + 1).jobs[id].row.status == if run(m).txs[x].Dispatching? then Dispatched else Pending
  {
    StepAt(run, steps, m, id);
  }

  /** A locked row is freed, and is then dispatched or claimable. */
  lemma LockEnds(run: Run, steps: Schedule, n: nat, i: nat, id: JobId) returns (k: nat)
    requires Good(run, steps, n) && n <= i && id in run(i).jobs && run(i).jobs[id].lock.Some?
    ensures i <= k && id in run(k).jobs && run(k).jobs[id].lock.None?
    ensures run(k).jobs[id].row.status == if run(i).jobs[id].row.status == Pending then Dispatched else Pending
  {
    var x := Holder(run, steps, i, id);
    var m := TxCommits(run, steps, n, i, x);
    Persists(run, steps, i, m, id);
    CommitAt(run, steps, m, x, id);
    k := m + 1;
  }

  // ---- a live entry runs to its end ----

  lemma KeepsEntry(s: State, step: Step, id: JobId)
    requires Inv(s) && Enabled(s, step) && !IsFault(step) && id in s.jobs && !s.jobs[id].entry.NoEntry?
    requires !Terminal(Effect(s, step, id).row)
    ensures !Effect(s, step, id).entry.NoEntry?
    ensures Distance(Effect(s, step, id).entry) <= Distance(s.jobs[id].entry)
    ensures IsProgress(step, id) ==> Distance(Effect(s, step, id).entry) < Distance(s.jobs[id].entry)
  {
  }

  /** While the row has not ended, its entry stays and its run never falls back. */
  lemma {:induction false} EntryStays(run: Run, steps: Schedule, n: nat, i: nat, k: nat, id: JobId)
    requires Good(run, steps, n) && n <= i <= k && Busy(run(i), id)
    requires !Ended(run(k), id)
    ensures Busy(run(k), id)
    ensures Distance(run(k).jobs[id].entry) <= Distance(run(i).jobs[id].entry)
    decreases k - i
  {
    if i < k {
      Persists(run, steps, i, k - 1, id);
      Persists(run, steps, k - 1, k, id);
      EntryStays(run, steps, n, i, k - 1, id);
      StepAt(run, steps, k - 1, id);
      assert NoFaultAt(steps, k - 1);
      KeepsEntry(run(k - 1), steps(k - 1), id);
    }
  }

  /** A run that waits for a lock gets past it. */
  lemma Unblocked(run: Run, steps: Schedule, n: nat, i: nat, id: JobId) returns (k: nat)
    requires Good(run, steps, n) && n <= i && Busy(run(i), id)
    ensures i <= k && (Ended(run(k), id) || CanProgress(run(k), id))
  {
    if CanProgress(run(i), id) {
      k := i;
    } else {
      k := LockEnds(run, steps, n, i, id);
      if !Ended(run(k), id) {
        EntryStays(run, steps, n, i, k, id);
      }
    }
  }

  /** Until the row ends, its run acts again. */
  lemma NextProgress(run: Run, steps: Schedule, n: nat, i: nat, id: JobId) returns (k: nat)
    requires Good(run, steps, n) && n <= i && Busy(run(i), id)
    ensures i <= k && (Ended(run(k), id) || IsProgress(steps(k), id))
  {
    assert RunActsAt(run, steps, i, id);
    if j: nat :| i <= j && IsProgress(steps(j), id) {
      k := j;
    } else {
      var m: nat :| i <= m && Idle(run, id, m);
      k := m;
      if !Ended(run(m), id) {
        EntryStays(run, steps, n, i, m, id);
        k := Unblocked(run, steps, n, m, id);
      }
    }
  }

  lemma ProgressAt(run: Run, steps: Schedule, n: nat, m: nat, id: JobId)
    requires Good(run, steps, n) && n <= m && Busy(run(m), id) && IsProgress(steps(m), id) && !Ended(run(m + 1), id)
    ensures Busy(run(m + 1), id) && Distance(run(m + 1).jobs[id].entry) < Distance(run(m).jobs[id].entry)
  {
    StepAt(run, steps, m, id);
    assert NoFaultAt(steps, m);
    KeepsEntry(run(m), steps(m), id);
  }

  lemma {:induction false} EntryEnds(run: Run, steps: Schedule, n: nat, i: nat, id: JobId) returns (k: nat)
    requires Good(run, steps, n) && n <= i && Busy(run(i), id)
    ensures i <= k && Ended(run(k), id)
    decreases Distance(run(i).jobs[id].entry)
  {
    k := NextProgress(run, steps, n, i, id);
    if !Ended(run(k), id) {
      EntryStays(run, steps, n, i, k, id);
      var m := k + 1;
      if Ended(run(m), id) {
        k := m;
      } else {
        ProgressAt(run, steps, n, k, id);
        k := EntryEnds(run, steps, n, m, id);
      }
    }
  }

  // ---- a claimed row gets an entry ----

  lemma {:induction false} BatchReaches(run: Run, steps: Schedule, n: nat, i: nat, x: TxId, p: nat) returns (k: nat)
    requires Good(run, steps, n) && n <= i && IsDispatching(run(i), x) && run(i).txs[x].enqueued <= p < |run(i).txs[x].batch|
    ensures var id := run(i).txs[x].batch[p]; i <= k && Busy(run(k), id)
    decreases p - run(i).txs[x].enqueued
  {
    var m := NextOfTx(run, steps, n, i, x);
    assert StepsAt(run, steps, m) && NoFaultAt(steps, m);
    assert steps(m) == EnqueueNext(x);
    if run(i).txs[x].enqueued == p {
      k := m + 1;
    } else {
      k := BatchReaches(run, steps, n, m + 1, x, p);
    }
  }

  lemma ClaimedEnds(run: Run, steps: Schedule, n: nat, i: nat, p: nat) returns (k: nat)
    requires Good(run, steps, n) && n <= i && steps(i).Claim? && p < |steps(i).batch|
    ensures i <= k && Ended(run(k), steps(i).batch[p])
  {
    assert StepsAt(run, steps, i);
    var x := steps(i).tx;
    assert run(i + 1).txs[x] == Dispatching(run(i).now, steps(i).batch, 0);
    var m := BatchReaches(run, steps, n, i + 1, x, p);
    k := EntryEnds(run, steps, n, m, steps(i).batch[p]);
  }

  // ---- a waiting row meets a claim ----

  /** Pending and unlocked. */
  predicate Waits(s: State, id: JobId) {
    id in s.jobs && s.jobs[id].row.status == Pending && s.jobs[id].lock.None?
  }

  lemma WaitsOrEnds(run: Run, steps: Schedule, i: nat, id: JobId)
    requires IsBehaviour(run, steps) && Waits(run(i), id) && !steps(i).Claim?
    ensures Waits(run(i + 1), id) || Ended(run(i + 1), id)
  {
    StepAt(run, steps, i, id);
  }

  lemma NextClaim(run: Run, steps: Schedule, n: nat, i: nat) returns (k: nat)
    requires Good(run, steps, n)
    ensures i <= k && (steps(k).Claim? || forall id :: !Waits(run(k), id))
  {
    assert ClaimHappensAt(run, steps, i);
    k :| i <= k && (steps(k).Claim? || Waiting(run(k)) == {});
    if !steps(k).Claim? {
      forall id ensures !Waits(run(k), id) {
        assert id !in Waiting(run(k));
      }
    }
  }

  lemma MeetsClaim(run: Run, steps: Schedule, n: nat, i: nat, id: JobId) returns (k: nat)
    requires Good(run, steps, n) && Waits(run(i), id)
    ensures i <= k && (Ended(run(k), id) || (steps(k).Claim? && Waits(run(k), id)))
  {
    var last := NextClaim(run, steps, n, i);
    k := i;
    while k < last && !steps(k).Claim? && Waits(run(k), id)
      invariant i <= k <= last && (Waits(run(k), id) || Ended(run(k), id))
      decreases last - k
    {
      WaitsOrEnds(run, steps, k, id);
      k := k + 1;
    }
  }

  // ---- a dispatched row is recovered ----

  /** Ended, or with an entry, or claimable. */
  predicate Moving(s: State, id: JobId) { Ended(s, id) || Busy(s, id) || Waits(s, id) }

  predicate DispatchedAt(s: State, id: JobId, at: nat) {
    id in s.jobs && s.jobs[id].row.status == Dispatched && s.jobs[id].row.dispatchedAt == Some(at)
  }

  lemma DispatchedOrMoves(run: Run, steps: Schedule, i: nat, id: JobId, at: nat)
    requires IsBehaviour(run, steps) && DispatchedAt(run(i), id, at)
    ensures DispatchedAt(run(i + 1), id, at) || Moving(run(i + 1), id)
  {
    StepAt(run, steps, i, id);
  }

  /** From `i` up to `last` the row stays dispatched, or moves. */
  lemma DispatchedUntil(run: Run, steps: Schedule, i: nat, last: nat, id: JobId, at: nat) returns (k: nat)
    requires IsBehaviour(run, steps) && i <= last && DispatchedAt(run(i), id, at)
    ensures i <= k <= last && (Moving(run(k), id) || (k == last && DispatchedAt(run(k), id, at)))
  {
    k := i;
    while k < last && DispatchedAt(run(k), id, at)
      invariant i <= k <= last && (DispatchedAt(run(k), id, at) || Moving(run(k), id))
      decreases last - k
    {
      DispatchedOrMoves(run, steps, k, id, at);
      k := k + 1;
    }
  }

  lemma DispatchedMoves(run: Run, steps: Schedule, n: nat, i: nat, id: JobId) returns (k: nat)
    requires Good(run, steps, n) && n <= i && id in run(i).jobs && run(i).jobs[id].row.status == Dispatched
    ensures i <= k && Moving(run(k), id)
  {
    AlwaysInv(run, steps, i);
    assert JobOk(run(i).jobs[id], run(i).now);
    var at := run(i).jobs[id].row.dispatchedAt.value;
    var late := ClockReaches(run, steps, i, at + STUCK_THRESHOLD + 1);
    k := DispatchedUntil(run, steps, i, late, id, at);
    if !Moving(run(k), id) {
      assert RecoveryHappensAt(run, steps, late, id);
      var taken: nat :| late <= taken && (TakenByRecovery(steps(taken), id) || !Recoverable(run(taken), id));
      k := DispatchedUntil(run, steps, late, taken, id, at);
      if !Moving(run(k), id) {
        ClockMonotone(run, steps, late, taken);
        k := RecoveryTakes(run, steps, n, taken, id, at);
      }
    }
  }

  lemma RecoveryTakes(run: Run, steps: Schedule, n: nat, i: nat, id: JobId, at: nat) returns (k: nat)
    requires Good(run, steps, n) && n <= i && DispatchedAt(run(i), id, at) && at + STUCK_THRESHOLD < run(i).now
    requires TakenByRecovery(steps(i), id) || !Recoverable(run(i), id)
    ensures i <= k && Moving(run(k), id)
  {
    if run(i).jobs[id].lock.Some? {
      k := LockEnds(run, steps, n, i, id);
    } else {
      TakenAt(run, steps, i, id);
      k := LockEnds(run, steps, n, i + 1, id);
    }
  }

  /** The recovery tick holds the row. */
  lemma TakenAt(run: Run, steps: Schedule, i: nat, id: JobId)
    requires IsBehaviour(run, steps) && id in run(i).jobs && TakenByRecovery(steps(i), id)
    ensures id in run(i + 1).jobs && run(i + 1).jobs[id].lock.Some?
    ensures run(i + 1).jobs[id].row == run(i).jobs[id].row
  {
    StepAt(run, steps, i, id);
  }

  /** Every row gets moving. */
  lemma GetsMoving(run: Run, steps: Schedule, n: nat, i: nat, id: JobId) returns (k: nat)
    requires Good(run, steps, n) && n <= i && id in run(i).jobs
    ensures i <= k && Moving(run(k), id)
  {
    if Moving(run(i), id) {
      k := i;
    } else if run(i).jobs[id].row.status == Dispatched {
      k := DispatchedMoves(run, steps, n, i, id);
    } else {
      k := LockEnds(run, steps, n, i, id);
      var m := k;
      k := DispatchedMoves(run, steps, n, m, id);
    }
  }

  // ---- older rows go first, and are finitely many ----

  /** The rows not yet ended that are no younger than `id`. */
  ghost function Older(s: State, id: JobId): set<JobId>
    requires id in s.jobs
  {
    set j | j in s.jobs && !Terminal(s.jobs[j].row) && s.jobs[j].row.createdAt <= s.jobs[id].row.createdAt
  }

  /** The API transactions still open that started no later than `at`. */
  ghost function OldWriters(s: State, at: nat): set<TxId> {
    set x | x in s.txs && s.txs[x].Inserting? && s.txs[x].startedAt <= at
  }

  lemma WriterStep(s: State, step: Step, at: nat)
    requires Enabled(s, step) && at < s.now
    ensures OldWriters(Apply(s, step), at) <= OldWriters(s, at) && at < Apply(s, step).now
  {
    forall x | x in OldWriters(Apply(s, step), at) ensures x in s.txs && s.txs[x] == Apply(s, step).txs[x] {}
  }

  /** Once the clock has passed `at`, no more of them open. */
  lemma {:induction false} WritersOnlyEnd(run: Run, steps: Schedule, i: nat, k: nat, at: nat)
    requires IsBehaviour(run, steps) && i <= k && at < run(i).now
    ensures OldWriters(run(k), at) <= OldWriters(run(i), at) && at < run(k).now
    decreases k - i
  {
    if i < k {
      WritersOnlyEnd(run, steps, i, k - 1, at);
      assert StepsAt(run, steps, k - 1);
      WriterStep(run(k - 1), steps(k - 1), at);
    }
  }

  /** They all commit. */
  lemma {:induction false} WritersEnd(run: Run, steps: Schedule, n: nat, i: nat, at: nat) returns (k: nat)
    requires Good(run, steps, n) && n <= i && at < run(i).now
    ensures i <= k && OldWriters(run(k), at) == {} && at < run(k).now
    decreases OldWriters(run(i), at)
  {
    k := i;
    if x :| x in OldWriters(run(i), at) {
      var m := TxCommits(run, steps, n, i, x);
      assert StepsAt(run, steps, m);
      WritersOnlyEnd(run, steps, i, m + 1, at);
      assert x !in OldWriters(run(m + 1), at);
      k := WritersEnd(run, steps, n, m + 1, at);
    }
  }

  /** The clock has passed the row's creation, and so has every open API transaction. */
  ghost predicate Passed(s: State, id: JobId) {
    id in s.jobs && s.jobs[id].row.createdAt < s.now && OldWriters(s, s.jobs[id].row.createdAt) == {}
  }

  lemma BornNow(s: State, step: Step, j: JobId, at: nat)
    requires Enabled(s, step) && j !in s.jobs && j in Apply(s, step).jobs && OldWriters(s, at) == {}
    ensures at < Apply(s, step).jobs[j].row.createdAt
  {
    EffectIs(s, step);
    assert step.tx !in OldWriters(s, at);
  }

  lemma {:induction false} BornLater(run: Run, steps: Schedule, i: nat, k: nat, j: JobId, at: nat)
    requires IsBehaviour(run, steps) && i <= k && j !in run(i).jobs && j in run(k).jobs
    requires at < run(i).now && OldWriters(run(i), at) == {}
    ensures at < run(k).jobs[j].row.createdAt
    decreases k - i
  {
    assert i < k;
    WritersOnlyEnd(run, steps, i, k - 1, at);
    if j in run(k - 1).jobs {
      BornLater(run, steps, i, k - 1, j, at);
      Persists(run, steps, k - 1, k, j);
    } else {
      assert StepsAt(run, steps, k - 1);
      BornNow(run(k - 1), steps(k - 1), j, at);
    }
  }

  lemma PassedStays(run: Run, steps: Schedule, i: nat, k: nat, id: JobId)
    requires IsBehaviour(run, steps) && i <= k && Passed(run(i), id)
    ensures Passed(run(k), id)
  {
    Persists(run, steps, i, k, id);
    WritersOnlyEnd(run, steps, i, k, run(i).jobs[id].row.createdAt);
  }

  /** From then on no new row is ever as old. */
  lemma OlderThen(run: Run, steps: Schedule, i: nat, k: nat, id: JobId, j: JobId)
    requires IsBehaviour(run, steps) && i <= k && Passed(run(i), id)
    requires id in run(k).jobs && j in Older(run(k), id)
    ensures j in Older(run(i), id)
  {
    Persists(run, steps, i, k, id);
    if j !in run(i).jobs {
      BornLater(run, steps, i, k, j, run(i).jobs[id].row.createdAt);
      assert false;
    }
    Persists(run, steps, i, k, j);
  }

  lemma OlderShrinks(run: Run, steps: Schedule, i: nat, m: nat, k: nat, id: JobId, o: JobId)
    requires IsBehaviour(run, steps) && i <= m <= k && Passed(run(i), id)
    requires id in run(m).jobs && o in Older(run(m), id) && Ended(run(k), o) && id in run(k).jobs
    ensures Older(run(k), id) < Older(run(i), id)
  {
    forall j | j in Older(run(k), id) ensures j in Older(run(i), id) {
      OlderThen(run, steps, i, k, id, j);
    }
    OlderThen(run, steps, i, m, id, o);
    assert o !in Older(run(k), id);
  }

  lemma {:induction false} EndsInTime(run: Run, steps: Schedule, n: nat, i: nat, id: JobId) returns (k: nat)
    requires Good(run, steps, n) && n <= i && Passed(run(i), id)
    ensures i <= k && Ended(run(k), id)
    decreases Older(run(i), id)
  {
    var m := GetsMoving(run, steps, n, i, id);
    if Ended(run(m), id) {
      return m;
    } else if Busy(run(m), id) {
      k := EntryEnds(run, steps, n, m, id);
      return;
    }
    var c := MeetsClaim(run, steps, n, m, id);
    if Ended(run(c), id) {
      return c;
    }
    if p :| 0 <= p < |steps(c).batch| && steps(c).batch[p] == id {
      k := ClaimedEnds(run, steps, n, c, p);
    } else {
      k := AfterOlder(run, steps, n, i, c, id);
      if !Ended(run(k), id) {
        var later := k;
        k := EndsInTime(run, steps, n, later, id);
      }
    }
  }

  /** The claim took an older row instead: when that has ended, fewer are left. */
  lemma AfterOlder(run: Run, steps: Schedule, n: nat, i: nat, c: nat, id: JobId) returns (k: nat)
    requires Good(run, steps, n) && n <= i <= c && Passed(run(i), id)
    requires steps(c).Claim? && Waits(run(c), id) && id !in steps(c).batch
    ensures i <= k && Passed(run(k), id) && Older(run(k), id) < Older(run(i), id)
  {
    assert StepsAt(run, steps, c);
    k := ClaimedEnds(run, steps, n, c, 0);
    PassedStays(run, steps, i, k, id);
    OlderShrinks(run, steps, i, c, k, id, steps(c).batch[0]);
  }

  /** In every fair behaviour in which faults cease at some point, every row, whatever had become of it
      and of its entry by then, is eventually completed or failed. */
  lemma EveryRowEnds(run: Run, steps: Schedule, n: nat, i: nat, id: JobId) returns (k: nat)
    requires IsBehaviour(run, steps) && FaultFreeFrom(steps, n) && Fair(run, steps) && id in run(i).jobs
    ensures i <= k && id in run(k).jobs
    ensures run(k).jobs[id].row.status == Completed || run(k).jobs[id].row.status == Failed
  {
    var start := if i < n then n else i;
    Persists(run, steps, i, start, id);
    var late := ClockReaches(run, steps, start, run(start).jobs[id].row.createdAt + 1);
    Persists(run, steps, start, late, id);
    var passed := WritersEnd(run, steps, n, late, run(late).jobs[id].row.createdAt);
    Persists(run, steps, late, passed, id);
    k := EndsInTime(run, steps, n, passed, id);
  }
}
