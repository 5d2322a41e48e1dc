/**
 No row of the outbox is stranded: from every state that satisfies the invariant, each pending
 or dispatched row can be brought to `completed` by steps none of which is a fault.
 */
module OutboxProgress {
  import opened Wrappers
  import opened PipelineJobs
  import opened OutboxProtocol
  import opened OutboxSafety

  /** The fault-free steps `steps` lead from `s` to `s'`. */
  ghost predicate Leads(s: State, steps: seq<Step>, s': State)
    decreases |steps|
  {
    if steps == [] then s == s'
    else Enabled(s, steps[0]) && !IsFault(steps[0]) && Leads(Apply(s, steps[0]), steps[1..], s')
  }

  lemma {:induction false} LeadsOn(s: State, p: seq<Step>, m: State, q: seq<Step>, s': State)
    requires Leads(s, p, m) && Leads(m, q, s')
    ensures Leads(s, p + q, s')
    decreases |p|
  {
    if p == [] {
      assert p + q == q;
    } else {
      LeadsOn(Apply(s, p[0]), p[1..], m, q, s');
      assert (p + q)[1..] == p[1..] + q;
    }
  }

  lemma OneStep(s: State, step: Step)
    requires Enabled(s, step) && !IsFault(step)
    ensures Leads(s, [step], Apply(s, step))
  {
    assert [step][1..] == [];
    assert Leads(Apply(s, step), [], Apply(s, step));
  }

  lemma {:induction false} LeadsKeepsInv(s: State, steps: seq<Step>, s': State)
    requires Inv(s) && Leads(s, steps, s')
    ensures Inv(s')
    decreases |steps|
  {
    if steps != [] {
      StepKeepsInv(s, steps[0]);
      LeadsKeepsInv(Apply(s, steps[0]), steps[1..], s');
    }
  }

  // ---- from a live entry to the end of its run ----

  function Distance(entry: Entry): nat {
    match entry
    case NoEntry => 5
    case Queued(_) => 4
    case Active(_, Picked) => 3
    case Active(_, Loaded(_, _)) => 2
    case Active(_, _) => 1
  }

  /** The next action of an undisturbed run. */
  function NextAction(entry: Entry): RunAction
    requires !entry.NoEntry?
  {
    match entry
    case Queued(_) => Pick
    case Active(_, Picked) => Load
    case Active(_, Loaded(_, _)) => Begin
    case Active(_, _) => Succeed
  }

  lemma {:induction false} RunToEnd(s: State, id: JobId) returns (steps: seq<Step>, s': State)
    requires Inv(s) && id in s.jobs && s.jobs[id].row.status != Completed && s.jobs[id].lock.None?
    requires !s.jobs[id].entry.NoEntry? && !(s.jobs[id].entry.Active? && s.jobs[id].entry.pc.Finished?)
    ensures Leads(s, steps, s') && id in s'.jobs && s'.jobs[id].row.status == Completed
    decreases Distance(s.jobs[id].entry)
  {
    var job := s.jobs[id];
    assert JobOk(job, s.now);
    TasksMatchTypes(job.row.request.jobType, job.row.request.jobType);
    var step := RunStep(id, NextAction(job.entry));
    assert Enabled(s, step);
    var next := Apply(s, step);
    OneStep(s, step);
    StepKeepsInv(s, step);
    if step.action.Succeed? {
      steps, s' := [step], next;
    } else {
      var rest;
      rest, s' := RunToEnd(next, id);
      LeadsOn(s, [step], next, rest, s');
      steps := [step] + rest;
    }
  }

  // ---- finishing an open transaction ----

  /** What a finished dispatch leaves: its rows dispatched and unlocked, everything else as it was. */
  predicate DispatchDone(s: State, x: TxId, s': State)
    requires x in s.txs
  {
    && s'.now == s.now && s'.jobs.Keys == s.jobs.Keys && s'.txs == s.txs - {x}
    && (forall id | id in s.jobs && id !in s.txs[x].Held() :: s'.jobs[id] == s.jobs[id])
    && (forall id | id in s.jobs && id in s.txs[x].Held() ::
          s'.jobs[id].lock.None? && s'.jobs[id].row.status == Dispatched)
  }

  /** Jobs with an entry keep one. */
  predicate EntriesKept(s: State, s': State) {
    forall id | id in s.jobs && !s.jobs[id].entry.NoEntry? :: id in s'.jobs && !s'.jobs[id].entry.NoEntry?
  }

  /** The batch from position k on has its entries. */
  predicate BatchEntered(s: State, batch: seq<JobId>, k: nat) {
    forall i | k <= i < |batch| :: batch[i] in s.jobs && !s.jobs[batch[i]].entry.NoEntry?
  }

  lemma EntriesChain(s: State, m: State, s': State, batch: seq<JobId>, k: nat)
    requires EntriesKept(s, m) && EntriesKept(m, s') && k < |batch|
    requires batch[k] in m.jobs && !m.jobs[batch[k]].entry.NoEntry? && BatchEntered(s', batch, k + 1)
    ensures EntriesKept(s, s') && BatchEntered(s', batch, k)
  {
  }

  lemma {:induction false} FinishDispatch(s: State, x: TxId) returns (steps: seq<Step>, s': State)
    requires Inv(s) && IsDispatching(s, x)
    ensures Leads(s, steps, s') && DispatchDone(s, x, s')
    ensures EntriesKept(s, s') && BatchEntered(s', s.txs[x].batch, s.txs[x].enqueued)
    decreases |s.txs[x].batch| - s.txs[x].enqueued
  {
    assert TxOk(s, x);
    if s.txs[x].enqueued == |s.txs[x].batch| {
      OneStep(s, CommitDispatch(x));
      steps, s' := [CommitDispatch(x)], Apply(s, CommitDispatch(x));
    } else {
      var m := AfterNext(s, x);
      var rest;
      rest, s' := FinishDispatch(m, x);
      LeadsOn(s, [EnqueueNext(x)], m, rest, s');
      steps := [EnqueueNext(x)] + rest;
      EntriesChain(s, m, s', s.txs[x].batch, s.txs[x].enqueued);
    }
  }

  lemma AfterNext(s: State, x: TxId) returns (m: State)
    requires Inv(s) && IsDispatching(s, x) && s.txs[x].enqueued < |s.txs[x].batch|
    ensures Inv(m) && Leads(s, [EnqueueNext(x)], m)
    ensures m.now == s.now && m.jobs.Keys == s.jobs.Keys && m.txs - {x} == s.txs - {x}
    ensures IsDispatching(m, x) && m.txs[x] == s.txs[x].(enqueued := s.txs[x].enqueued + 1)
    ensures forall id | id in s.jobs && id !in s.txs[x].Held() :: m.jobs[id] == s.jobs[id]
    ensures EntriesKept(s, m)
    ensures s.txs[x].batch[s.txs[x].enqueued] in m.jobs && !m.jobs[s.txs[x].batch[s.txs[x].enqueued]].entry.NoEntry?
  {
    HeldIs(s, x, s.txs[x].batch[s.txs[x].enqueued]);
    OneStep(s, EnqueueNext(x));
    StepKeepsInv(s, EnqueueNext(x));
    m := Apply(s, EnqueueNext(x));
  }

  /** Whoever holds a row can finish, and then the row is free and still on its way. */
  lemma Unlock(s: State, id: JobId) returns (steps: seq<Step>, s': State)
    requires Inv(s) && id in s.jobs && !Terminal(s.jobs[id].row)
    ensures Leads(s, steps, s') && id in s'.jobs && s'.jobs[id].lock.None? && !Terminal(s'.jobs[id].row)
  {
    if s.jobs[id].lock.None? {
      steps, s' := [], s;
    } else {
      var x := s.jobs[id].lock.value;
      assert LockOk(s, id);
      if s.txs[x].Dispatching? {
        steps, s' := FinishDispatch(s, x);
      } else {
        OneStep(s, CommitRecover(x));
        steps, s' := [CommitRecover(x)], Apply(s, CommitRecover(x));
      }
    }
  }

  // ---- dispatching a pending row ----

  ghost function Waiting(s: State): set<JobId> {
    set id | id in s.jobs && s.jobs[id].row.status == Pending && s.jobs[id].lock.None?
  }

  /** There is always an oldest batch to claim: extend one by the oldest of the rest. */
  lemma {:induction false} ExtendClaim(t: Table, locked: set<JobId>, batch: seq<JobId>, free: set<JobId>)
    returns (claim: seq<JobId>)
    requires |batch| <= BATCH_SIZE && Picking(t, locked, batch, free)
    ensures IsClaim(t, locked, BATCH_SIZE, claim)
    ensures batch != [] || free != {} ==> claim != []
    decreases free
  {
    if |batch| == BATCH_SIZE || free == {} {
      claim := batch;
    } else {
      OldestExists(t, free);
      var oldest :| IsOldest(t, free, oldest);
      PickOne(t, locked, batch, free, oldest);
      claim := ExtendClaim(t, locked, batch + [oldest], free - {oldest});
    }
  }

  lemma {:induction false} UpperBound(ids: set<nat>) returns (b: nat)
    ensures forall id | id in ids :: id <= b
    decreases ids
  {
    b := 0;
    if ids != {} {
      var x :| x in ids;
      var rest := ids - {x};
      var b' := UpperBound(rest);
      b := if x <= b' then b' else x;
      assert forall id | id in ids :: id == x || id in rest;
    }
  }

  lemma FreshTx(s: State) returns (x: TxId)
    ensures x !in s.txs
  {
    var b := UpperBound(s.txs.Keys);
    x := b + 1;
  }

  /** Claims in order of age reach every waiting row. */
  lemma {:induction false} DispatchRow(s: State, id: JobId) returns (steps: seq<Step>, s': State)
    requires Inv(s) && id in Waiting(s)
    ensures Leads(s, steps, s') && id in s'.jobs
    ensures s'.jobs[id].row.status == Dispatched && s'.jobs[id].lock.None? && !s'.jobs[id].entry.NoEntry?
    decreases Waiting(s)
  {
    var t, locked := TableOf(s), LockedIds(s);
    assert forall j :: Claimable(t, locked, j) <==> j in Waiting(s);
    var batch := ExtendClaim(t, locked, [], Waiting(s));
    var x := FreshTx(s);
    var step := Claim(x, batch);
    assert Enabled(s, step);
    OneStep(s, step);
    StepKeepsInv(s, step);
    var m := Apply(s, step);
    var more, d := FinishDispatch(m, x);
    LeadsOn(s, [step], m, more, d);
    LeadsKeepsInv(m, more, d);
    WaitingShrinks(s, x, batch, d);
    if id in batch {
      var i :| 0 <= i < |batch| && batch[i] == id;
      steps, s' := [step] + more, d;
    } else {
      var rest;
      rest, s' := DispatchRow(d, id);
      LeadsOn(s, [step] + more, d, rest, s');
      steps := [step] + more + rest;
    }
  }

  lemma WaitingShrinks(s: State, x: TxId, batch: seq<JobId>, d: State)
    requires Enabled(s, Claim(x, batch)) && DispatchDone(Apply(s, Claim(x, batch)), x, d)
    ensures Waiting(d) == Waiting(s) - IdsOf(batch) && Waiting(d) < Waiting(s)
    ensures forall id | id in batch :: d.jobs[id].lock.None? && d.jobs[id].row.status == Dispatched
  {
    forall id ensures id in Waiting(d) <==> id in Waiting(s) && id !in batch {}
    forall id | id in batch ensures d.jobs[id].lock.None? && d.jobs[id].row.status == Dispatched {}
    assert batch[0] in Waiting(s) && batch[0] in IdsOf(batch);
  }

  // ---- reviving a dispatched row without an entry ----

  lemma {:induction false} TickTo(s: State, at: nat) returns (steps: seq<Step>)
    requires s.now <= at
    ensures Leads(s, steps, s.(now := at))
    decreases at - s.now
  {
    if s.now == at {
      steps := [];
      assert s == s.(now := at);
    } else {
      var m := s.(now := s.now + 1);
      OneStep(s, Tick);
      var rest := TickTo(m, at);
      LeadsOn(s, [Tick], m, rest, m.(now := at));
      steps := [Tick] + rest;
    }
  }

  /** One recovery tick over a stale unlocked row. */
  lemma RecoverRow(m: State, id: JobId) returns (steps: seq<Step>, s': State)
    requires id in m.jobs && Stale(m.jobs[id].row, m.now) && m.jobs[id].lock.None?
    ensures Leads(m, steps, s') && id in Waiting(s')
  {
    var x := FreshTx(m);
    var begin, commit := RecoverBegin(x, {id}), CommitRecover(x);
    OneStep(m, begin);
    EffectIs(m, begin);
    var r := Apply(m, begin);
    OneStep(r, commit);
    EffectIs(r, commit);
    s' := Apply(r, commit);
    LeadsOn(m, [begin], r, [commit], s');
    steps := [begin] + [commit];
  }

  /** After the threshold a recovery tick takes a stale unlocked row back to pending. */
  lemma AwaitRecovery(s: State, id: JobId) returns (steps: seq<Step>, s': State)
    requires Inv(s) && id in s.jobs && s.jobs[id].row.status == Dispatched && s.jobs[id].lock.None?
    ensures Leads(s, steps, s') && id in Waiting(s')
  {
    assert JobOk(s.jobs[id], s.now);
    var at := s.now + STUCK_THRESHOLD + 1;
    var ticks := TickTo(s, at);
    var m := s.(now := at);
    var tick;
    tick, s' := RecoverRow(m, id);
    LeadsOn(s, ticks, m, tick, s');
    steps := ticks + tick;
  }

  // ---- the main result ----

  /** Every pending or dispatched row can still be completed, whatever holds it and whatever has
      become of its entry. */
  lemma {:induction false} NoRowStranded(s: State, id: JobId) returns (steps: seq<Step>, s': State)
    requires Inv(s) && id in s.jobs && !Terminal(s.jobs[id].row)
    ensures Leads(s, steps, s') && id in s'.jobs && s'.jobs[id].row.status == Completed
  {
    var p0, s0 := Unlock(s, id);
    LeadsKeepsInv(s, p0, s0);
    var p, m := p0, s0;
    if s0.jobs[id].entry.NoEntry? {
      if m.jobs[id].row.status == Dispatched {
        var p1, s1 := AwaitRecovery(m, id);
        LeadsOn(s, p, m, p1, s1);
        LeadsKeepsInv(m, p1, s1);
        p, m := p + p1, s1;
      }
      assert id in Waiting(m);
      var p2, s2 := DispatchRow(m, id);
      LeadsOn(s, p, m, p2, s2);
      LeadsKeepsInv(m, p2, s2);
      p, m := p + p2, s2;
    }
    var p3, s3 := RunToEnd(m, id);
    LeadsOn(s, p, m, p3, s3);
    steps, s' := p + p3, s3;
  }

  lemma NoReachableRowStranded(run: seq<State>, steps: seq<Step>, i: nat, id: JobId)
    requires IsRun(run, steps) && i < |run| && id in run[i].jobs
    requires run[i].jobs[id].row.status == Pending || run[i].jobs[id].row.status == Dispatched
    ensures exists more, s' :: Leads(run[i], more, s') && id in s'.jobs && s'.jobs[id].row.status == Completed
  {
    RunInv(run, steps, i);
    var more, s' := NoRowStranded(run[i], id);
  }
}
