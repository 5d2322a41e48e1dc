/**
 Exactly when a failed row is final: when it has no arq entry left. With an entry, a run that is cut
 short and redelivered starts the runner again and may complete the row.
 */
module OutboxFinality {
  import opened Wrappers
  import opened PipelineJobs
  import opened OutboxProtocol
  import opened OutboxSafety
  import opened OutboxProgress

  /** The steps, faults included, lead from `s` to `s'`. */
  ghost predicate Follows(s: State, steps: seq<Step>, s': State)
    decreases |steps|
  {
    if steps == [] then s == s'
    else Enabled(s, steps[0]) && Follows(Apply(s, steps[0]), steps[1..], s')
  }

  lemma {:induction false} LeadsFollows(s: State, steps: seq<Step>, s': State)
    requires Leads(s, steps, s')
    ensures Follows(s, steps, s')
    decreases |steps|
  {
    if steps != [] {
      LeadsFollows(Apply(s, steps[0]), steps[1..], s');
    }
  }

  /** Failed, and nothing left that could run it. */
  predicate Settled(s: State, id: JobId) {
    id in s.jobs && s.jobs[id].row.status == Failed && s.jobs[id].entry.NoEntry?
  }

  lemma StaysSettled(s: State, step: Step, id: JobId)
    requires Inv(s) && Enabled(s, step) && Settled(s, id)
    ensures Settled(Apply(s, step), id)
  {
    EffectIs(s, step);
    if (step.EnqueueNext? || step.EnqueueRaise?) && id == NextId(s, step.tx) {
      HeldIs(s, step.tx, id);
    } else if (step.CommitDispatch? || step.CommitRecover?) && id in s.txs[step.tx].Held() {
      HeldIs(s, step.tx, id);
    }
  }

  lemma {:induction false} SettledForGood(s: State, steps: seq<Step>, s': State, id: JobId)
    requires Inv(s) && Settled(s, id) && Follows(s, steps, s')
    ensures Settled(s', id)
    decreases |steps|
  {
    if steps != [] {
      StaysSettled(s, steps[0], id);
      StepKeepsInv(s, steps[0]);
      SettledForGood(Apply(s, steps[0]), steps[1..], s', id);
    }
  }

  /** With an entry, a failed row can be run again, and completed. */
  lemma EntryRevives(s: State, id: JobId) returns (steps: seq<Step>, s': State)
    requires Inv(s) && id in s.jobs && s.jobs[id].row.status == Failed && !s.jobs[id].entry.NoEntry?
    ensures Follows(s, steps, s') && id in s'.jobs && s'.jobs[id].row.status == Completed
  {
    if s.jobs[id].entry.Active? && s.jobs[id].entry.pc.Finished? {
      var cut := RunStep(id, Cut(true));
      StepKeepsInv(s, cut);
      var rest;
      rest, s' := RunToEnd(Apply(s, cut), id);
      LeadsFollows(Apply(s, cut), rest, s');
      steps := [cut] + rest;
      assert steps[0] == cut && steps[1..] == rest;
    } else {
      steps, s' := RunToEnd(s, id);
      LeadsFollows(s, steps, s');
    }
  }

  /** Whatever follows, the row stays failed. */
  ghost predicate FailedForGood(s: State, id: JobId) {
    forall steps, s' | Follows(s, steps, s') :: id in s'.jobs && s'.jobs[id].row.status == Failed
  }

  /** In every state of every run: a failed row stays failed whatever follows, exactly when it has no
      arq entry. */
  lemma FailedFinalIff(run: seq<State>, steps: seq<Step>, i: nat, id: JobId)
    requires IsRun(run, steps) && i < |run| && id in run[i].jobs && run[i].jobs[id].row.status == Failed
    ensures run[i].jobs[id].entry.NoEntry? <==> FailedForGood(run[i], id)
  {
    RunInv(run, steps, i);
    if run[i].jobs[id].entry.NoEntry? {
      forall more, s' | Follows(run[i], more, s') ensures id in s'.jobs && s'.jobs[id].row.status == Failed {
        SettledForGood(run[i], more, s', id);
      }
    } else {
      var more, s' := EntryRevives(run[i], id);
    }
  }
}
