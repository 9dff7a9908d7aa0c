/** Automatic work runs out: without the API, every run has a bounded number of
    job transitions (`packages/core/jobs/queue.py`). */
module JobProgress {
  import opened Basics
  import opened JobRows
  import opened JobTable
  import opened SendSystem
  import opened SendSafety

  function Weight(j: Job): nat {
    (if j.attempts <= j.maxAttempts then 2 * (j.maxAttempts - j.attempts) else 0)
    + if j.state == Running then 1 else 0
  }

  /** Two for each attempt left, one for each running job. */
  function Work(jobs: seq<Job>): nat {
    if jobs == [] then 0 else Work(jobs[..|jobs| - 1]) + Weight(jobs[|jobs| - 1])
  }

  predicate Lighter(before: Job, after: Job) {
    before == after || Weight(after) < Weight(before)
  }

  lemma {:induction false} LighterRowsLessWork(before: seq<Job>, after: seq<Job>)
    requires |before| == |after|
    requires forall i :: 0 <= i < |before| ==> Lighter(before[i], after[i])
    ensures before == after || Work(after) < Work(before)
  {
    if before != [] {
      var n := |before| - 1;
      LighterRowsLessWork(before[..n], after[..n]);
      if before[..n] == after[..n] && before[n] == after[n] {
        assert before == before[..n] + [before[n]] && after == after[..n] + [after[n]];
      }
    }
  }

  /** A step that no caller of the API takes. */
  predicate Automatic(step: Step) {
    !step.SubmitSend? && !step.EditDraft? && !step.SubmitRun? && !step.OperatorRetries? && !step.OperatorAttests? && !step.OperatorResends?
  }

  lemma ClaimUsesWork(jobs: seq<Job>, now: nat, locked: set<nat>, limit: nat, worker: nat)
    ensures var after := JobTable.Claimed(jobs, now, locked, limit, worker, JOB_LEASE, SEND_LEASE);
            after == jobs || Work(after) < Work(jobs)
  {
    var after := JobTable.Claimed(jobs, now, locked, limit, worker, JOB_LEASE, SEND_LEASE);
    forall i | 0 <= i < |jobs| ensures Lighter(jobs[i], after[i]) {
      if i in ToClaim(jobs, now, locked, limit) { assert Eligible(jobs, now, i); }
    }
    LighterRowsLessWork(jobs, after);
  }

  lemma RowUsesWork(jobs: seq<Job>, j: nat, after: Job)
    requires j < |jobs| && Lighter(jobs[j], after)
    ensures jobs[j := after] == jobs || Work(jobs[j := after]) < Work(jobs)
  {
    LighterRowsLessWork(jobs, jobs[j := after]);
  }

  lemma AutomaticStepUsesWork(s: State, step: Step)
    requires Enabled(s, step) && Automatic(step)
    ensures var t := Apply(s, step);
            t.jobs == s.jobs || Work(t.jobs) < Work(s.jobs)
  {
    match step {
      case Claim(worker, limit, locked) => ClaimUsesWork(s.jobs, s.now, locked, limit, worker);
      case Finish(e, delay) =>
        var x := s.execs[e];
        RowUsesWork(s.jobs, x.job, Finished(s.jobs[x.job], x, s.now, delay));
      case SweepFinish(e) =>
        var x := s.execs[e];
        RowUsesWork(s.jobs, x.job, Requeue(s.jobs[x.job], s.now));
        RowUsesWork(s.jobs, x.job, Resolve(s.jobs[x.job], s.now));
      case SweepAdapterRun(j) =>
        RowUsesWork(s.jobs, j, Requeue(s.jobs[j], s.now));
        RowUsesWork(s.jobs, j, Park(s.jobs[j], s.now));
      case _ =>
    }
  }

  ghost predicate ChangesJobs(before: Option<State>, after: Option<State>) {
    before.Some? && after.Some? && before.value.jobs != after.value.jobs
  }

  /** How many of the steps `more`, taken after `steps`, changed a job. */
  ghost function Transitions(steps: seq<Step>, more: seq<Step>): nat
    decreases |more|
  {
    if more == [] then 0
    else
      var earlier := more[..|more| - 1];
      Transitions(steps, earlier) + if ChangesJobs(After(steps + earlier), After(steps + more)) then 1 else 0
  }

  lemma AutomaticStepSpends(before: Option<State>, step: Step, after: Option<State>)
    requires before.Some? && Enabled(before.value, step) && Automatic(step) && after == Some(Apply(before.value, step))
    ensures Work(after.value.jobs) + (if ChangesJobs(before, after) then 1 else 0) <= Work(before.value.jobs)
  {
    AutomaticStepUsesWork(before.value, step);
  }

  /** From any reachable state, automatic work changes jobs at most `Work` times:
      each change spends some of it, and only the API can add more. */
  lemma {:induction false} AutomaticWorkTerminates(steps: seq<Step>, more: seq<Step>)
    requires After(steps + more).Some?
    requires forall k :: 0 <= k < |more| ==> Automatic(more[k])
    ensures After(steps).Some?
    ensures Transitions(steps, more) + Work(After(steps + more).value.jobs) <= Work(After(steps).value.jobs)
    decreases |more|
  {
    if more == [] {
      assert steps + more == steps;
    } else {
      var n := |more| - 1;
      LastStep(steps + more);
      assert (steps + more)[..|steps + more| - 1] == steps + more[..n];
      AutomaticWorkTerminates(steps, more[..n]);
      AutomaticStepSpends(After(steps + more[..n]), more[n], After(steps + more));
    }
  }
}
