/** The operator's endpoints (`operator_retry` and `resolve_send` in
    `packages/core/send/service.py`): what they do to a send and its jobs, and
    whether the send comes out of them with work behind it. */
module OperatorWork {
  import opened Basics
  import opened SendRows
  import opened JobRows
  import opened JobTable
  import opened SendHandler
  import opened SendInvariant
  import opened SendSystem
  import opened SystemInvariant
  import opened SendSafety
  import opened RowShape
  import opened SendPrograms
  import JobProgress
  import opened SendScenarios

  // ------------------------------------------------------------------
  // The endpoints
  // ------------------------------------------------------------------

  datatype Reply =
    | NotFound
    | Replayed               // delivered already: the stored result
    | ResolutionRequired     // in doubt: a question to answer, not a failure to retry
    | Underway               // in flight already
    | Retried
    | UnknownResolution
    | NotUncertain
    | Resolved

  /** One transaction: it counts as one step (see `SendSystem`). */
  method Commit(d: Deployment, cells: seq<Cell>, jobs: seq<Job>, ghost step: Step)
    requires d.Valid() && Enabled(d.st, step) && Apply(d.st, step) == d.st.(cells := cells, jobs := jobs)
    modifies d
    ensures d.Valid() && d.st == Apply(old(d.st), step) && d.history == old(d.history) + [step]
  {
    assert (d.history + [step])[..|d.history|] == d.history;
    d.st := d.st.(cells := cells, jobs := jobs);
    d.history := d.history + [step];
  }

  /** `POST /sends/{id}/retry`. */
  method OperatorRetry(d: Deployment, x: nat) returns (reply: Reply)
    requires d.Valid()
    modifies d
    ensures d.Valid()
    ensures x >= |old(d.st).cells| ==> reply == NotFound && d.st == old(d.st)
    ensures x < |old(d.st).cells| ==>
              && var state := old(d.st).cells[x].row.state;
              && (reply == Replayed <==> state == Delivered) && (reply == ResolutionRequired <==> state == SendState.Uncertain)
              && (reply == Underway <==> state == InFlight)
              && (reply == Retried <==> state == FailedPermanent || state == FailedTransient)
              && d.st == Apply(old(d.st), OperatorRetries(x))
  {
    if x >= |d.st.cells| {
      return NotFound;
    }
    var (cell, jobs) := (d.st.cells[x], d.st.jobs);
    if cell.row.state == Delivered { return Replayed; }
    if cell.row.state == SendState.Uncertain { return ResolutionRequired; }
    if cell.row.state == InFlight { return Underway; }
    cell := Operate(cell, RetryFailed, d.st.now);
    var job := LatestJob(jobs, x);
    if job.None? {
      jobs := Enqueue(jobs, Enqueued(SendJob, x, None, Some(PartitionOf(cell)), 0, d.st.now, MAX_ATTEMPTS)).0;
    } else {
      jobs := jobs[job.value := JobRows.OperatorRetry(jobs[job.value], 1, d.st.now)];
    }
    Commit(d, d.st.cells[x := cell], jobs, OperatorRetries(x));
    return Retried;
  }

  /** `POST /sends/{id}/resolve`. */
  method ResolveSend(d: Deployment, x: nat, resolution: string) returns (reply: Reply)
    requires d.Valid()
    modifies d
    ensures d.Valid()
    ensures var s := old(d.st);
            if resolution !in ["marked_delivered", "forced_resend"] then reply == UnknownResolution && d.st == s
            else if x >= |s.cells| then reply == NotFound && d.st == s
            else
              && reply == (if s.cells[x].row.state == SendState.Uncertain then Resolved else NotUncertain)
              && d.st == Apply(s, if resolution == "marked_delivered" then OperatorAttests(x) else OperatorResends(x))
  {
    if resolution != "marked_delivered" && resolution != "forced_resend" {
      return UnknownResolution;
    }
    if x >= |d.st.cells| {
      return NotFound;
    }
    var (cell, jobs) := (d.st.cells[x], d.st.jobs);
    if cell.row.state != SendState.Uncertain {
      return NotUncertain;
    }
    if resolution == "marked_delivered" {
      cell := Operate(cell, AttestDelivered, d.st.now);
      Commit(d, d.st.cells[x := cell], jobs, OperatorAttests(x));
    } else {
      cell := Operate(cell, Resend, d.st.now);
      var job := LatestJob(jobs, x);
      var resumed := job.Some? && Resumable(jobs[job.value]);
      if resumed {
        jobs := jobs[job.value := JobRows.OperatorRetry(jobs[job.value], 1, d.st.now)];
      } else {
        jobs := Enqueue(jobs, Enqueued(SendJob, x, None, Some(PartitionOf(cell)), 0, d.st.now, MAX_ATTEMPTS)).0;
      }
      Commit(d, d.st.cells[x := cell], jobs, OperatorResends(x));
    }
    return Resolved;
  }

  // ------------------------------------------------------------------
  // Is there work behind the send?
  // ------------------------------------------------------------------

  predicate WaitsFor(j: Job, x: nat) {
    j.kind == SendJob && j.ref == x && Claimable(j)
  }

  /** A job of the send waits where a claim can take it. */
  predicate Waiting(jobs: seq<Job>, x: nat) {
    exists j :: 0 <= j < |jobs| && WaitsFor(jobs[j], x)
  }

  lemma EnqueuedWaits(jobs: seq<Job>, x: nat, p: Option<Partition>, now: nat)
    ensures Waiting(Enqueue(jobs, Enqueued(SendJob, x, None, p, 0, now, MAX_ATTEMPTS)).0, x)
  {
    var job := Enqueued(SendJob, x, None, p, 0, now, MAX_ATTEMPTS);
    assert WaitsFor((jobs + [job])[|jobs|], x);
  }

  lemma ResumedWaits(jobs: seq<Job>, j: nat, x: nat, now: nat)
    requires j < |jobs| && jobs[j].kind == SendJob && jobs[j].ref == x
    ensures Waiting(jobs[j := JobRows.OperatorRetry(jobs[j], 1, now)], x) <==> Waiting(jobs, x) || Resumable(jobs[j])
  {
    var after := jobs[j := JobRows.OperatorRetry(jobs[j], 1, now)];
    if Waiting(jobs, x) {
      var i :| 0 <= i < |jobs| && WaitsFor(jobs[i], x);
      assert WaitsFor(after[i], x);
    }
    if Resumable(jobs[j]) {
      assert WaitsFor(after[j], x);
    }
    if Waiting(after, x) && !Resumable(jobs[j]) {
      assert after == jobs;
    }
  }

  /** A forced resend always leaves its send with a job that a claim can take. */
  lemma ResendSchedules(s: State, x: nat)
    requires x < |s.cells| && s.cells[x].row.state == SendState.Uncertain
    ensures Waiting(Apply(s, OperatorResends(x)).jobs, x)
    ensures var row := Apply(s, OperatorResends(x)).cells[x].row; row.state == InFlight && row.dispatchedAt.None?
  {
    var job := LatestJob(s.jobs, x);
    if job.Some? && Resumable(s.jobs[job.value]) {
      ResumedWaits(s.jobs, job.value, x, s.now);
    } else {
      EnqueuedWaits(s.jobs, x, Some(PartitionOf(s.cells[x])), s.now);
    }
  }

  /** A retry leaves its send with a job that a claim can take exactly when there was one, or
      the send's newest job can be resumed, or it never had a job. */
  lemma RetrySchedulesExactly(s: State, x: nat)
    requires x < |s.cells| && SendRows.Failed(s.cells[x].row)
    ensures Apply(s, OperatorRetries(x)).cells[x].row.state == InFlight
    ensures var job := LatestJob(s.jobs, x);
            Waiting(Apply(s, OperatorRetries(x)).jobs, x) <==>
              Waiting(s.jobs, x) || job.None? || s.jobs[job.value].state == Parked || s.jobs[job.value].state == FailedJob
  {
    var job := LatestJob(s.jobs, x);
    if job.Some? {
      ResumedWaits(s.jobs, job.value, x, s.now);
    } else {
      EnqueuedWaits(s.jobs, x, Some(PartitionOf(s.cells[x])), s.now);
    }
  }

  // ------------------------------------------------------------------
  // What a running job is worth to a send that is retried
  // ------------------------------------------------------------------

  /** A live worker on a send that shows failed has yet to load its row, and will find the
      retried one, or it has done with the send. */
  lemma WorkerOnFailedSend(steps: seq<Step>, e: ExecId)
    requires After(steps).Some? && LiveWorker(After(steps).value, e)
    requires var s := After(steps).value;
             s.execs[e].ref < |s.cells| && SendRows.Failed(s.cells[s.execs[e].ref].row)
    ensures var at := After(steps).value.execs[e].at;
            at.Leased? || at.Load? || at.Settle? || (at.DiscardDraft? && at.cls != Transient)
  {
    AllShapely(steps);
    PointOnFailedSend(After(steps).value, e);
  }

  lemma PointOnFailedSend(s: State, e: ExecId)
    requires Shapely(s) && LiveWorker(s, e) && s.execs[e].ref < |s.cells|
    requires SendRows.Failed(s.cells[s.execs[e].ref].row)
    ensures var at := s.execs[e].at;
            at.Leased? || at.Load? || at.Settle? || (at.DiscardDraft? && at.cls != Transient)
  {
    assert PointShape(s.cells[s.execs[e].ref], s.execs[e].at);
  }

  predicate CeilingsRise(before: seq<Job>, after: seq<Job>) {
    |before| <= |after| && forall j :: 0 <= j < |before| ==> before[j].maxAttempts <= after[j].maxAttempts
  }

  lemma StepRaisesCeilings(s: State, step: Step)
    requires Enabled(s, step)
    ensures CeilingsRise(s.jobs, Apply(s, step).jobs)
  {
    if step.Finish? {
      FinishKeepsCeiling(s.jobs[s.execs[step.exec].job], s.execs[step.exec], s.now, step.delay);
    }
  }

  lemma FinishKeepsCeiling(j: Job, x: Exec, now: nat, delay: nat)
    ensures Finished(j, x, now, delay).maxAttempts == j.maxAttempts
  {
  }

  /** A claim's ceiling is at most its job's. */
  ghost predicate UnderCeiling(s: State) {
    forall e :: e in s.execs && e.Worker? ==>
      s.execs[e].job < |s.jobs| && s.execs[e].maxAttempts <= s.jobs[s.execs[e].job].maxAttempts
  }

  predicate SameClaim(x: Exec, y: Exec) {
    x.job == y.job && x.maxAttempts == y.maxAttempts
  }

  lemma StepStaysUnder(s: State, step: Step)
    requires UnderCeiling(s) && Enabled(s, step)
    ensures UnderCeiling(Apply(s, step))
  {
    var t := Apply(s, step);
    StepRaisesCeilings(s, step);
    forall e | e in t.execs && e.Worker?
      ensures t.execs[e].job < |t.jobs| && t.execs[e].maxAttempts <= t.jobs[t.execs[e].job].maxAttempts
    {
      OldOrNew(s, step, e);
    }
  }

  lemma OldOrNew(s: State, step: Step, e: ExecId)
    requires Enabled(s, step) && e in Apply(s, step).execs && e.Worker?
    ensures var y := Apply(s, step).execs[e];
            (e in s.execs && SameClaim(s.execs[e], y)) || (y.job < |s.jobs| && y.maxAttempts == s.jobs[y.job].maxAttempts)
  {
  }

  lemma {:induction false} AllUnderCeiling(steps: seq<Step>)
    requires After(steps).Some?
    ensures UnderCeiling(After(steps).value)
  {
    if steps != [] {
      LastStep(steps);
      AllUnderCeiling(steps[..|steps| - 1]);
      StepStaysUnder(After(steps[..|steps| - 1]).value, steps[|steps| - 1]);
    }
  }

  /** What the finish of a settled claim leaves of its job. */
  predicate ToBeRetried(x: Exec) {
    x.at == Settle(RaisedError(Transient)) && x.attempts < x.maxAttempts
  }

  lemma FinishLeaves(j: Job, x: Exec, now: nat, delay: nat)
    requires Owns(j, x.worker) && x.at.Settle? && j.attempts == x.attempts && x.maxAttempts <= j.maxAttempts
    ensures var after := Finished(j, x, now, delay);
            after.state != Running && (Claimable(after) <==> ToBeRetried(x))
  {
  }

  /** Nobody but this executor is on the send, and no job of it but this one's can be run. */
  ghost predicate Alone(s: State, e: ExecId) {
    && e in s.execs && s.execs[e].kind == SendJob
    && (forall j :: 0 <= j < |s.jobs| && j != s.execs[e].job ==> !WorksOn(s.jobs[j], s.execs[e].ref))
    && (forall f :: f in s.execs && f != e && s.execs[f].kind == SendJob ==> s.execs[f].ref != s.execs[e].ref)
  }

  /** Of a step from `s` to `t`: a job is left that a claim can take exactly when `left`, and
      a send that is in flight is stranded exactly when not. */
  ghost predicate LeavesWorkExactly(s: State, t: State, x: nat, left: bool) {
    && (Waiting(t.jobs, x) <==> left)
    && (x < |s.cells| && s.cells[x].row.state == InFlight ==> (Stranded(t, x) <==> !left))
  }

  /** When a settled claim is all that a send has, its finish leaves work behind exactly when
      it ends in a transient error below the ceiling; otherwise a send that was retried
      in the meantime is stranded. */
  lemma SettledClaimStrandsExactly(steps: seq<Step>, e: ExecId, delay: nat)
    requires After(steps).Some? && Enabled(After(steps).value, Step.Finish(e, delay)) && Alone(After(steps).value, e)
    requires var s := After(steps).value; Owns(s.jobs[s.execs[e].job], s.execs[e].worker)
    ensures var (s, t) := (After(steps).value, Apply(After(steps).value, Step.Finish(e, delay)));
            var x := s.execs[e];
            LeavesWorkExactly(s, t, x.ref, ToBeRetried(x))
  {
    var (s, t) := (After(steps).value, Apply(After(steps).value, Step.Finish(e, delay)));
    var x := s.execs[e];
    ReachableInv(steps);
    AllUnderCeiling(steps);
    FinisherFits(s, e, delay);
    FinishLeaves(s.jobs[x.job], x, s.now, delay);
    JobEnds(s, t, e, Finished(s.jobs[x.job], x, s.now, delay));
  }

  lemma FinisherFits(s: State, e: ExecId, delay: nat)
    requires Inv(s) && UnderCeiling(s) && Enabled(s, Step.Finish(e, delay)) && s.execs[e].kind == SendJob
    requires Owns(s.jobs[s.execs[e].job], s.execs[e].worker)
    ensures var (x, j) := (s.execs[e], s.jobs[s.execs[e].job]);
            && x.ref < |s.cells| && j.kind == SendJob && j.ref == x.ref
            && j.attempts == x.attempts && x.maxAttempts <= j.maxAttempts
  {
    assert ExecInv(s, e, s.execs[e]);
  }

  /** One executor leaves, and its job stops running. */
  lemma JobEnds(s: State, t: State, e: ExecId, after: Job)
    requires Alone(s, e) && s.execs[e].job < |s.jobs| && s.execs[e].ref < |s.cells|
    requires after.state != Running && after.kind == SendJob && after.ref == s.execs[e].ref
    requires t == s.(jobs := s.jobs[s.execs[e].job := after], execs := s.execs - {e})
    ensures LeavesWorkExactly(s, t, s.execs[e].ref, Claimable(after))
  {
    var (j, x) := (s.execs[e].job, s.execs[e].ref);
    if Claimable(after) {
      assert WaitsFor(t.jobs[j], x) && WorksOn(t.jobs[j], x);
    }
    assert forall i :: 0 <= i < |t.jobs| && i != j ==> t.jobs[i] == s.jobs[i];
    if i :| 0 <= i < |t.jobs| && WaitsFor(t.jobs[i], x) && i != j {
      assert WorksOn(s.jobs[i], x);
    }
  }

  /** The same of a sweep that has decided about an orphan: it leaves work exactly when it
      puts the job back below its ceiling. */
  lemma SweepStrandsExactly(steps: seq<Step>, e: ExecId)
    requires After(steps).Some? && Enabled(After(steps).value, SweepFinish(e)) && Alone(After(steps).value, e)
    ensures var (s, t) := (After(steps).value, Apply(After(steps).value, SweepFinish(e)));
            var x := s.execs[e];
            var left := x.at.verdict == SafeToDispatch && s.jobs[x.job].attempts < s.jobs[x.job].maxAttempts;
            LeavesWorkExactly(s, t, x.ref, left)
  {
    var (s, t) := (After(steps).value, Apply(After(steps).value, SweepFinish(e)));
    var x := s.execs[e];
    ReachableInv(steps);
    assert ExecInv(s, e, x);
    JobEnds(s, t, e, t.jobs[x.job]);
  }

  // ------------------------------------------------------------------
  // A send without work stays where it is
  // ------------------------------------------------------------------

  predicate WorksOn(j: Job, x: nat) {
    j.kind == SendJob && j.ref == x && Runnable(j)
  }

  /** A job of the send is running, or waits where a claim can take it. */
  predicate Scheduled(jobs: seq<Job>, x: nat) {
    exists j :: 0 <= j < |jobs| && WorksOn(jobs[j], x)
  }

  predicate Unattended(s: State, x: nat) {
    forall e :: e in s.execs && s.execs[e].kind == SendJob ==> s.execs[e].ref != x
  }

  /** In flight, and nobody is on it or will be. */
  predicate Stranded(s: State, x: nat) {
    x < |s.cells| && s.cells[x].row.state == InFlight && !Scheduled(s.jobs, x) && Unattended(s, x)
  }

  lemma IdleAt(jobs: seq<Job>, x: nat, j: nat)
    requires !Scheduled(jobs, x) && j < |jobs|
    ensures !WorksOn(jobs[j], x)
  {
  }

  /** A job keeps what it is for, and does not come to where it can be run. */
  predicate NoLivelier(before: Job, after: Job) {
    after.kind == before.kind && after.ref == before.ref && (Runnable(after) ==> Runnable(before))
  }

  lemma JobsPassBy(s: State, t: State, x: nat)
    requires Stranded(s, x) && t.cells == s.cells && |t.jobs| == |s.jobs|
    requires forall j :: 0 <= j < |s.jobs| ==> NoLivelier(s.jobs[j], t.jobs[j])
    requires forall e :: e in t.execs ==> e in s.execs && t.execs[e].kind == s.execs[e].kind && t.execs[e].ref == s.execs[e].ref
    ensures Stranded(t, x)
  {
    if j :| 0 <= j < |t.jobs| && WorksOn(t.jobs[j], x) {
      IdleAt(s.jobs, x, j);
    }
  }

  lemma FinishedNoLivelier(j: Job, x: Exec, now: nat, delay: nat)
    ensures NoLivelier(j, Finished(j, x, now, delay))
  {
  }

  lemma ClaimedIsOther(s: State, worker: nat, limit: nat, locked: set<nat>, x: nat)
    requires Stranded(s, x)
    ensures forall j :: j in ToClaim(s.jobs, s.now, locked, limit) ==> !(s.jobs[j].kind == SendJob && s.jobs[j].ref == x)
  {
    forall j | j in ToClaim(s.jobs, s.now, locked, limit) ensures !(s.jobs[j].kind == SendJob && s.jobs[j].ref == x) {
      assert Eligible(s.jobs, s.now, j);
      IdleAt(s.jobs, x, j);
    }
  }

  lemma ClaimPassesBy(s: State, worker: nat, limit: nat, locked: set<nat>, x: nat)
    requires Stranded(s, x)
    ensures Stranded(Apply(s, Claim(worker, limit, locked)), x)
  {
    var t := Apply(s, Claim(worker, limit, locked));
    ClaimedIsOther(s, worker, limit, locked, x);
    if j :| 0 <= j < |t.jobs| && WorksOn(t.jobs[j], x) {
      IdleAt(s.jobs, x, j);
    }
  }

  lemma SweepPassesBy(s: State, step: Step, x: nat)
    requires Inv(s) && Stranded(s, x) && Enabled(s, step)
    requires step.Finish? || step.SweepFinish? || step.SweepAdapterRun?
    ensures Stranded(Apply(s, step), x) && Apply(s, step).cells[x] == s.cells[x]
  {
    if step.Finish? {
      var y := s.execs[step.exec];
      FinishedNoLivelier(s.jobs[y.job], y, s.now, step.delay);
    }
    JobsPassBy(s, Apply(s, step), x);
  }

  lemma ExecPassesBy(s: State, step: Step, x: nat)
    requires Inv(s) && Stranded(s, x) && Enabled(s, step)
    requires step.Begin? || step.Act? || step.EndAdapter? || step.LoseLock? || step.Abort? || step.Crash? || step.Tick?
    ensures Stranded(Apply(s, step), x) && Apply(s, step).cells[x] == s.cells[x]
  {
    if step.Act? {
      assert ExecInv(s, step.exec, s.execs[step.exec]);
    }
    assert Apply(s, step).jobs == s.jobs;
  }

  lemma SelectPassesBy(s: State, serial: nat, j: nat, x: nat)
    requires Stranded(s, x) && Enabled(s, SelectStale(serial, j))
    ensures Stranded(Apply(s, SelectStale(serial, j)), x) && Apply(s, SelectStale(serial, j)).cells[x] == s.cells[x]
  {
    IdleAt(s.jobs, x, j);
  }

  /** No step but a person's moves it. */
  lemma AutomaticPassesBy(s: State, step: Step, x: nat)
    requires Inv(s) && Stranded(s, x) && Enabled(s, step) && JobProgress.Automatic(step)
    ensures Stranded(Apply(s, step), x) && Apply(s, step).cells[x] == s.cells[x]
  {
    if step.Claim? {
      ClaimPassesBy(s, step.worker, step.limit, step.locked, x);
    } else if step.SelectStale? {
      SelectPassesBy(s, step.serial, step.job, x);
    } else if step.Finish? || step.SweepFinish? || step.SweepAdapterRun? {
      SweepPassesBy(s, step, x);
    } else {
      ExecPassesBy(s, step, x);
    }
  }

  /** Whatever the workers and sweepers do from here on, the send stays in flight and
      nothing goes out. */
  lemma {:induction false} StrandedForGood(steps: seq<Step>, more: seq<Step>, x: nat)
    requires After(steps + more).Some? && forall k :: 0 <= k < |more| ==> JobProgress.Automatic(more[k])
    requires After(steps).Some? && Stranded(After(steps).value, x)
    ensures Stranded(After(steps + more).value, x)
    ensures After(steps + more).value.cells[x] == After(steps).value.cells[x]
  {
    if more == [] {
      assert steps + more == steps;
    } else {
      var n := |more| - 1;
      var run := steps + more[..n];
      assert (steps + more)[..|steps + more| - 1] == run && (steps + more)[|steps + more| - 1] == more[n];
      LastStep(steps + more);
      StrandedForGood(steps, more[..n], x);
      ReachableInv(run);
      StrandedNext(After(run).value, more[n], After(steps + more).value, x, After(steps).value.cells[x]);
    }
  }

  lemma StrandedNext(s: State, step: Step, t: State, x: nat, c: Cell)
    requires Inv(s) && Stranded(s, x) && s.cells[x] == c && Enabled(s, step) && JobProgress.Automatic(step) && t == Apply(s, step)
    ensures Stranded(t, x) && t.cells[x] == c
  {
    AutomaticPassesBy(s, step, x);
  }

  // ------------------------------------------------------------------
  // It happens
  // ------------------------------------------------------------------

  /** One claimed job and its worker, at the start of the clock. */
  function Working(c: Cell, at: Point): State {
    State([c], [ClaimRow(TheJob(), 7, 0, SEND_LEASE)],
          map[FIRST := NewExec(0, TheJob(), 7, 0).(at := at, until := SEND_DEADLINE)], 0)
  }

  lemma ClaimsTheJob()
    ensures var s := State([TheCell(5)], [TheJob()], map[], 0);
            Apply(s, Claim(7, 1, {}))
              == State([TheCell(5)], [ClaimRow(TheJob(), 7, 0, SEND_LEASE)], map[FIRST := NewExec(0, TheJob(), 7, 0)], 0)
  {
    OnlyJobIsTaken();
    var execs := NewExecs([TheJob()], {0}, 7, 0);
    assert forall e :: e in execs <==> e == FIRST;
    assert execs == map[FIRST := NewExec(0, TheJob(), 7, 0)];
    assert map[] + execs == execs;
    assert Claimed([TheJob()], 0, {}, 1, 7, JOB_LEASE, SEND_LEASE) == [ClaimRow(TheJob(), 7, 0, SEND_LEASE)];
  }

  lemma Begins(s: State)
    requires s == State([TheCell(5)], [ClaimRow(TheJob(), 7, 0, SEND_LEASE)], map[FIRST := NewExec(0, TheJob(), 7, 0)], 0)
    ensures Enabled(s, Begin(FIRST)) && Apply(s, Begin(FIRST)) == Working(TheCell(5), Load)
  {
  }

  lemma OpensWorking()
    ensures After(Opening(5)) == Some(Working(TheCell(5), Load))
  {
    Submitted(5);
    ClaimsTheJob();
    Extend(Opening(5)[..1], Claim(7, 1, {}));
    assert Opening(5)[..1] + [Claim(7, 1, {})] == Opening(5)[..2];
    Begins(After(Opening(5)[..2]).value);
    Extend(Opening(5)[..2], Begin(FIRST));
    assert Opening(5)[..2] + [Begin(FIRST)] == Opening(5);
  }

  lemma ActEnabled(c: Cell, at: Point, a: Answer)
    requires Handling(at) && Possible(c, at, a, 0)
    ensures Enabled(Working(c, at), Act(FIRST, a))
  {
  }

  lemma SameWork(c: Cell, at: Point, d: Cell, to: Point)
    ensures var s := Working(c, at);
            s.(cells := s.cells[0 := d], execs := s.execs[FIRST := s.execs[FIRST].(at := to)]) == Working(d, to)
  {
  }

  lemma Works(steps: seq<Step>, c: Cell, at: Point, a: Answer)
    requires After(steps) == Some(Working(c, at)) && Handling(at) && Possible(c, at, a, 0)
    ensures After(steps + [Act(FIRST, a)]) == Some(Working(Effect(c, at, a, 0), Following(c, at, a, 1, 1)))
  {
    ActEnabled(c, at, a);
    ActApplied(Working(c, at), FIRST, a);
    SameWork(c, at, Effect(c, at, a, 0), Following(c, at, a, 1, 1));
    Extend(steps, Act(FIRST, a));
  }

  lemma ReachesCall() returns (steps: seq<Step>, c: Cell)
    ensures After(steps) == Some(Working(c, Call(None, 0, 5))) && c.channel == Fake && c.row.state == InFlight
  {
    OpensWorking();
    steps, c := Opening(5), TheCell(5);
    Works(steps, c, Load, Done);
    steps := steps + [Act(FIRST, Done)];
    Works(steps, c, Prepare(None, true, 0), Prepared(None));
    steps := steps + [Act(FIRST, Prepared(None))];
    Works(steps, c, SendHandler.Commit(None, true, 0, 5), Done);
    steps, c := steps + [Act(FIRST, Done)], c.(row := CommitDispatchAttempt(c.row, None, 0));
  }

  /** The worker records a permanent failure and is about to record its job's. */
  lemma FailsForGood() returns (steps: seq<Step>, c: Cell)
    ensures After(steps) == Some(Working(c, Settle(RaisedError(Permanent))))
    ensures c.row.state == FailedPermanent
  {
    steps, c := ReachesCall();
    Works(steps, c, Call(None, 0, 5), Raised(Permanent, None));
    c := Effect(c, Call(None, 0, 5), Raised(Permanent, None), 0);
    steps := steps + [Act(FIRST, Raised(Permanent, None))];
    Works(steps, c, FailForGood(Permanent, None), Done);
    steps, c := steps + [Act(FIRST, Done)], Effect(c, FailForGood(Permanent, None), Done, 0);
  }

  function Abandoned(c: Cell, now: nat): State {
    State([c], [ClaimRow(TheJob(), 7, 0, SEND_LEASE)], map[], now)
  }

  function Reconciling(c: Cell, at: Point): State {
    Abandoned(c, LATER).(execs := map[Sweeper(0) := Exec(0, SendJob, 0, 0, 1, 1, 0, 0, at, true)])
  }

  lemma Dies(c: Cell, at: Point)
    ensures Enabled(Working(c, at), Crash(FIRST)) && Apply(Working(c, at), Crash(FIRST)) == Abandoned(c, 0)
  {
    assert map[FIRST := Working(c, at).execs[FIRST]] - {FIRST} == map[];
  }

  lemma IsFound(c: Cell)
    ensures Enabled(Abandoned(c, LATER), SelectStale(0, 0))
    ensures Apply(Abandoned(c, LATER), SelectStale(0, 0)) == Reconciling(c, ReconcileLoad(Sweeping))
  {
  }

  lemma IsTerminal(c: Cell)
    requires c.row.state != InFlight
    ensures var s := Reconciling(c, ReconcileLoad(Sweeping));
            Enabled(s, Act(Sweeper(0), Done))
            && Apply(s, Act(Sweeper(0), Done)) == Reconciling(c, SweepEnd(JobRows.Settled))
  {
    ActApplied(Reconciling(c, ReconcileLoad(Sweeping)), Sweeper(0), Done);
  }

  lemma IsResolved(c: Cell)
    ensures var s := Reconciling(c, SweepEnd(JobRows.Settled));
            Enabled(s, SweepFinish(Sweeper(0)))
            && Apply(s, SweepFinish(Sweeper(0)))
                 == State([c], [JobRows.Resolve(ClaimRow(TheJob(), 7, 0, SEND_LEASE), LATER)], map[], LATER)
  {
    assert Reconciling(c, SweepEnd(JobRows.Settled)).execs - {Sweeper(0)} == map[];
  }

  /** The sweeper finds a row that is terminal already and finishes the job. */
  lemma SweptAway(steps: seq<Step>, c: Cell, at: Point) returns (swept: seq<Step>)
    requires After(steps) == Some(Working(c, at)) && c.row.state == FailedPermanent
    ensures After(swept) == Some(State([c], [JobRows.Resolve(ClaimRow(TheJob(), 7, 0, SEND_LEASE), LATER)], map[], LATER))
  {
    Dies(c, at);
    Extend(steps, Crash(FIRST));
    swept := steps + [Crash(FIRST)];
    Extend(swept, Tick(LATER));
    swept := swept + [Tick(LATER)];
    IsFound(c);
    Extend(swept, SelectStale(0, 0));
    swept := swept + [SelectStale(0, 0)];
    IsTerminal(c);
    Extend(swept, Act(Sweeper(0), Done));
    swept := swept + [Act(Sweeper(0), Done)];
    IsResolved(c);
    Extend(swept, SweepFinish(Sweeper(0)));
    swept := swept + [SweepFinish(Sweeper(0))];
  }

  /** The window needs no crash and no sweep: the handler has recorded the failure, its claim
      has not, and the retry trusts the running job. */
  lemma RetryInWindowStrands() returns (steps: seq<Step>, retried: State)
    ensures After(steps).Some? && LiveWorker(After(steps).value, FIRST)
    ensures After(steps + [OperatorRetries(0)]) == Some(retried)
    ensures Scheduled(retried.jobs, 0) && !Waiting(retried.jobs, 0) && Alone(retried, FIRST)
    ensures After(steps + [OperatorRetries(0)] + [Step.Finish(FIRST, 0)]).Some?
    ensures Stranded(After(steps + [OperatorRetries(0)] + [Step.Finish(FIRST, 0)]).value, 0)
  {
    var c: Cell;
    steps, c := FailsForGood();
    Extend(steps, OperatorRetries(0));
    retried := After(steps + [OperatorRetries(0)]).value;
    assert retried.jobs == [ClaimRow(TheJob(), 7, 0, SEND_LEASE)] && WorksOn(retried.jobs[0], 0);
    Extend(steps + [OperatorRetries(0)], Step.Finish(FIRST, 0));
    SettledClaimStrandsExactly(steps + [OperatorRetries(0)], FIRST, 0);
  }

  /** A retry may leave its send with no work behind it: the worker recorded the failure
      and died, the sweep finished the job, and the retry trusts that job. */
  lemma RetryMayStrand()
    ensures exists steps :: After(steps).Some? && Stranded(After(steps).value, 0)
  {
    var steps, c := FailsForGood();
    steps := SweptAway(steps, c, Settle(RaisedError(Permanent)));
    var s := After(steps).value;
    Extend(steps, OperatorRetries(0));
    assert LatestJob(s.jobs, 0) == Some(0);
    RetrySchedulesExactly(s, 0);
    assert Stranded(After(steps + [OperatorRetries(0)]).value, 0);
  }
}
