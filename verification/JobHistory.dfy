/** The columns of a job's row, read off the history of the run: which step wrote them,
    when, and what for (`packages/core/jobs/queue.py`). */
module JobHistory {
  import opened Basics
  import SendRows
  import opened JobRows
  import opened JobTable
  import opened SendHandler
  import opened SendSystem
  import opened SendSafety

  /** What a step does to a job: it is claimed until an instant, its claim ends well, is put
      off, or ends it, a sweep puts it back, parks it or finishes it, or it is resumed. */
  datatype Event =
    | Untouched
    | Taken(worker: nat, until: nat)
    | EndedWell
    | PutOff(delay: nat)
    | EndedBadly(state: JobState, cls: ErrorClass)
    | PutBack
    | ParkedBySweep
    | FinishedBySweep
    | ResumedBy(grant: nat)

  /** What the finish of a claim means for its job. */
  function FinishEvent(j: Job, x: Exec, delay: nat): Event {
    if j.state != Running || j.claimedBy != Some(x.worker) || !x.at.Settle? then Untouched
    else
      match x.at.outcome
      case Returned => EndedWell
      case RaisedError(cls) =>
        if cls != Transient then EndedBadly(FailedJob, cls)
        else if x.attempts >= x.maxAttempts then EndedBadly(Parked, Transient)
        else PutOff(delay)
  }

  /** An operator's step resumes the newest job of its send, if that has ended badly. */
  predicate Resumes(s: State, step: Step, i: nat) {
    && ((step.OperatorRetries? && step.send < |s.cells| && SendRows.Failed(s.cells[step.send].row)
         && LatestJob(s.jobs, step.send) == Some(i))
        || (step.OperatorResends? && step.send < |s.cells| && s.cells[step.send].row.state == SendRows.Uncertain
            && LatestJob(s.jobs, step.send) == Some(i)))
    && i < |s.jobs| && (s.jobs[i].state == Parked || s.jobs[i].state == FailedJob)
  }

  /** What a step means for job `i`. */
  function EventOf(s: State, step: Step, i: nat): Event
    requires i < |s.jobs|
  {
    match step
    case Claim(worker, limit, locked) =>
      if i in ToClaim(s.jobs, s.now, locked, limit)
      then Taken(worker, s.now + if s.jobs[i].kind == SendJob then 300_000_000 else 90_000_000) else Untouched
    case Finish(e, delay) =>
      if e in s.execs && s.execs[e].job == i then FinishEvent(s.jobs[i], s.execs[e], delay) else Untouched
    case SweepFinish(e) =>
      if e in s.execs && s.execs[e].job == i && s.jobs[i].state == Running then
        (if s.execs[e].at == SweepEnd(SafeToDispatch) then PutBack else FinishedBySweep)
      else Untouched
    case SweepAdapterRun(j) =>
      if i == j && s.jobs[i].state == Running then
        (if s.jobs[i].attempts >= s.jobs[i].maxAttempts then ParkedBySweep else PutBack)
      else Untouched
    case _ => if Resumes(s, step, i) then ResumedBy(1) else Untouched
  }

  /** The state an event leaves. */
  function StateAfter(v: Event): JobState
    requires !v.Untouched?
  {
    match v
    case Taken(_, _) => Running
    case EndedWell => Succeeded
    case PutOff(_) => Ready
    case EndedBadly(state, _) => state
    case PutBack => Ready
    case ParkedBySweep => Parked
    case FinishedBySweep => Succeeded
    case ResumedBy(_) => Ready
  }

  /** What each event writes, column by column; a column that is not named stays. */
  predicate Writes(r: Job, t: Job, v: Event, now: nat) {
    && t.kind == r.kind && t.ref == r.ref && t.dedupeKey == r.dedupeKey && t.partition == r.partition && t.priority == r.priority
    && t.state == (if v.Untouched? then r.state else StateAfter(v))
    && t.attempts == r.attempts + (if v.Taken? then 1 else 0)
    && t.maxAttempts == (if v.ResumedBy? && r.maxAttempts < r.attempts + v.grant then r.attempts + v.grant else r.maxAttempts)
    && t.runAt == (if v.PutOff? then now + v.delay else if v.PutBack? || v.ResumedBy? then now else r.runAt)
    && t.claimedAt == (if v.Taken? then Some(now) else r.claimedAt)
    && t.claimedBy == (if v.Taken? then Some(v.worker) else r.claimedBy)
    && t.leaseExpiresAt == (if v.Taken? then Some(v.until) else if v.Untouched? then r.leaseExpiresAt else None)
    && t.startedAt == (if v.Taken? && r.startedAt.None? then Some(now) else r.startedAt)
    && t.finishedAt == (if v.EndedWell? || v.EndedBadly? || v.ParkedBySweep? || v.FinishedBySweep? then Some(now)
                        else if v.ResumedBy? then None else r.finishedAt)
    && t.backoff == (if v.PutOff? then Some(v.delay)
                     else if v.EndedWell? || v.EndedBadly? || v.FinishedBySweep? || v.ResumedBy? then None else r.backoff)
    && t.lastError == (if v.PutOff? || v.ParkedBySweep? then Some(Transient) else if v.EndedBadly? then Some(v.cls) else r.lastError)
  }

  lemma FinishWrites(j: Job, x: Exec, now: nat, delay: nat)
    requires x.at.Settle?
    ensures Writes(j, Finished(j, x, now, delay), FinishEvent(j, x, delay), now)
  {
  }

  /** A step that ends a sweep of a job. */
  predicate Sweeps(step: Step) {
    step.SweepFinish? || step.SweepAdapterRun?
  }

  /** A step that may resume one. */
  predicate MayResume(step: Step) {
    step.OperatorRetries? || step.OperatorResends?
  }

  lemma SweepWrites(s: State, step: Step, i: nat)
    requires Enabled(s, step) && i < |s.jobs| && Sweeps(step)
    ensures i < |Apply(s, step).jobs| && Writes(s.jobs[i], Apply(s, step).jobs[i], EventOf(s, step, i), s.now)
  {
  }

  lemma ResumeWrites(s: State, step: Step, i: nat)
    requires Enabled(s, step) && i < |s.jobs| && MayResume(step)
    ensures i < |Apply(s, step).jobs| && Writes(s.jobs[i], Apply(s, step).jobs[i], EventOf(s, step, i), s.now)
  {
  }

  lemma OtherWrites(s: State, step: Step, i: nat)
    requires Enabled(s, step) && i < |s.jobs| && !step.Finish? && !step.Claim? && !Sweeps(step) && !MayResume(step)
    ensures i < |Apply(s, step).jobs| && Writes(s.jobs[i], Apply(s, step).jobs[i], EventOf(s, step, i), s.now)
  {
  }

  lemma ClaimWrites(s: State, worker: nat, limit: nat, locked: set<nat>, i: nat)
    requires i < |s.jobs|
    ensures var t := Apply(s, Claim(worker, limit, locked));
            i < |t.jobs| && Writes(s.jobs[i], t.jobs[i], EventOf(s, Claim(worker, limit, locked), i), s.now)
  {
  }

  /** A step writes to a job what the event it is for that job calls for, and nothing else. */
  lemma StepWrites(s: State, step: Step, i: nat)
    requires Enabled(s, step) && i < |s.jobs|
    ensures i < |Apply(s, step).jobs| && Writes(s.jobs[i], Apply(s, step).jobs[i], EventOf(s, step, i), s.now)
  {
    if step.Finish? {
      FinishWrites(s.jobs[s.execs[step.exec].job], s.execs[step.exec], s.now, step.delay);
    } else if step.Claim? {
      ClaimWrites(s, step.worker, step.limit, step.locked, i);
    } else if Sweeps(step) {
      SweepWrites(s, step, i);
    } else if MayResume(step) {
      ResumeWrites(s, step, i);
    } else {
      OtherWrites(s, step, i);
    }
  }

  // ------------------------------------------------------------------
  // Over a run
  // ------------------------------------------------------------------

  /** What step `k` means for job `i`; nothing, before the job exists. */
  ghost function EventAt(steps: seq<Step>, k: nat, i: nat): Event
    requires k < |steps|
  {
    var s := After(steps[..k]);
    if s.Some? && i < |s.value.jobs| then EventOf(s.value, steps[k], i) else Untouched
  }

  ghost function InstantOf(steps: seq<Step>, k: nat): nat
    requires k <= |steps|
  {
    if After(steps[..k]).Some? then After(steps[..k]).value.now else 0
  }

  ghost function TakesOf(steps: seq<Step>, i: nat): nat {
    if steps == [] then 0
    else TakesOf(steps[..|steps| - 1], i) + if EventAt(steps, |steps| - 1, i).Taken? then 1 else 0
  }

  /** The first claim's instant. */
  ghost function FirstTake(steps: seq<Step>, i: nat): Option<nat> {
    if steps == [] then None
    else
      var (k, earlier) := (|steps| - 1, FirstTake(steps[..|steps| - 1], i));
      if earlier.None? && EventAt(steps, k, i).Taken? then Some(InstantOf(steps, k)) else earlier
  }

  /** The latest claim's instant and worker. */
  ghost function LastTake(steps: seq<Step>, i: nat): Option<(nat, nat)> {
    if steps == [] then None
    else
      var (k, v) := (|steps| - 1, EventAt(steps, |steps| - 1, i));
      if v.Taken? then Some((InstantOf(steps, k), v.worker)) else LastTake(steps[..k], i)
  }

  /** The last event, and its instant. */
  ghost function LastEvent(steps: seq<Step>, i: nat): Option<(Event, nat)> {
    if steps == [] then None
    else
      var (k, v) := (|steps| - 1, EventAt(steps, |steps| - 1, i));
      if v.Untouched? then LastEvent(steps[..k], i) else Some((v, InstantOf(steps, k)))
  }

  predicate Finishes(v: Event) {
    v.EndedWell? || v.EndedBadly? || v.ParkedBySweep? || v.FinishedBySweep?
  }

  /** A bad end is one of two. */
  predicate Proper(v: Event) {
    v.EndedBadly? ==> v.state == Parked || v.state == FailedJob
  }

  /** What a row says of its claims and of its last event. */
  predicate RowTells(j: Job, takes: nat, first: Option<nat>, latest: Option<(nat, nat)>, last: Option<(Event, nat)>) {
    && j.attempts == takes
    && j.startedAt == first
    && (if latest.None? then j.claimedAt.None? && j.claimedBy.None?
        else j.claimedAt == Some(latest.value.0) && j.claimedBy == Some(latest.value.1))
    && (last.Some? ==> !last.value.0.Untouched? && Proper(last.value.0))
    && j.state == (if last.None? then Ready else StateAfter(last.value.0))
    && j.leaseExpiresAt == (if last.Some? && last.value.0.Taken? then Some(last.value.0.until) else None)
    && j.finishedAt == (if last.Some? && Finishes(last.value.0) then Some(last.value.1) else None)
  }

  ghost predicate Tells(steps: seq<Step>, i: nat, j: Job) {
    RowTells(j, TakesOf(steps, i), FirstTake(steps, i), LastTake(steps, i), LastEvent(steps, i))
  }

  /** Events happen where they can: a claim takes a waiting row, and an ending ends a running one. */
  predicate Fits(j: Job, v: Event) {
    match v
    case Untouched => true
    case Taken(_, _) => j.state == Ready
    case ResumedBy(_) => j.state == Parked || j.state == FailedJob
    case _ => j.state == Running
  }

  lemma EventFits(s: State, step: Step, i: nat)
    requires Enabled(s, step) && i < |s.jobs|
    ensures Fits(s.jobs[i], EventOf(s, step, i)) && Proper(EventOf(s, step, i))
  {
    if step.Claim? && i in ToClaim(s.jobs, s.now, step.locked, step.limit) {
      assert Eligible(s.jobs, s.now, i);
    }
  }

  lemma WriteTells(r: Job, t: Job, v: Event, now: nat, takes: nat, first: Option<nat>, latest: Option<(nat, nat)>,
                   last: Option<(Event, nat)>)
    requires Writes(r, t, v, now) && Fits(r, v) && Proper(v) && RowTells(r, takes, first, latest, last)
    ensures RowTells(t, takes + (if v.Taken? then 1 else 0),
                     if first.None? && v.Taken? then Some(now) else first,
                     if v.Taken? then Some((now, v.worker)) else latest,
                     if v.Untouched? then last else Some((v, now)))
  {
  }

  lemma StepTells(steps: seq<Step>, s: State, step: Step, i: nat)
    requires After(steps) == Some(s) && Enabled(s, step) && i < |s.jobs| && Tells(steps, i, s.jobs[i])
    ensures i < |Apply(s, step).jobs| && Tells(steps + [step], i, Apply(s, step).jobs[i])
  {
    var more := steps + [step];
    assert more[..|more| - 1] == steps && more[..|steps|] == steps;
    StepWrites(s, step, i);
    EventFits(s, step, i);
    WriteTells(s.jobs[i], Apply(s, step).jobs[i], EventOf(s, step, i), s.now,
               TakesOf(steps, i), FirstTake(steps, i), LastTake(steps, i), LastEvent(steps, i));
  }

  /** A row as it is booked. */
  predicate JustBooked(j: Job, now: nat) {
    && j.state == Ready && j.attempts == 0 && j.runAt == now && j.priority == 0
    && j.claimedAt.None? && j.claimedBy.None? && j.leaseExpiresAt.None? && j.startedAt.None? && j.finishedAt.None?
    && j.backoff.None? && j.lastError.None?
  }

  lemma {:induction false} NothingYet(steps: seq<Step>, i: nat)
    requires After(steps).Some? && i >= |After(steps).value.jobs|
    ensures TakesOf(steps, i) == 0 && FirstTake(steps, i) == None && LastTake(steps, i) == None && LastEvent(steps, i) == None
  {
    if steps != [] {
      LastStep(steps);
      NeverFewer(After(steps[..|steps| - 1]).value, steps[|steps| - 1]);
      NothingYet(steps[..|steps| - 1], i);
    }
  }

  lemma NeverFewer(s: State, step: Step)
    requires Enabled(s, step)
    ensures |Apply(s, step).jobs| >= |s.jobs|
  {
  }

  lemma Booked(s: State, step: Step, i: nat)
    requires Enabled(s, step) && |s.jobs| <= i < |Apply(s, step).jobs|
    ensures JustBooked(Apply(s, step).jobs[i], s.now)
  {
  }

  lemma NoEventYet(steps: seq<Step>, s: State, step: Step, i: nat)
    requires After(steps) == Some(s) && i >= |s.jobs|
    ensures EventAt(steps + [step], |steps|, i) == Untouched
  {
    assert (steps + [step])[..|steps|] == steps;
  }

  lemma BookedTells(steps: seq<Step>, s: State, step: Step, i: nat, j: Job)
    requires After(steps) == Some(s) && i >= |s.jobs| && JustBooked(j, s.now)
    ensures Tells(steps + [step], i, j)
  {
    var more := steps + [step];
    assert more[..|more| - 1] == steps;
    NoEventYet(steps, s, step, i);
    NothingYet(steps, i);
    assert TakesOf(more, i) == 0 && FirstTake(more, i) == None;
    assert LastTake(more, i) == None && LastEvent(more, i) == None;
  }

  /** A job's row says what the run says: how often it was claimed, when first, when and by
      whom last, and what its last event made of its state, its lease and its end. */
  lemma {:induction false} JobIsItsHistory(steps: seq<Step>, i: nat)
    requires After(steps).Some? && i < |After(steps).value.jobs|
    ensures Tells(steps, i, After(steps).value.jobs[i])
  {
    var n := |steps| - 1;
    LastStep(steps);
    assert steps == steps[..n] + [steps[n]];
    var s := After(steps[..n]).value;
    if i < |s.jobs| {
      JobIsItsHistory(steps[..n], i);
      StepTells(steps[..n], s, steps[n], i);
    } else {
      Booked(s, steps[n], i);
      BookedTells(steps[..n], s, steps[n], i, Apply(s, steps[n]).jobs[i]);
    }
  }

  /** A claim's handler has two minutes for a send and half a minute for a run, which end
      inside its lease of five minutes or one and a half. */
  lemma DeadlineInsideLease(s: State, e: ExecId)
    requires Enabled(s, Begin(e))
    ensures var x := Apply(s, Begin(e)).execs[e];
            && x.until == s.now + (if x.kind == SendJob then 120_000_000 else 30_000_000)
            && x.until <= x.lease == s.execs[e].lease
  {
  }
}
