/** The guarantees of the send gate over whole runs: any interleaving, a crash
    between any two steps, lost responses, retries, sweeps and operators. */
module SendSafety {
  import opened Basics
  import opened SendRows
  import opened Probes
  import opened JobRows
  import opened JobTable
  import opened SendHandler
  import opened SendInvariant
  import opened SendSystem
  import opened SystemInvariant

  // ------------------------------------------------------------------
  // Counting events of a run
  // ------------------------------------------------------------------

  /** The worker is about to call the provider's `send` for this send. */
  predicate Calling(s: State, step: Step, x: nat) {
    step.Act? && step.exec in s.execs && s.execs[step.exec].at.Call? && s.execs[step.exec].ref == x
  }

  ghost function CallsOf(steps: seq<Step>, x: nat): nat {
    if steps == [] then 0
    else
      var n := |steps| - 1;
      var before := After(steps[..n]);
      CallsOf(steps[..n], x) + if before.Some? && Calling(before.value, steps[n], x) then 1 else 0
  }

  /** Calls the provider accepted: the messages that went out. */
  ghost function AcceptedOf(steps: seq<Step>, x: nat): nat {
    if steps == [] then 0
    else
      var n := |steps| - 1;
      var before := After(steps[..n]);
      AcceptedOf(steps[..n], x) +
      if before.Some? && Calling(before.value, steps[n], x) && steps[n].answer.Accepted? then 1 else 0
  }

  function CountOf(steps: seq<Step>, step: Step): nat {
    if steps == [] then 0
    else CountOf(steps[..|steps| - 1], step) + if steps[|steps| - 1] == step then 1 else 0
  }

  predicate Tallied(s: State, x: nat, calls: nat, accepted: nat, retries: nat, resends: nat) {
    if x < |s.cells| then
      && s.cells[x].tally.calls == calls && |s.cells[x].sent| == accepted
      && s.cells[x].tally.retries <= retries && s.cells[x].tally.forced <= resends
    else calls == 0 && accepted == 0
  }

  lemma StepTallies(s: State, step: Step, x: nat, calls: nat, accepted: nat, retries: nat, resends: nat)
    requires Enabled(s, step) && Tallied(s, x, calls, accepted, retries, resends)
    ensures var called := Calling(s, step, x);
            Tallied(Apply(s, step), x,
                    calls + (if called then 1 else 0),
                    accepted + (if called && step.answer.Accepted? then 1 else 0),
                    retries + (if step == OperatorRetries(x) then 1 else 0),
                    resends + (if step == OperatorResends(x) then 1 else 0))
  {
    if step.Act? {
    } else if step.SubmitSend? {
    } else {
    }
  }

  /** The counters kept beside a send count events of the run. */
  lemma {:induction false} TalliesCount(steps: seq<Step>, x: nat)
    ensures After(steps).Some? ==>
              Tallied(After(steps).value, x, CallsOf(steps, x), AcceptedOf(steps, x),
                      CountOf(steps, OperatorRetries(x)), CountOf(steps, OperatorResends(x)))
  {
    if steps != [] {
      var n := |steps| - 1;
      TalliesCount(steps[..n], x);
      var before := After(steps[..n]);
      if before.Some? && Enabled(before.value, steps[n]) {
        StepTallies(before.value, steps[n], x, CallsOf(steps[..n], x), AcceptedOf(steps[..n], x),
                    CountOf(steps[..n], OperatorRetries(x)), CountOf(steps[..n], OperatorResends(x)));
      }
    }
  }

  // ------------------------------------------------------------------
  // The guarantees
  // ------------------------------------------------------------------

  /** A message goes out at most once, plus once for each time a person forces a
      resend; through Gmail at most once whatever anybody does. */
  lemma AtMostOnce(steps: seq<Step>, x: nat)
    requires After(steps).Some? && x < |After(steps).value.cells|
    ensures AcceptedOf(steps, x) <= 1 + CountOf(steps, OperatorResends(x))
    ensures After(steps).value.cells[x].channel == Gmail ==> AcceptedOf(steps, x) <= 1
  {
    var s := After(steps).value;
    ReachableInv(steps);
    TalliesCount(steps, x);
    MessagesBounded(s.cells[x], s.now);
  }

  /** Calls to the provider are bounded whatever the attempt ceiling is. */
  lemma CallsBounded(steps: seq<Step>, x: nat)
    requires After(steps).Some? && x < |After(steps).value.cells|
    ensures CallsOf(steps, x)
              <= 4 + 3 * CountOf(steps, OperatorRetries(x)) + 4 * CountOf(steps, OperatorResends(x))
  {
    var s := After(steps).value;
    ReachableInv(steps);
    TalliesCount(steps, x);
    assert CellInv(s.cells[x], s.now);
  }

  /** A delivered send with a provider's id did go out under that id, and a
      `failed_transient` one did not; exactly, while nobody forced a resend. */
  lemma OutcomesTruthful(steps: seq<Step>, x: nat)
    requires After(steps).Some? && x < |After(steps).value.cells|
    ensures var c := After(steps).value.cells[x];
            && (c.row.state == Delivered && c.row.messageId != Some(Attested) ==>
                  c.row.messageId.Some? && Holds(c.sent, c.row.messageId.value.id))
            && (CountOf(steps, OperatorResends(x)) == 0 ==>
                  && (c.row.state == Delivered && c.row.messageId != Some(Attested) ==>
                        |c.sent| == 1 && c.row.messageId == Some(Issued(c.sent[0].id)))
                  && (c.row.state == FailedTransient ==> AcceptedOf(steps, x) == 0)
                  && (c.row.dispatchedAt.None? ==> AcceptedOf(steps, x) == 0))
  {
    var s := After(steps).value;
    ReachableInv(steps);
    TalliesCount(steps, x);
    RowTruthful(s.cells[x], s.now);
  }

  /** When a provider call may be made, the evidence is already durable: the
      dispatch is committed, unless a person forced a resend after the worker had
      committed it, and Gmail is only ever asked to send the recorded draft. */
  lemma EvidenceBeforeCall(steps: seq<Step>, e: ExecId, a: Answer)
    requires After(steps).Some? && Enabled(After(steps).value, Act(e, a))
    requires After(steps).value.execs[e].at.Call?
    ensures var s := After(steps).value;
            var x := s.execs[e].ref;
            var row := s.cells[x].row;
            && EverDispatched(s.cells[x])
            && (CountOf(steps, OperatorResends(x)) == 0 ==> row.dispatchedAt.Some?)
            && row.draftId == s.execs[e].at.draft
            && (s.cells[x].channel == Gmail ==> row.draftId.Some?)
  {
    var s := After(steps).value;
    ReachableInv(steps);
    CallerKnows(s, e, a);
    TalliesCount(steps, s.execs[e].ref);
  }

  lemma CallerKnows(s: State, e: ExecId, a: Answer)
    requires Inv(s) && Enabled(s, Act(e, a)) && s.execs[e].at.Call?
    ensures WorkerInv(s.cells[s.execs[e].ref], s.execs[e].at, s.now)
  {
    assert ExecInv(s, e, s.execs[e]);
  }

  /** Evidence is write-once. */
  predicate Advances(c: Cell, d: Cell, resent: bool) {
    && d.key == c.key && d.channel == c.channel && d.connection == c.connection
    && c.sent <= d.sent
    && (c.row.draftId.Some? ==> d.row.draftId == c.row.draftId)
    && (c.row.dispatchedAt.Some? && !resent ==> d.row.dispatchedAt == c.row.dispatchedAt)
    && (c.row.state == Delivered ==> d.row.state == Delivered && d.row.messageId == c.row.messageId)
  }

  lemma ActAdvances(c: Cell, at: Point, a: Answer, now: nat)
    requires CellInv(c, now) && (WorkerInv(c, at, now) || SweeperInv(c, at))
    ensures Advances(c, Effect(c, at, a, now), false)
  {
  }

  lemma OperatorAdvances(c: Cell, action: OperatorAction, now: nat)
    requires CellInv(c, now)
    ensures Advances(c, Operate(c, action, now), action == Resend)
  {
  }

  lemma StepAdvances(s: State, step: Step, x: nat)
    requires Inv(s) && Enabled(s, step) && x < |s.cells|
    ensures x < |Apply(s, step).cells|
    ensures Advances(s.cells[x], Apply(s, step).cells[x], step == OperatorResends(x))
  {
    if step.Act? {
      ActStepAdvances(s, step.exec, step.answer, x);
    } else if step.OperatorRetries? {
      OperatorAdvances(s.cells[x], RetryFailed, s.now);
    } else if step.OperatorAttests? {
      OperatorAdvances(s.cells[x], AttestDelivered, s.now);
    } else if step.OperatorResends? {
      OperatorAdvances(s.cells[x], Resend, s.now);
    } else if step.EditDraft? {
      OperatorAdvances(s.cells[x], Edit(step.edited), s.now);
    } else {
      assert Apply(s, step).cells[x] == s.cells[x];
    }
  }

  lemma ActStepAdvances(s: State, e: ExecId, a: Answer, x: nat)
    requires Inv(s) && Enabled(s, Act(e, a)) && x < |s.cells|
    ensures Advances(s.cells[x], Apply(s, Act(e, a)).cells[x], false)
  {
    assert ExecInv(s, e, s.execs[e]);
    if s.execs[e].ref == x { ActAdvances(s.cells[x], s.execs[e].at, a, s.now); }
  }

  /** The last step of a run that goes through. */
  lemma LastStep(steps: seq<Step>)
    requires After(steps).Some? && steps != []
    ensures var n := |steps| - 1;
            && After(steps[..n]).Some? && Enabled(After(steps[..n]).value, steps[n])
            && After(steps).value == Apply(After(steps[..n]).value, steps[n])
  {
  }

  ghost predicate Grew(s: State, t: State, x: nat, resent: bool) {
    x < |s.cells| ==> x < |t.cells| && Advances(s.cells[x], t.cells[x], resent)
  }

  lemma GrowsOnce(first: State, before: State, step: Step, x: nat, resent: bool)
    requires Inv(before) && Enabled(before, step) && Grew(first, before, x, resent)
    ensures Grew(first, Apply(before, step), x, resent || step == OperatorResends(x))
  {
    if x < |first.cells| {
      StepAdvances(before, step, x);
    }
  }

  /** Over any stretch of a run the ledger only grows, a recorded draft id never
      changes, `dispatched_at` changes only by a forced resend, and a delivered
      send stays delivered under the same id. */
  lemma {:induction false} EvidenceKept(steps: seq<Step>, more: seq<Step>, x: nat)
    requires After(steps + more).Some?
    ensures After(steps).Some?
    ensures Grew(After(steps).value, After(steps + more).value, x, OperatorResends(x) in more)
    decreases |more|
  {
    if more == [] {
      assert steps + more == steps;
    } else {
      var n := |more| - 1;
      var run := steps + more;
      LastStep(run);
      assert run[..|run| - 1] == steps + more[..n];
      assert more == more[..n] + [more[n]];
      EvidenceKept(steps, more[..n], x);
      ReachableInv(steps + more[..n]);
      GrowsOnce(After(steps).value, After(steps + more[..n]).value, more[n], x, OperatorResends(x) in more[..n]);
    }
  }

  // ------------------------------------------------------------------
  // Asking before sending again
  // ------------------------------------------------------------------

  /** This claim asked the provider at step `i` and was told ABSENT. */
  ghost predicate ToldAbsent(steps: seq<Step>, i: nat, e: ExecId) {
    && i < |steps| && steps[i].Act? && steps[i].exec == e
    && After(steps[..i]).Some?
    && var s := After(steps[..i]).value;
       && e in s.execs && s.execs[e].at.ReconcileProbe? && s.execs[e].ref < |s.cells|
       && Probe(s.cells[s.execs[e].ref], s.execs[e].at.draft, steps[i].answer) == Absent
  }

  predicate BeyondAbsent(at: Point) {
    match at
    case ReconcileAbsent(_) => true
    case Prepare(_, unprobed, _) => !unprobed
    case Commit(_, unprobed, _, _) => !unprobed
    case _ => false
  }

  predicate PastAbsent(s: State, e: ExecId) {
    e in s.execs && BeyondAbsent(s.execs[e].at)
  }

  lemma OnlyAbsentLeadsBeyond(c: Cell, at: Point, a: Answer, attempts: nat, maxAttempts: nat)
    requires BeyondAbsent(Following(c, at, a, attempts, maxAttempts)) && !BeyondAbsent(at)
    ensures at.ReconcileProbe? && Probe(c, at.draft, a) == Absent
  {
  }

  lemma OthersStayBehind(s: State, step: Step, e: ExecId)
    requires Enabled(s, step) && !(step.Act? && step.exec == e)
    ensures PastAbsent(Apply(s, step), e) ==> PastAbsent(s, e)
  {
  }

  lemma ReachesPastAbsent(s: State, step: Step, e: ExecId)
    requires Enabled(s, step) && PastAbsent(Apply(s, step), e) && !PastAbsent(s, e)
    ensures step.Act? && step.exec == e && s.execs[e].at.ReconcileProbe?
    ensures Probe(s.cells[s.execs[e].ref], s.execs[e].at.draft, step.answer) == Absent
  {
    if step.Act? && step.exec == e {
      var x := s.execs[e];
      OnlyAbsentLeadsBeyond(s.cells[x.ref], x.at, step.answer, x.attempts, x.maxAttempts);
    } else {
      OthersStayBehind(s, step, e);
    }
  }

  lemma {:induction false} PastAbsentWasTold(steps: seq<Step>, e: ExecId)
    requires After(steps).Some? && PastAbsent(After(steps).value, e)
    ensures exists i: nat :: ToldAbsent(steps, i, e)
  {
    var n := |steps| - 1;
    LastStep(steps);
    var before := After(steps[..n]).value;
    if PastAbsent(before, e) {
      PastAbsentWasTold(steps[..n], e);
      var i: nat :| ToldAbsent(steps[..n], i, e);
      assert steps[..n][..i] == steps[..i];
      assert ToldAbsent(steps, i, e);
    } else {
      ReachesPastAbsent(before, steps[n], e);
      assert ToldAbsent(steps, n, e);
    }
  }

  /** A send with `dispatched_at` set is never dispatched again unless the same
      claim has asked the provider and was told the message is not there. So a
      requeue after an inconclusive probe cannot reach the provider unasked. */
  lemma NeverRedispatchedUnasked(steps: seq<Step>, e: ExecId, a: Answer)
    requires After(steps).Some? && Enabled(After(steps).value, Act(e, a))
    requires After(steps).value.execs[e].at.Commit?
    requires var s := After(steps).value; s.cells[s.execs[e].ref].row.dispatchedAt.Some?
    ensures exists i: nat :: ToldAbsent(steps, i, e)
  {
    var s := After(steps).value;
    ReachableInv(steps);
    assert ExecInv(s, e, s.execs[e]);
    PastAbsentWasTold(steps, e);
  }

  // ------------------------------------------------------------------
  // What the sweeper puts back
  // ------------------------------------------------------------------

  /** At step `i` this reconciler found that nothing was dispatched, or recorded an ABSENT,
      or recorded an inconclusive probe with probes left. */
  ghost predicate FoundSafe(steps: seq<Step>, i: nat, e: ExecId) {
    && i < |steps| && steps[i].Act? && steps[i].exec == e
    && After(steps[..i]).Some?
    && var s := After(steps[..i]).value;
       && e in s.execs && s.execs[e].ref < |s.cells|
       && var row := s.cells[s.execs[e].ref].row;
          match s.execs[e].at
          case ReconcileLoad(_) => row.state == InFlight && row.dispatchedAt.None?
          case ReconcileAbsent(_) => true
          case ReconcileAgain(_) => true
          case _ => false
  }

  predicate Safe(s: State, e: ExecId) {
    e in s.execs && s.execs[e].at == SweepEnd(SafeToDispatch)
  }

  lemma BecomesSafe(s: State, step: Step, e: ExecId)
    requires Enabled(s, step) && Safe(Apply(s, step), e) && !Safe(s, e)
    ensures step.Act? && step.exec == e
    ensures var x := s.execs[e];
            var row := s.cells[x.ref].row;
            || (x.at.ReconcileLoad? && row.state == InFlight && row.dispatchedAt.None?)
            || x.at.ReconcileAbsent? || x.at.ReconcileAgain?
  {
  }

  lemma {:induction false} SafeWasFound(steps: seq<Step>, e: ExecId)
    requires After(steps).Some? && Safe(After(steps).value, e)
    ensures exists i: nat :: FoundSafe(steps, i, e)
  {
    var n := |steps| - 1;
    LastStep(steps);
    var before := After(steps[..n]).value;
    if Safe(before, e) {
      SafeWasFound(steps[..n], e);
      var i: nat :| FoundSafe(steps[..n], i, e);
      assert steps[..n][..i] == steps[..i];
      assert FoundSafe(steps, i, e);
    } else {
      BecomesSafe(before, steps[n], e);
      assert FoundSafe(steps, n, e);
    }
  }

  /** A sweep returns a send's job to `ready` only after its own reconciliation found that
      nothing was dispatched, that the provider has no such message, or that it must
      ask again. */
  lemma RequeuedOnlyWhenSafe(steps: seq<Step>, e: ExecId)
    requires After(steps).Some? && Enabled(After(steps).value, SweepFinish(e))
    requires var s := After(steps).value; Apply(s, SweepFinish(e)).jobs[s.execs[e].job].state == Ready
    ensures exists i: nat :: FoundSafe(steps, i, e)
  {
    ReachableInv(steps);
    var s := After(steps).value;
    assert ExecInv(s, e, s.execs[e]);
    SafeWasFound(steps, e);
  }

  // ------------------------------------------------------------------
  // Mutual exclusion
  // ------------------------------------------------------------------

  /** At most one job runs per partition, at most one live worker handles a send, and no
      reconciler whose sweep holds its job is on a send that a live worker, or another
      such reconciler, is on. */
  lemma OneHandlerPerSend(steps: seq<Step>)
    requires After(steps).Some?
    ensures TableValid(After(steps).value.jobs)
    ensures var s := After(steps).value;
            && (forall e, f :: LiveWorker(s, e) && LiveWorker(s, f) && s.execs[e].ref == s.execs[f].ref ==> e == f)
            && (forall e, f :: LiveWorker(s, e) && f in s.execs && s.execs[f].holdsLock ==>
                  s.execs[f].ref != s.execs[e].ref)
            && (forall e, f :: (e in s.execs && f in s.execs && s.execs[e].holdsLock && s.execs[f].holdsLock
                                && s.execs[e].ref == s.execs[f].ref) ==> e == f)
  {
    var s := After(steps).value;
    ReachableInv(steps);
    forall e, f | LiveWorker(s, e) && LiveWorker(s, f) && s.execs[e].ref == s.execs[f].ref ensures e == f {
      assert ExecInv(s, e, s.execs[e]) && ExecInv(s, f, s.execs[f]);
      assert JobFits(s.cells, s.jobs[s.execs[e].job]) && JobFits(s.cells, s.jobs[s.execs[f].job]);
      LiveWorkersExclusive(s, e, f);
    }
    forall e, f | LiveWorker(s, e) && f in s.execs && s.execs[f].holdsLock
      ensures s.execs[f].ref != s.execs[e].ref
    {
      if s.execs[f].ref == s.execs[e].ref { SameSendSameJob(s, e, f); }
      assert ExecInv(s, e, s.execs[e]) && ExecInv(s, f, s.execs[f]);
    }
    forall e, f | e in s.execs && f in s.execs && s.execs[e].holdsLock && s.execs[f].holdsLock
        && s.execs[e].ref == s.execs[f].ref
      ensures e == f
    {
      SameSendSameJob(s, e, f);
    }
  }

  /** Its job is in the running state. */
  predicate OnRunningJob(s: State, e: ExecId) {
    LiveWorker(s, e) || (e in s.execs && s.execs[e].holdsLock)
  }

  lemma SameSendSameJob(s: State, e: ExecId, f: ExecId)
    requires Inv(s) && OnRunningJob(s, e) && OnRunningJob(s, f) && s.execs[e].ref == s.execs[f].ref
    ensures s.execs[e].job == s.execs[f].job
  {
    assert ExecInv(s, e, s.execs[e]) && ExecInv(s, f, s.execs[f]);
    var (i, k) := (s.execs[e].job, s.execs[f].job);
    assert JobFits(s.cells, s.jobs[i]) && JobFits(s.cells, s.jobs[k]);
    assert s.jobs[i].state == Running && s.jobs[k].state == Running;
  }

  /** A finish changes the job only when the row still carries this very claim: its worker,
      its attempt and its lease. */
  lemma LateFinishIsInert(steps: seq<Step>, e: ExecId, delay: nat)
    requires After(steps).Some? && Enabled(After(steps).value, Finish(e, delay))
    ensures var s := After(steps).value;
            var j := s.execs[e].job;
            Apply(s, Finish(e, delay)).jobs != s.jobs ==>
              Holding(s.jobs[j], s.execs[e])
  {
    var s := After(steps).value;
    ReachableInv(steps);
    assert ExecInv(s, e, s.execs[e]);
    if !Owns(s.jobs[s.execs[e].job], s.execs[e].worker) {
      assert Apply(s, Finish(e, delay)).jobs == s.jobs;
    }
  }

  // ------------------------------------------------------------------
  // What goes out
  // ------------------------------------------------------------------

  predicate NeverEdited(steps: seq<Step>, x: nat) {
    forall k :: 0 <= k < |steps| ==> !(steps[k].EditDraft? && steps[k].send == x)
  }

  lemma {:induction false} NoEditsCounted(steps: seq<Step>, x: nat)
    requires After(steps).Some? && NeverEdited(steps, x)
    ensures x < |After(steps).value.cells| ==> After(steps).value.cells[x].tally.edits == 0
  {
    if steps != [] {
      LastStep(steps);
      NoEditsCounted(steps[..|steps| - 1], x);
    }
  }
}
