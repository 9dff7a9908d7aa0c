/** What the columns of a send's row say of each other, in any reachable state. */
module RowShape {
  import opened Basics
  import opened SendRows
  import opened SendHandler
  import opened SendInvariant
  import opened SendSystem
  import opened SystemInvariant
  import opened SendSafety

  /** A second dispatch follows a probe. */
  predicate Asked(c: Cell) {
    c.row.attempts > 1 ==> c.row.reconcileAttempts > 0
  }

  predicate Shape(c: Cell) {
    && (c.row.deliveredAt.Some? ==> c.row.state == Delivered)
    && (c.row.state == FailedPermanent ==> c.row.lastError.Some? && c.row.lastError != Some(Transient))
    && (c.row.attempts == 0 <==> !EverDispatched(c))
    && (c.tally.forced == 0 && c.row.state == FailedPermanent ==> Asked(c))
  }

  /** A statement after the row was loaded and before it is called failed. */
  predicate Busy(at: Point) {
    Handling(at) && !at.Load? && !at.DiscardDraft?
  }

  /** What a live worker adds at its point: a busy one is on a send that has not failed, and
      its row has seen the probes that come before a second dispatch, while nobody forced
      a resend. */
  predicate PointShape(c: Cell, at: Point) {
    (Busy(at) ==> !Failed(c.row)) && StatementShape(c, at)
  }

  predicate StatementShape(c: Cell, at: Point) {
    match at
    case ReconcileProbe(caller, _, _, _) => c.tally.forced == 0 && caller.Dispatching? ==> c.row.reconcileAttempts > 0
    case ReconcileAbsent(caller) => c.tally.forced == 0 && caller.Dispatching? ==> c.row.reconcileAttempts > 0
    case Prepare(_, unprobed, _) => c.tally.forced == 0 && !unprobed ==> c.row.reconcileAttempts > 0
    case Commit(_, unprobed, _, _) => c.tally.forced == 0 && !unprobed ==> c.row.reconcileAttempts > 0
    case Call(_, _, _) => c.tally.forced == 0 ==> Asked(c)
    case FailForGood(cls, _) => cls != Transient && (c.tally.forced == 0 ==> Asked(c))
    case DiscardDraft(cls, _) => cls != Transient
    case ReconcilePark(_) => EverDispatched(c)
    case ReconcileAgain(_) => EverDispatched(c)
    case GiveUpUnsure => EverDispatched(c)
    case AdapterBody => false
    case SweepEnd(_) => false
    case _ => true
  }

  lemma WorkerKeepsShape(c: Cell, at: Point, a: Answer, now: nat)
    requires CellInv(c, now) && WorkerInv(c, at, now) && Possible(c, at, a, now) && Shape(c) && PointShape(c, at)
    ensures Shape(Effect(c, at, a, now))
  {
  }

  lemma WorkerKeepsPoint(c: Cell, at: Point, a: Answer, now: nat, attempts: nat, maxAttempts: nat)
    requires CellInv(c, now) && WorkerInv(c, at, now) && Possible(c, at, a, now) && Shape(c) && PointShape(c, at)
    ensures PointShape(Effect(c, at, a, now), Following(c, at, a, attempts, maxAttempts))
  {
  }

  /** A step keeps the shape of the row and of what a live worker elsewhere knows. */
  ghost predicate Carries(c: Cell, d: Cell, now: nat) {
    && (Shape(c) ==> Shape(d))
    && (forall w :: Shape(c) && WorkerInv(c, w, now) && PointShape(c, w) ==> PointShape(d, w))
  }

  lemma SweeperCarries(c: Cell, at: Point, a: Answer, now: nat)
    requires CellInv(c, now) && SweeperInv(c, at) && !at.SweepEnd?
    ensures Carries(c, Effect(c, at, a, now), now)
  {
  }

  lemma OperatorCarries(c: Cell, action: OperatorAction, now: nat)
    requires CellInv(c, now)
    ensures Carries(c, Operate(c, action, now), now)
  {
  }

  // ------------------------------------------------------------------
  // Over the whole system
  // ------------------------------------------------------------------

  ghost predicate Shapely(s: State) {
    && (forall x :: 0 <= x < |s.cells| ==> Shape(s.cells[x]))
    && (forall e :: LiveWorker(s, e) && s.execs[e].ref < |s.cells| ==> PointShape(s.cells[s.execs[e].ref], s.execs[e].at))
  }

  lemma SendCarries(s: State, x: nat, d: Cell)
    requires Inv(s) && Shapely(s) && x < |s.cells| && Carries(s.cells[x], d, s.now)
    ensures Shapely(s.(cells := s.cells[x := d]))
  {
    var t := s.(cells := s.cells[x := d]);
    forall e | LiveWorker(t, e) && t.execs[e].ref < |t.cells| ensures PointShape(t.cells[t.execs[e].ref], t.execs[e].at) {
      assert LiveWorker(s, e) && ExecInv(s, e, s.execs[e]);
    }
  }

  /** Live workers of `t` are live workers of `s` where they were, or have nothing to know. */
  ghost predicate NoNewPoints(s: State, t: State) {
    forall e :: LiveWorker(t, e) && !(t.execs[e].at.Leased? || t.execs[e].at.Load? || t.execs[e].at.Settle?) ==>
      LiveWorker(s, e) && t.execs[e].at == s.execs[e].at && t.execs[e].ref == s.execs[e].ref
  }

  lemma PassesBy(s: State, t: State)
    requires Inv(s) && Shapely(s) && t.cells == s.cells && NoNewPoints(s, t)
    ensures Shapely(t)
  {
    forall e | LiveWorker(t, e) && t.execs[e].ref < |t.cells| ensures PointShape(t.cells[t.execs[e].ref], t.execs[e].at) {
    }
  }

  lemma SubmitShapely(s: State, step: Step)
    requires Inv(s) && Shapely(s) && step.SubmitSend?
    ensures Shapely(Apply(s, step))
  {
    var t := Apply(s, step);
    forall e | LiveWorker(t, e) && t.execs[e].ref < |t.cells| ensures PointShape(t.cells[t.execs[e].ref], t.execs[e].at) {
      assert LiveWorker(s, e) && ExecInv(s, e, s.execs[e]);
    }
  }

  lemma OperateShapely(s: State, x: nat, action: OperatorAction, jobs: seq<JobRows.Job>)
    requires Inv(s) && Shapely(s) && x < |s.cells|
    ensures Shapely(s.(cells := s.cells[x := Operate(s.cells[x], action, s.now)], jobs := jobs))
  {
    OperatorCarries(s.cells[x], action, s.now);
    SendCarries(s, x, Operate(s.cells[x], action, s.now));
    var t := s.(cells := s.cells[x := Operate(s.cells[x], action, s.now)]);
    forall e | LiveWorker(t.(jobs := jobs), e) && t.execs[e].ref < |t.cells|
      ensures PointShape(t.cells[t.execs[e].ref], t.execs[e].at)
    {
      assert LiveWorker(t, e);
    }
  }

  lemma ApiShapely(s: State, step: Step)
    requires Inv(s) && Shapely(s) && Enabled(s, step)
    requires step.EditDraft? || step.OperatorRetries? || step.OperatorAttests? || step.OperatorResends?
    ensures Shapely(Apply(s, step))
  {
    match step {
      case EditDraft(x, content) => OperateShapely(s, x, Edit(content), s.jobs);
      case OperatorRetries(x) => OperateShapely(s, x, RetryFailed, Rebook(s, x, MAX_ATTEMPTS, true));
      case OperatorAttests(x) => OperateShapely(s, x, AttestDelivered, s.jobs);
      case OperatorResends(x) => OperateShapely(s, x, Resend, Rebook(s, x, MAX_ATTEMPTS, false));
    }
  }

  lemma ActShapely(s: State, e: ExecId, a: Answer)
    requires Inv(s) && Shapely(s) && Enabled(s, Act(e, a))
    ensures Shapely(Apply(s, Act(e, a)))
  {
    assert ExecInv(s, e, s.execs[e]);
    if e.Worker? { WorkerActShapely(s, e, a); } else { SweeperActShapely(s, e, a); }
  }

  lemma WorkerActShapely(s: State, e: ExecId, a: Answer)
    requires Inv(s) && Shapely(s) && Enabled(s, Act(e, a)) && LiveWorker(s, e)
    ensures Shapely(Apply(s, Act(e, a)))
  {
    var x := s.execs[e];
    var c := s.cells[x.ref];
    assert ExecInv(s, e, x);
    WorkerKeepsShape(c, x.at, a, s.now);
    WorkerKeepsPoint(c, x.at, a, s.now, x.attempts, x.maxAttempts);
    ActApplied(s, e, a);
    WorkerMoves(s, e, Effect(c, x.at, a, s.now), Following(c, x.at, a, x.attempts, x.maxAttempts));
  }

  lemma WorkerMoves(s: State, e: ExecId, d: Cell, to: Point)
    requires Inv(s) && Shapely(s) && LiveWorker(s, e) && s.execs[e].ref < |s.cells| && Shape(d) && PointShape(d, to)
    ensures Shapely(s.(cells := s.cells[s.execs[e].ref := d], execs := s.execs[e := s.execs[e].(at := to)]))
  {
    var t := s.(cells := s.cells[s.execs[e].ref := d], execs := s.execs[e := s.execs[e].(at := to)]);
    forall f | LiveWorker(t, f) && t.execs[f].ref < |t.cells| ensures PointShape(t.cells[t.execs[f].ref], t.execs[f].at) {
      if f != e {
        assert LiveWorker(s, f);
        AloneOnSend(s, e, f);
      }
    }
  }

  lemma SweeperActShapely(s: State, e: ExecId, a: Answer)
    requires Inv(s) && Shapely(s) && Enabled(s, Act(e, a)) && e.Sweeper?
    ensures Shapely(Apply(s, Act(e, a)))
  {
    var (x, t) := (s.execs[e], Apply(s, Act(e, a)));
    var c := s.cells[x.ref];
    assert ExecInv(s, e, x);
    SweeperCarries(c, x.at, a, s.now);
    SendCarries(s, x.ref, Effect(c, x.at, a, s.now));
    PassesBySweeper(s.(cells := s.cells[x.ref := Effect(c, x.at, a, s.now)]), e, t.execs[e]);
  }

  lemma AloneOnSend(s: State, e: ExecId, f: ExecId)
    requires Inv(s) && LiveWorker(s, e) && LiveWorker(s, f) && e != f
    ensures s.execs[f].ref != s.execs[e].ref
  {
    assert ExecInv(s, e, s.execs[e]) && ExecInv(s, f, s.execs[f]);
    if s.execs[f].ref == s.execs[e].ref {
      assert JobFits(s.cells, s.jobs[s.execs[e].job]) && JobFits(s.cells, s.jobs[s.execs[f].job]);
      LiveWorkersExclusive(s, e, f);
    }
  }

  lemma PassesBySweeper(s: State, e: ExecId, x: Exec)
    requires Shapely(s) && e.Sweeper?
    ensures Shapely(s.(execs := s.execs[e := x]))
  {
    var t := s.(execs := s.execs[e := x]);
    forall f | LiveWorker(t, f) && t.execs[f].ref < |t.cells| ensures PointShape(t.cells[t.execs[f].ref], t.execs[f].at) {
      assert LiveWorker(s, f);
    }
  }

  lemma ClaimShapely(s: State, step: Step)
    requires Inv(s) && Shapely(s) && step.Claim?
    ensures Shapely(Apply(s, step))
  {
    PassesBy(s, Apply(s, step));
  }

  lemma RestShapely(s: State, step: Step)
    requires Inv(s) && Shapely(s) && Enabled(s, step) && !IsCellStep(step) && !step.Claim?
    ensures Shapely(Apply(s, step))
  {
    if step.EndAdapter? { assert ExecInv(s, step.exec, s.execs[step.exec]); }
    if step.Begin? { assert ExecInv(s, step.exec, s.execs[step.exec]); }
    PassesBy(s, Apply(s, step));
  }

  predicate IsCellStep(step: Step) {
    step.SubmitSend? || step.EditDraft? || step.OperatorRetries? || step.OperatorAttests? || step.OperatorResends? || step.Act?
  }

  lemma {:induction false} AllShapely(steps: seq<Step>)
    requires After(steps).Some?
    ensures Shapely(After(steps).value)
  {
    if steps != [] {
      var n := |steps| - 1;
      LastStep(steps);
      AllShapely(steps[..n]);
      ReachableInv(steps[..n]);
      var s := After(steps[..n]).value;
      if steps[n].Act? { ActShapely(s, steps[n].exec, steps[n].answer); }
      else if steps[n].SubmitSend? { SubmitShapely(s, steps[n]); }
      else if steps[n].Claim? { ClaimShapely(s, steps[n]); }
      else if IsCellStep(steps[n]) { ApiShapely(s, steps[n]); }
      else { RestShapely(s, steps[n]); }
    }
  }
}
