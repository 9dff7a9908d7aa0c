/** A message the provider took, and whose receipt arrived, is recorded as delivered: by
    the worker that made the call, under the id it was given. */
module Deliveries {
  import opened Basics
  import opened SendRows
  import opened SendHandler
  import opened SendInvariant
  import opened SendSystem
  import opened SystemInvariant
  import opened SendSafety
  import opened SendContents
  import opened RowShape
  import opened SendHistory
  import opened FailedSends

  // ------------------------------------------------------------------
  // Where a handler returns
  // ------------------------------------------------------------------

  /** The last step is a statement of `e`, which has thereby returned. */
  ghost predicate Returns(steps: seq<Step>, e: ExecId) {
    && steps != [] && steps[|steps| - 1].Act? && steps[|steps| - 1].exec == e
    && After(steps).Some? && e in After(steps).value.execs && After(steps).value.execs[e].at == Settle(Returned)
  }

  /** Nothing is left to do for the send: it is not in flight, or it waits for the dispatch
      that a person forced meanwhile. */
  predicate Dealt(c: Cell) {
    c.row.state != InFlight || (c.row.dispatchedAt.None? && c.tally.forced > 0)
  }

  lemma StatementReturns(c: Cell, at: Point, a: Answer, now: nat, attempts: nat, maxAttempts: nat)
    requires Following(c, at, a, attempts, maxAttempts) == Settle(Returned) && !at.Settle?
    requires at.ReconcilePark? ==> EverDispatched(c)
    ensures Dealt(Effect(c, at, a, now))
  {
  }

  /** A handler that returns leaves a send that is not in flight, unless a person forced
      another dispatch in the meantime. */
  lemma ReturnedIsDealt(steps: seq<Step>, e: ExecId)
    requires Returns(steps, e) && e.Worker?
    ensures var s := After(steps).value;
            s.execs[e].ref < |s.cells| && Dealt(s.cells[s.execs[e].ref])
  {
    var n := |steps| - 1;
    LastStep(steps);
    var s := After(steps[..n]).value;
    var (x, a) := (s.execs[e], steps[n].answer);
    ReachableInv(steps[..n]);
    AllShapely(steps[..n]);
    assert ExecInv(s, e, x);
    assert PointShape(s.cells[x.ref], x.at);
    ActApplied(s, e, a);
    StatementReturns(s.cells[x.ref], x.at, a, s.now, x.attempts, x.maxAttempts);
  }

  // ------------------------------------------------------------------
  // From the receipt to the record
  // ------------------------------------------------------------------

  /** Step `a` is the call of `e` that the provider took, and the receipt arrived. */
  ghost predicate Receives(steps: seq<Step>, a: nat, e: ExecId, x: nat, id: nat) {
    && Runs(steps, a, x) && PointAt(steps, a, x).Call? && steps[a].exec == e
    && steps[a].answer.Accepted? && steps[a].answer.id == id && steps[a].answer.lost.None?
  }

  lemma StillReceived(steps: seq<Step>, more: seq<Step>, a: nat, e: ExecId, x: nat, id: nat)
    requires steps <= more && Receives(steps, a, e, x, id)
    ensures Receives(more, a, e, x, id)
  {
    assert more[..a] == steps[..a];
  }

  /** Step `d` is the statement of `e` that records the delivery. */
  ghost predicate Records(steps: seq<Step>, d: nat, e: ExecId, x: nat, id: nat) {
    Runs(steps, d, x) && PointAt(steps, d, x).Deliver? && PointAt(steps, d, x).id == id && steps[d].exec == e
  }

  ghost predicate HasRecorded(steps: seq<Step>, a: nat, e: ExecId, x: nat, id: nat) {
    exists d: nat :: a < d && Records(steps, d, e, x, id)
  }

  /** An id that no claim will be given again. */
  predicate Spent(s: State, e: ExecId) {
    e.Worker? && e.job < |s.jobs| && e.attempt <= s.jobs[e.job].attempts
  }

  /** What can have become of a worker since its receipt arrived. */
  ghost predicate Since(steps: seq<Step>, s: State, a: nat, e: ExecId, x: nat, id: nat) {
    && Spent(s, e)
    && (e in s.execs ==>
          && s.execs[e].ref == x
          && match s.execs[e].at
             case Deliver(got, _) => got == id
             case Settle(outcome) => outcome == Returned ==> HasRecorded(steps, a, e, x, id)
             case _ => false)
  }

  lemma StaysSpent(s: State, step: Step, e: ExecId)
    requires Enabled(s, step) && Spent(s, e)
    ensures Spent(Apply(s, step), e)
  {
  }

  /** Nobody but a claim or a sweep brings in an executor, and a claim brings in new ones. */
  lemma NotBackAgain(s: State, step: Step, e: ExecId)
    requires Enabled(s, step) && Spent(s, e) && e !in s.execs
    ensures e !in Apply(s, step).execs
  {
  }

  lemma OthersLeaveIt(s: State, step: Step, e: ExecId)
    requires Enabled(s, step) && Spent(s, e) && e in s.execs && !(step.Act? && step.exec == e)
    requires s.execs[e].at.Deliver? || s.execs[e].at.Settle?
    ensures e in Apply(s, step).execs ==>
              && Apply(s, step).execs[e].ref == s.execs[e].ref
              && (Apply(s, step).execs[e].at == s.execs[e].at || (step.Abort? && Apply(s, step).execs[e].at == Settle(RaisedError(step.cls))))
  {
  }

  lemma RecordedLonger(steps: seq<Step>, step: Step, a: nat, e: ExecId, x: nat, id: nat)
    requires HasRecorded(steps, a, e, x, id)
    ensures HasRecorded(steps + [step], a, e, x, id)
  {
    var d: nat :| a < d && Records(steps, d, e, x, id);
    RunsLonger(steps, step, d, x);
    assert Records(steps + [step], d, e, x, id);
  }

  lemma OwnStep(steps: seq<Step>, s: State, a: nat, e: ExecId, x: nat, id: nat, answer: Answer)
    requires After(steps) == Some(s) && Enabled(s, Act(e, answer)) && Since(steps, s, a, e, x, id) && a < |steps|
    ensures Since(steps + [Act(e, answer)], Apply(s, Act(e, answer)), a, e, x, id)
  {
    RunsNow(steps, s, e, answer);
    ActApplied(s, e, answer);
    assert Records(steps + [Act(e, answer)], |steps|, e, x, id);
  }

  lemma SinceNext(steps: seq<Step>, s: State, step: Step, a: nat, e: ExecId, x: nat, id: nat)
    requires After(steps) == Some(s) && Enabled(s, step) && Since(steps, s, a, e, x, id) && a < |steps|
    ensures Since(steps + [step], Apply(s, step), a, e, x, id)
  {
    if step.Act? && step.exec == e {
      OwnStep(steps, s, a, e, x, id, step.answer);
    } else {
      StaysSpent(s, step, e);
      if e !in s.execs {
        NotBackAgain(s, step, e);
      } else {
        OthersLeaveIt(s, step, e);
        if HasRecorded(steps, a, e, x, id) {
          RecordedLonger(steps, step, a, e, x, id);
        }
      }
    }
  }

  lemma SinceReceipt(steps: seq<Step>, s: State, e: ExecId, answer: Answer, x: nat, id: nat)
    requires After(steps) == Some(s) && Inv(s) && Enabled(s, Act(e, answer)) && s.execs[e].at.Call? && s.execs[e].ref == x
    requires answer.Accepted? && answer.id == id && answer.lost.None?
    ensures Since(steps + [Act(e, answer)], Apply(s, Act(e, answer)), |steps|, e, x, id)
  {
    assert ExecInv(s, e, s.execs[e]);
    ActApplied(s, e, answer);
  }

  lemma {:induction false} SinceAll(steps: seq<Step>, a: nat, e: ExecId, x: nat, id: nat)
    requires After(steps).Some? && Receives(steps, a, e, x, id)
    ensures Since(steps, After(steps).value, a, e, x, id)
  {
    var n := |steps| - 1;
    LastStep(steps);
    assert steps == steps[..n] + [steps[n]];
    var s := After(steps[..n]).value;
    if a == n {
      ReachableInv(steps[..n]);
      SinceReceipt(steps[..n], s, e, steps[n].answer, x, id);
    } else {
      assert steps[..n][..a] == steps[..a];
      SinceAll(steps[..n], a, e, x, id);
      SinceNext(steps[..n], s, steps[n], a, e, x, id);
    }
  }

  // ------------------------------------------------------------------
  // The record
  // ------------------------------------------------------------------

  /** A step that lets the send move again. */
  predicate Reopens(step: Step, x: nat) {
    step == OperatorRetries(x) || step == OperatorResends(x)
  }

  lemma OnlyPeopleReopen(s: State, step: Step, x: nat)
    requires Enabled(s, step) && x < |s.cells| && s.cells[x].row.state != InFlight && !Reopens(step, x)
    ensures x < |Apply(s, step).cells| && Apply(s, step).cells[x].row.state != InFlight
  {
  }

  lemma {:induction false} StaysOut(steps: seq<Step>, k: nat, x: nat)
    requires k <= |steps| && After(steps).Some? && After(steps[..k]).Some? && x < |After(steps[..k]).value.cells|
    requires After(steps[..k]).value.cells[x].row.state != InFlight
    requires forall j :: k <= j < |steps| ==> !Reopens(steps[j], x)
    ensures x < |After(steps).value.cells| && After(steps).value.cells[x].row.state != InFlight
  {
    if k == |steps| {
      assert steps[..k] == steps;
    } else {
      var n := |steps| - 1;
      LastStep(steps);
      assert steps[..n][..k] == steps[..k];
      StaysOut(steps[..n], k, x);
      OnlyPeopleReopen(After(steps[..n]).value, steps[n], x);
    }
  }

  /** Delivered under this id at this instant. */
  predicate DeliveredAs(row: Row, id: nat, now: nat) {
    row.state == Delivered && row.messageId == Some(Issued(id)) && row.deliveredAt == Some(now)
  }

  /** What the row shows right after the statement that records the delivery. */
  lemma RecordShows(steps: seq<Step>, e: ExecId, x: nat, id: nat)
    requires steps != [] && After(steps).Some? && Records(steps, |steps| - 1, e, x, id)
    ensures x < |After(steps).value.cells|
    ensures var (row, d) := (After(steps).value.cells[x].row, |steps| - 1);
            && row.state != InFlight
            && (CellAt(steps, d, x).row.state == InFlight ==> DeliveredAs(row, id, NowAt(steps, d)))
  {
    var d := |steps| - 1;
    LastStep(steps);
    ActApplied(After(steps[..d]).value, e, steps[d].answer);
    EffectEnds(CellAt(steps, d, x), PointAt(steps, d, x), steps[d].answer, NowAt(steps, d));
  }

  lemma RecordedThen(steps: seq<Step>, d: nat, e: ExecId, x: nat, id: nat)
    requires After(steps).Some? && Records(steps, d, e, x, id)
    ensures After(steps[..d + 1]).Some? && Records(steps[..d + 1], d, e, x, id)
    ensures CellAt(steps[..d + 1], d, x) == CellAt(steps, d, x) && NowAt(steps[..d + 1], d) == NowAt(steps, d)
  {
    RanThrough(steps, d + 1);
    assert steps[..d + 1][..d] == steps[..d];
  }

  /** A recorded delivery stays, and the send stays out of flight until a person reopens it. */
  lemma RecordLasts(steps: seq<Step>, d: nat, e: ExecId, x: nat, id: nat)
    requires After(steps).Some? && Records(steps, d, e, x, id)
    ensures x < |After(steps).value.cells|
    ensures (forall j :: d < j < |steps| ==> !Reopens(steps[j], x)) ==> After(steps).value.cells[x].row.state != InFlight
    ensures CellAt(steps, d, x).row.state == InFlight ==> DeliveredAs(After(steps).value.cells[x].row, id, NowAt(steps, d))
  {
    RecordedThen(steps, d, e, x, id);
    RecordShows(steps[..d + 1], e, x, id);
    StillThere(steps, d + 1, x);
    if forall j :: d < j < |steps| ==> !Reopens(steps[j], x) {
      StaysOut(steps, d + 1, x);
    }
    DeliveredForGood(steps, d + 1, x, After(steps[..d + 1]).value.cells[x].row);
  }

  /** A worker that got its receipt and returned has taken the statement that records the
      delivery. If that found the send in flight, the send is delivered, under the id of
      the receipt, from that instant on and for good; in any case it is not in flight
      afterwards, until a person reopens it. */
  lemma ReceiptIsRecorded(steps: seq<Step>, a: nat, e: ExecId, x: nat, id: nat) returns (d: nat)
    requires After(steps).Some? && Receives(steps, a, e, x, id)
    requires e in After(steps).value.execs && After(steps).value.execs[e].at == Settle(Returned)
    ensures a < d && Records(steps, d, e, x, id) && x < |After(steps).value.cells|
    ensures (forall j :: d < j < |steps| ==> !Reopens(steps[j], x)) ==> After(steps).value.cells[x].row.state != InFlight
    ensures CellAt(steps, d, x).row.state == InFlight ==> DeliveredAs(After(steps).value.cells[x].row, id, NowAt(steps, d))
  {
    SinceAll(steps, a, e, x, id);
    d :| a < d && Records(steps, d, e, x, id);
    RecordLasts(steps, d, e, x, id);
  }

  lemma {:induction false} RanThrough(steps: seq<Step>, k: nat)
    requires k <= |steps| && After(steps).Some?
    ensures After(steps[..k]).Some?
  {
    if k == |steps| {
      assert steps[..k] == steps;
    } else {
      assert steps[..|steps| - 1][..k] == steps[..k];
      RanThrough(steps[..|steps| - 1], k);
    }
  }

  lemma StillThere(steps: seq<Step>, k: nat, x: nat)
    requires k <= |steps| && After(steps).Some? && After(steps[..k]).Some? && x < |After(steps[..k]).value.cells|
    ensures x < |After(steps).value.cells|
  {
    ConfirmedFixed(steps, k, x);
  }

  predicate KeepsDelivery(r: Row, t: Row) {
    r.state == Delivered ==> t.state == Delivered && t.messageId == r.messageId && t.deliveredAt == r.deliveredAt
  }

  lemma StepKeepsDelivery(s: State, step: Step, x: nat)
    requires Inv(s) && Shapely(s) && Enabled(s, step) && x < |s.cells|
    ensures x < |Apply(s, step).cells| && KeepsDelivery(s.cells[x].row, Apply(s, step).cells[x].row)
  {
    if Elsewhere(s, step, x) {
      OthersOnRow(s, step, x);
    } else {
      ActApplied(s, step.exec, step.answer);
      EffectEnds(s.cells[x], s.execs[step.exec].at, step.answer, s.now);
    }
  }

  lemma {:induction false} DeliveredForGood(steps: seq<Step>, k: nat, x: nat, r: Row)
    requires k <= |steps| && After(steps).Some? && RowIs(steps[..k], x, r)
    ensures x < |After(steps).value.cells| && KeepsDelivery(r, After(steps).value.cells[x].row)
  {
    if k == |steps| {
      assert steps[..k] == steps;
    } else {
      var n := |steps| - 1;
      LastStep(steps);
      assert steps[..n][..k] == steps[..k];
      DeliveredForGood(steps[..n], k, x, r);
      ReachableInv(steps[..n]);
      AllShapely(steps[..n]);
      StepKeepsDelivery(After(steps[..n]).value, steps[n], x);
    }
  }

  // ------------------------------------------------------------------
  // It happens, on every channel
  // ------------------------------------------------------------------

  /** The draft a send goes out from, on the one channel that has drafts. */
  function DraftFor(channel: Channel): Option<nat> {
    if channel == Gmail then Some(4) else None
  }

  lemma ReachesCommit(channel: Channel) returns (t: State, d: Cell)
    ensures Reachable(t) && AtWork(t, d, 1, SendHandler.Commit(DraftFor(channel), true, 0, 5))
    ensures d.row == FRESH && d.sent == [] && d.channel == channel && (channel == Gmail ==> 4 in d.drafts)
  {
    var (c, draft) := (Unsent(channel), DraftFor(channel));
    var s := Submits(channel);
    var u := TakesUp(s, c, 0, 0, Load);
    var v := WorkerActs(u, c, 1, Load, Done, 0, Load);
    t := WorkerActs(v, c, 1, Prepare(None, true, 0), Prepared(draft), 0, Load);
    d := Effect(c, Prepare(None, true, 0), Prepared(draft), v.now);
  }

  lemma ReachesCall(channel: Channel) returns (t: State, d: Cell)
    ensures Reachable(t) && AtWork(t, d, 1, Call(DraftFor(channel), 0, 5))
    ensures d.row == Row(InFlight, DraftFor(channel), None, 1, 0, Some(t.now), None, None)
    ensures d.sent == [] && d.channel == channel && (channel == Gmail ==> 4 in d.drafts)
  {
    var s, c := ReachesCommit(channel);
    var commit := SendHandler.Commit(DraftFor(channel), true, 0, 5);
    t := WorkerActs(s, c, 1, commit, Done, 0, Load);
    d := Effect(c, commit, Done, s.now);
  }

  /** On every channel some run ends with the one message on the ledger and the row delivered
      under its id. */
  lemma DeliveredOnEveryChannel(channel: Channel) returns (steps: seq<Step>)
    ensures After(steps).Some? && |After(steps).value.cells| == 1
    ensures var c := After(steps).value.cells[0];
            && c.channel == channel && |c.sent| == 1
            && c.row.state == Delivered && c.row.messageId == Some(Issued(c.sent[0].id)) && c.row.deliveredAt.Some?
  {
    var s, c := ReachesCall(channel);
    var draft := DraftFor(channel);
    var t := WorkerActs(s, c, 1, Call(draft, 0, 5), Accepted(9, s.now, None), 0, Load);
    var d := Effect(c, Call(draft, 0, 5), Accepted(9, s.now, None), s.now);
    t := WorkerActs(t, d, 1, Deliver(9, draft), Done, 0, Load);
    steps :| Leads(steps, t);
  }
}
