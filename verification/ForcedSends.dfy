/** What a `failed_permanent` row says when people may have forced resends: nothing went
    out exactly when it counts no dispatch attempt. A forced resend clears the
    instant of the dispatch, never the count. */
module ForcedSends {
  import opened Basics
  import opened SendRows
  import opened JobRows
  import opened JobTable
  import opened SendHandler
  import opened SendInvariant
  import opened SendSystem
  import opened SystemInvariant
  import opened RowShape
  import opened FailedSends

  // ------------------------------------------------------------------
  // In doubt, and sent again
  // ------------------------------------------------------------------

  /** One of the late reconcilers finds the draft gone and parks the send. */
  lemma Parks(s: State, c: Cell, o: Option<nat>, since: nat, i: nat) returns (t: State)
    requires Reachable(s) && s.cells == [c] && Loiters(s, i, Bumping(o, since))
    ensures Reachable(t) && Sweeper(i) in s.execs
    ensures t == s.(cells := [c.(row := MarkUncertain(c.row))],
                    execs := s.execs[Sweeper(i) := s.execs[Sweeper(i)].(at := SweepEnd(JobRows.Settled))])
  {
    t := SweeperActs(s, c, i, Bumping(o, since), DraftGone);
    assert Loiters(t, i, ReconcilePark(Sweeping));
    t := SweeperActs(t, c, i, ReconcilePark(Sweeping), Done);
  }

  /** The operator has the uncertain send sent again. */
  lemma Forces(s: State, c: Cell) returns (t: State)
    requires Reachable(s) && s.cells == [c] && c.row.state == SendState.Uncertain
    ensures Reachable(t)
    ensures t == s.(cells := [Operate(c, Resend, s.now)], jobs := Rebook(s, 0, MAX_ATTEMPTS, false))
  {
    t := StepOn(s, OperatorResends(0));
  }

  /** The crowd without its last member. */
  lemma FewerStay(s: State, t: State, m: nat, p: Point)
    requires Crowd(s, 0, m + 1, p)
    requires forall e :: e in s.execs && e.Sweeper? && e.serial < m ==> e in t.execs && t.execs[e] == s.execs[e]
    ensures Crowd(t, 0, m, p)
  {
    StayPut(s, t, 0, m, p);
  }

  // ------------------------------------------------------------------
  // A resend forced while the call is being made
  // ------------------------------------------------------------------

  /** While the worker calls the provider, a reconciler parks the send and a person has it
      sent again. */
  lemma ForcedMeanwhile(o: Option<nat>, n: nat, m: nat) returns (t: State, d: Cell)
    requires n > 0
    ensures Reachable(t) && OnDuty(t, d, n + 1, Call(o, 0, d.content)) && Crowd(t, 0, m, Bumping(o, LATER))
    ensures d.row == Row(InFlight, o, None, n, 0, None, None, Some(Transient)) && d.tally.forced == 1
    ensures d.sent == [] && d.channel == (if o.Some? then Gmail else Fake) && (o.Some? ==> o.value in d.drafts)
  {
    var u, c := CallsWatched(o, n, LATER, m + 1);
    t, d := ForcedDuring(u, c, o, LATER, n + 1, m);
    ForcedCell(c, o, n, LATER, u.now);
  }

  lemma ForcedCell(c: Cell, o: Option<nat>, n: nat, since: nat, now: nat)
    requires Committed(c, o, n, since)
    ensures var d := Operate(c.(row := MarkUncertain(c.row)), Resend, now);
            && d.row == Row(InFlight, o, None, n, 0, None, None, Some(Transient)) && d.tally.forced == 1
            && d.sent == [] && d.channel == (if o.Some? then Gmail else Fake) && (o.Some? ==> o.value in d.drafts)
  {
  }

  lemma ForcedDuring(s: State, c: Cell, o: Option<nat>, since: nat, k: nat, m: nat) returns (t: State, d: Cell)
    requires Reachable(s) && OnDuty(s, c, k, Call(o, 0, c.content)) && Crowd(s, 0, m + 1, Bumping(o, since))
    requires c.row.state == InFlight && c.row.dispatchedAt.Some?
    ensures Reachable(t) && OnDuty(t, d, k, Call(o, 0, d.content)) && Crowd(t, 0, m, Bumping(o, since))
    ensures d == Operate(c.(row := MarkUncertain(c.row)), Resend, s.now)
  {
    assert Loiters(s, m, Bumping(o, since));
    var u := Parks(s, c, o, since, m);
    d := Operate(c.(row := MarkUncertain(c.row)), Resend, u.now);
    t := Forces(u, c.(row := MarkUncertain(c.row)));
    FewerStay(s, t, m, Bumping(o, since));
  }

  /** The row after a dispatch the row no longer shows. */
  function Cleared(o: Option<nat>, n: nat, m: nat, cls: ErrorClass): Row {
    Row(FailedPermanent, o, None, n, m, None, None, Some(cls))
  }

  /** The provider takes the message all the same, and the answer is lost. */
  lemma GoesOutCleared(o: Option<nat>, n: nat, m: nat, cls: ErrorClass) returns (steps: seq<Step>)
    requires n > 0 && cls != Transient
    ensures Shows(steps, 0, Cleared(o, n, m, cls)) && |After(steps).value.cells[0].sent| == 1
  {
    var s, c := ForcedMeanwhile(o, n, m);
    var u, f := LosesAnswer(s, c, o, n + 1, m, Bumping(o, LATER), cls);
    var t, d := Bumps(u, f, m, m, o, LATER);
    steps :| Leads(steps, t);
  }

  // ------------------------------------------------------------------
  // A resend forced after the message went out
  // ------------------------------------------------------------------

  /** The message goes out, and before its delivery is recorded the worker fails. */
  lemma GoesUnrecorded(s: State, c: Cell, o: Option<nat>, k: nat, m: nat, p: Point) returns (t: State, d: Cell)
    requires Reachable(s) && AtWork(s, c, k, Call(o, 0, c.content)) && Crowd(s, 0, m, p)
    requires c.sent == [] && c.channel == (if o.Some? then Gmail else Fake) && (o.Some? ==> o.value in c.drafts)
    ensures Reachable(t) && AtWork(t, d, k, Settle(RaisedError(Permanent))) && Crowd(t, 0, m, p) && t.now == s.now
    ensures |d.sent| == 1 && d.row == c.row && d.channel == c.channel && d.tally.forced == c.tally.forced
  {
    var u := WorkerActs(s, c, k, Call(o, 0, c.content), Accepted(9, s.now, None), m, p);
    d := Effect(c, Call(o, 0, c.content), Accepted(9, s.now, None), s.now);
    t := StepOn(u, Abort(Worker(0, k), Permanent));
    StayPut(u, t, 0, m, p);
  }

  lemma Finishes(s: State, c: Cell, k: nat, m: nat, p: Point) returns (t: State)
    requires Reachable(s) && AtWork(s, c, k, Settle(RaisedError(Permanent))) && Crowd(s, 0, m, p)
    ensures Reachable(t) && OneJob(t, c, FailedJob, k) && Crowd(t, 0, m, p) && t.now == s.now
  {
    t := StepOn(s, Step.Finish(Worker(0, k), 0));
    StayPut(s, t, 0, m, p);
  }

  /** Parked and forced, its failed job is resumed. */
  lemma ForcedAfter(s: State, c: Cell, o: Option<nat>, since: nat, k: nat, m: nat) returns (t: State, d: Cell)
    requires Reachable(s) && OneJob(s, c, FailedJob, k) && Crowd(s, 0, m + 1, Bumping(o, since))
    requires c.row.state == InFlight && c.row.dispatchedAt.Some?
    ensures Reachable(t) && OneJob(t, d, Ready, k) && k < t.jobs[0].maxAttempts && t.now == s.now
    ensures Crowd(t, 0, m, Bumping(o, since)) && d == Operate(c.(row := MarkUncertain(c.row)), Resend, s.now)
  {
    assert Loiters(s, m, Bumping(o, since));
    var u := Parks(s, c, o, since, m);
    assert LatestJob(u.jobs, 0) == Some(0);
    t := Forces(u, c.(row := MarkUncertain(c.row)));
    d := Operate(c.(row := MarkUncertain(c.row)), Resend, u.now);
    FewerStay(s, t, m, Bumping(o, since));
  }

  /** In flight after `n` dispatches, one of which went out, with none on the row. */
  predicate Again(c: Cell, o: Option<nat>, n: nat) {
    && c.row.state == InFlight && c.row.messageId.None? && c.row.deliveredAt.None? && c.row.dispatchedAt.None?
    && c.row.draftId == o && c.row.attempts == n && c.row.reconcileAttempts == 0
    && |c.sent| == 1 && c.tally.forced == 1 && c.channel == (if o.Some? then Gmail else Fake)
  }

  /** In flight after `n` dispatches, the last of which went out. */
  predicate OutUnrecorded(c: Cell, o: Option<nat>, n: nat, since: nat) {
    && c.row.state == InFlight && c.row.messageId.None? && c.row.deliveredAt.None? && c.row.dispatchedAt == Some(since)
    && c.row.draftId == o && c.row.attempts == n
    && |c.sent| == 1 && c.tally.forced == 0 && c.channel == (if o.Some? then Gmail else Fake)
  }

  /** The message goes out, and its job fails. */
  lemma SentUnrecorded(o: Option<nat>, n: nat, since: nat, m: nat) returns (t: State, d: Cell)
    requires n > 0 && since >= LATER
    ensures Reachable(t) && OneJob(t, d, FailedJob, n + 1) && t.now == since && Crowd(t, 0, m, Bumping(o, since))
    ensures OutUnrecorded(d, o, n, since)
  {
    var u, c := CallsWatched(o, n, since, m);
    var v, e := GoesUnrecorded(u, c, o, n + 1, m, Bumping(o, since));
    t := Finishes(v, e, n + 1, m, Bumping(o, since));
    d := e;
  }

  lemma SentAndForced(o: Option<nat>, n: nat, since: nat, m: nat) returns (t: State, d: Cell)
    requires n > 0 && since >= LATER
    ensures Reachable(t) && OneJob(t, d, Ready, n + 1) && n + 1 < t.jobs[0].maxAttempts && t.now == since
    ensures Crowd(t, 0, m, Bumping(o, since)) && Again(d, o, n)
  {
    var s, c := SentUnrecorded(o, n, since, m + 1);
    t, d := ForcedAfter(s, c, o, since, n + 1, m);
  }

  /** The claim after the forced resend dispatches at once. */
  lemma DispatchesAtOnce(s: State, c: Cell, o: Option<nat>, n: nat, k: nat, m: nat, p: Point) returns (t: State, d: Cell)
    requires Reachable(s) && AtWork(s, c, k, Load) && Crowd(s, 0, m, p) && Again(c, o, n)
    ensures Reachable(t) && AtWork(t, d, k, Call(o, 1, d.content)) && Crowd(t, 0, m, p)
    ensures |d.sent| == 1 && d.row == CommitDispatchAttempt(c.row, o, s.now)
  {
    var u := WorkerActs(s, c, k, Load, Done, m, p);
    var v := WorkerActs(u, c, k, Prepare(o, true, 1), Prepared(o), m, p);
    t := WorkerActs(v, c, k, SendHandler.Commit(o, true, 1, c.content), Done, m, p);
    d := c.(row := CommitDispatchAttempt(c.row, o, s.now));
  }

  lemma FailsAgain(s: State, c: Cell, o: Option<nat>, k: nat, m: nat, p: Point, cls: ErrorClass)
    returns (t: State, d: Cell)
    requires Reachable(s) && AtWork(s, c, k, Call(o, 1, c.content)) && Crowd(s, 0, m, p) && cls != Transient
    ensures Reachable(t) && t.cells == [d] && Crowd(t, 0, m, p)
    ensures d.sent == c.sent && d.row == SetTerminal(c.row, FailedPermanent, cls)
  {
    var u := WorkerActs(s, c, k, Call(o, 1, c.content), Raised(cls, None), m, p);
    d := Effect(c, Call(o, 1, c.content), Raised(cls, None), s.now);
    t := WorkerActs(u, d, k, FailForGood(cls, o), Done, m, p);
    d := d.(row := SetTerminal(c.row, FailedPermanent, cls));
  }

  /** The row after `n` dispatches, the last at `since`, and `m` late reconcilers. */
  function Forced(o: Option<nat>, n: nat, since: nat, m: nat, cls: ErrorClass): Row {
    Row(FailedPermanent, o, None, n, m, Some(since), None, Some(cls))
  }

  /** The message of an earlier dispatch went out, and the last dispatch was refused. */
  lemma GoesOutBefore(o: Option<nat>, n: nat, since: nat, m: nat, cls: ErrorClass) returns (steps: seq<Step>)
    requires n > 1 && since >= LATER && cls != Transient
    ensures Shows(steps, 0, Forced(o, n, since, m, cls)) && |After(steps).value.cells[0].sent| == 1
  {
    var s, c := SentAndForced(o, n - 1, since, m);
    var p := Bumping(o, since);
    var u := TakesUp(s, c, n, m, p);
    var v, e := DispatchesAtOnce(u, c, o, n - 1, n + 1, m, p);
    var w, f := FailsAgain(v, e, o, n + 1, m, p, cls);
    var t, d := Bumps(w, f, m, m, o, since);
    steps :| Leads(steps, t);
  }

  // ------------------------------------------------------------------
  // Exactly when the row tells, over all runs
  // ------------------------------------------------------------------

  /** A run ends with this row. */
  ghost predicate Shows(steps: seq<Step>, x: nat, row: Row) {
    After(steps).Some? && x < |After(steps).value.cells| && After(steps).value.cells[x].row == row
  }

  /** Whoever reads the row may be certain that nothing went out, whatever people did. */
  ghost predicate CertainAlways(row: Row) {
    forall steps, x: nat :: Shows(steps, x, row) ==> After(steps).value.cells[x].sent == []
  }

  lemma RowKnows(steps: seq<Step>, x: nat)
    requires After(steps).Some? && x < |After(steps).value.cells|
    ensures var (s, c) := (After(steps).value, After(steps).value.cells[x]);
            CellInv(c, s.now) && Shape(c)
  {
    ReachableInv(steps);
    AllShapely(steps);
  }

  lemma UnattemptedIsCertain(row: Row)
    requires row.attempts == 0
    ensures CertainAlways(row)
  {
    forall steps, x: nat | Shows(steps, x, row) ensures After(steps).value.cells[x].sent == [] {
      RowKnows(steps, x);
      RowTruthful(After(steps).value.cells[x], After(steps).value.now);
    }
  }

  /** The columns of a row that arises. */
  lemma RowParts(row: Row)
    requires row.state == FailedPermanent && exists steps, x: nat :: Shows(steps, x, row)
    ensures row.lastError.Some? && row.lastError.value != Transient
    ensures row.messageId.None? && row.deliveredAt.None?
    ensures row.dispatchedAt.Some? ==> row.attempts > 0
  {
    var steps, x: nat :| Shows(steps, x, row);
    RowKnows(steps, x);
  }

  /** Every such row with attempts is one that a run ends with and a message out. */
  lemma SomeRunSends(o: Option<nat>, n: nat, m: nat, since: Option<nat>, cls: ErrorClass) returns (steps: seq<Step>)
    requires n > 0 && cls != Transient && (since.Some? ==> since.value >= LATER)
    ensures Shows(steps, 0, Row(FailedPermanent, o, None, n, m, since, None, Some(cls)))
    ensures |After(steps).value.cells[0].sent| == 1
  {
    if since.None? {
      steps := GoesOutCleared(o, n, m, cls);
    } else if n > 1 {
      steps := GoesOutBefore(o, n, since.value, m, cls);
    } else {
      steps := GoesOut(o, n, since.value, m, cls);
    }
  }

  lemma AttemptedStaysOpen(row: Row, delay: nat)
    requires row.state == FailedPermanent && row.attempts > 0 && exists steps, x: nat :: Shows(steps, x, row)
    requires row.dispatchedAt.Some? ==> row.dispatchedAt.value + delay >= LATER
    ensures !CertainAlways(Later(row, delay))
  {
    RowParts(row);
    var since := Later(row, delay).dispatchedAt;
    var steps := SomeRunSends(row.draftId, row.attempts, row.reconcileAttempts, since, row.lastError.value);
    assert Shows(steps, 0, Later(row, delay));
  }

  /** Over all runs, forced resends included: a send that shows `failed_permanent` went
      nowhere, for certain, exactly when its row counts no dispatch attempt. For every
      such row with attempts some run ends with the same row and a message out; a
      dispatch on the row need only be later than one lease after the clock began. */
  lemma NothingWentOutExactly(row: Row)
    requires row.state == FailedPermanent && exists steps, x: nat :: Shows(steps, x, row)
    ensures (forall delay: nat :: CertainAlways(Later(row, delay))) <==> row.attempts == 0
    ensures row.attempts > 0 && (row.dispatchedAt.Some? ==> row.dispatchedAt.value >= LATER) ==> !CertainAlways(row)
  {
    if row.attempts == 0 {
      forall delay: nat ensures CertainAlways(Later(row, delay)) {
        UnattemptedIsCertain(Later(row, delay));
      }
    } else {
      AttemptedStaysOpen(row, LATER);
      if row.dispatchedAt.Some? ==> row.dispatchedAt.value >= LATER {
        AttemptedStaysOpen(row, 0);
        assert Later(row, 0) == row;
      }
    }
  }
}
