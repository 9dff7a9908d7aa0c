/** The handler in the shape it is written in: `run_send`, `reconcile_send` and
    `_finalize_failure` as statements that run one at a time, with every other
    executor, operator and clock tick free to run at each `await`
    (`packages/core/send/handler.py`). Each statement is a step of the machine in
    `SendSystem`, so the guarantees over its runs are guarantees of this code. */
module SendPrograms {
  import opened Basics
  import opened SendRows
  import opened JobRows
  import opened SendHandler
  import opened SendSystem
  import SystemInvariant
  import SendInvariant
  import opened SendContents
  import opened SendHistory
  import opened Deliveries
  import opened SendVerdicts

  /** What `_execute` says of a job; `Vanished` when its process never got that far. */
  datatype Report = Completed | RetriedLater | ParkedAtCeiling | FailedOutright | Lost | Vanished

  /** A success is reported only when it was recorded; a failure as the ladder has it, even
      when the claim had already moved on. */
  function Ending(outcome: Outcome, x: Exec, applied: bool): Report {
    match outcome
    case Returned => if applied then Completed else Lost
    case RaisedError(cls) =>
      if cls != Transient then FailedOutright else if x.attempts >= x.maxAttempts then ParkedAtCeiling else RetriedLater
  }

  /** What the job's row says once it was the claim's own to finish. */
  function JobEnd(report: Report): JobState {
    match report
    case Completed => Succeeded
    case RetriedLater => Ready
    case ParkedAtCeiling => Parked
    case _ => FailedJob
  }

  ghost predicate AlwaysLeadsTo(at: Point, to: Point) {
    forall c: Cell, a: Answer, attempts: nat, maxAttempts: nat :: Following(c, at, a, attempts, maxAttempts) == to
  }

  lemma FailureLeads(cls: ErrorClass, discard: Option<nat>)
    ensures AlwaysLeadsTo(FailForGood(cls, discard),
                          if discard.Some? then DiscardDraft(cls, discard.value) else Settle(RaisedError(cls)))
    ensures discard.Some? ==> AlwaysLeadsTo(DiscardDraft(cls, discard.value), Settle(RaisedError(cls)))
  {
  }

  lemma DeliveryLeads(id: nat, draft: Option<nat>)
    ensures AlwaysLeadsTo(Deliver(id, draft), Settle(Returned))
  {
  }

  /** What the provider's client gives back. */
  datatype Receipt = Got(id: nat) | Threw(cls: ErrorClass)

  class Deployment {
    var st: State
    ghost var history: seq<Step>

    /** The present state is one a run of the system reaches. */
    ghost predicate Valid()
      reads this
    {
      After(history) == Some(st)
    }

    constructor ()
      ensures Valid() && st == INITIAL
    {
      st := INITIAL;
      history := [];
    }

    /** `e` is a piece of send code at program point `at`. */
    predicate At(e: ExecId, at: Point)
      reads this
    {
      e in st.execs && st.execs[e].kind == SendJob && st.execs[e].at == at
    }

    method Take(step: Step)
      requires Valid() && Enabled(st, step)
      modifies this
      ensures Valid() && st == Apply(old(st), step) && history == old(history) + [step]
    {
      st := Apply(st, step);
      history := history + [step];
      assert history[..|history| - 1] == old(history);
    }

    /** Everybody else, for any number of steps. */
    method Others()
      requires Valid()
      modifies this
      ensures Valid() && old(history) <= history
    {
      var more: seq<Step> := *;
      for i := 0 to |more|
        invariant Valid() && old(history) <= history
      {
        if Enabled(st, more[i]) {
          Take(more[i]);
        }
      }
    }

    /** An `await`: the code resumes where it was, or never, because its process
        died, its deadline passed or a statement raised. */
    method Await(e: ExecId) returns (resumed: bool)
      requires Valid() && e in st.execs && st.execs[e].kind == SendJob
      modifies this
      ensures Valid() && old(history) <= history
      ensures resumed ==>
                && e in st.execs && st.execs[e] == old(st.execs[e]) && st.execs[e].ref < |st.cells|
                && (e.Worker? ==> st.now <= st.execs[e].until)
    {
      var before := st.execs[e];
      Others();
      SystemInvariant.ReachableInv(history);
      resumed := e in st.execs && st.execs[e] == before && (e.Worker? ==> st.now <= before.until);
      if resumed {
        assert SystemInvariant.ExecInv(st, e, st.execs[e]);
      }
    }

    /** The last step is the statement of `e` at `at`, and `cell` is what it found. */
    ghost predicate Took(e: ExecId, at: Point, cell: Cell, answer: Answer)
      reads this
    {
      && history != [] && history[|history| - 1] == Act(e, answer)
      && var (n, x) := (|history| - 1, if e in st.execs then st.execs[e].ref else 0);
         Runs(history, n, x) && CellAt(history, n, x) == cell && PointAt(history, n, x) == at
    }

    /** The last step is a statement of `e`. */
    ghost predicate EndsAt(e: ExecId)
      reads this
    {
      history != [] && history[|history| - 1].Act? && history[|history| - 1].exec == e
    }

    /** Waits, then runs the statement at hand: what it read, and the answer the
        outside world chose to give. */
    method Statement(e: ExecId) returns (r: Option<(Cell, Answer)>)
      requires Valid() && e in st.execs && st.execs[e].kind == SendJob && Handling(st.execs[e].at)
      modifies this
      ensures Valid() && old(history) <= history
      ensures r.Some? ==>
                var x := old(st.execs[e]);
                && (exists now :: Possible(r.value.0, x.at, r.value.1, now))
                && At(e, Following(r.value.0, x.at, r.value.1, x.attempts, x.maxAttempts))
                && st.execs[e] == x.(at := st.execs[e].at)
      ensures r.Some? ==> EndsAt(e)
    {
      r := StatementSeen(e);
    }

    /** The same, with the step it takes. */
    method StatementSeen(e: ExecId) returns (r: Option<(Cell, Answer)>)
      requires Valid() && e in st.execs && st.execs[e].kind == SendJob && Handling(st.execs[e].at)
      modifies this
      ensures Valid() && old(history) <= history
      ensures r.Some? ==>
                var x := old(st.execs[e]);
                && (exists now :: Possible(r.value.0, x.at, r.value.1, now))
                && At(e, Following(r.value.0, x.at, r.value.1, x.attempts, x.maxAttempts))
                && st.execs[e] == x.(at := st.execs[e].at)
      ensures r.Some? ==> |old(history)| < |history| && EndsAt(e) && Took(e, old(st.execs[e].at), r.value.0, r.value.1)
    {
      var resumed := Await(e);
      if !resumed {
        return None;
      }
      ghost var before := history;
      var cell := st.cells[st.execs[e].ref];
      SomeAnswerPossible(cell, st.execs[e].at, st.now);
      var answer :| Possible(cell, st.execs[e].at, answer, st.now);
      Take(Act(e, answer));
      RunsNow(before, After(before).value, e, answer);
      return Some((cell, answer));
    }

    /** A statement after which the code goes on in one way only. */
    method Plain(e: ExecId, to: Point) returns (ran: bool)
      requires Valid() && e in st.execs && st.execs[e].kind == SendJob && Handling(st.execs[e].at)
      requires AlwaysLeadsTo(st.execs[e].at, to)
      modifies this
      ensures Valid() && old(history) <= history
      ensures ran ==> At(e, to) && EndsAt(e) && st.execs[e] == old(st.execs[e]).(at := to)
    {
      var r := Statement(e);
      ran := r.Some?;
    }

    /** `_mark_uncertain`, and the verdict that goes with it. */
    method ParkUncertain(e: ExecId, caller: Caller) returns (verdict: Option<Verdict>)
      requires Valid() && At(e, ReconcilePark(caller))
      modifies this
      ensures Valid() && old(history) <= history
      ensures verdict.Some? ==> verdict.value == ParkedUncertain && At(e, Resume(caller, ParkedUncertain, false, 0))
      ensures verdict.Some? ==> st.execs[e] == old(st.execs[e]).(at := st.execs[e].at) && EndsAt(e)
    {
      var done := Plain(e, Resume(caller, ParkedUncertain, false, 0));
      return if done then Some(ParkedUncertain) else None;
    }

    /** `reconcile_send` (lines 195-264): the verdict it returns is the one the
        caller acts on next. */
    method ReconcileSend(e: ExecId, caller: Caller) returns (verdict: Option<Verdict>, ghost unprobed: bool, ghost era: nat)
      requires Valid() && At(e, ReconcileLoad(caller))
      modifies this
      ensures Valid() && old(history) <= history
      ensures verdict.Some? ==> At(e, Resume(caller, verdict.value, unprobed, era))
      ensures verdict.Some? ==> st.execs[e] == old(st.execs[e]).(at := st.execs[e].at) && EndsAt(e)
    {
      unprobed, era := false, 0;
      verdict := None;
      var loaded := Statement(e);
      if loaded.None? { return; }
      var row := loaded.value.0.row;
      if row.state != InFlight {
        verdict := Some(AlreadyTerminal);
      } else if row.dispatchedAt.None? {
        verdict, unprobed, era := Some(NotSent), true, loaded.value.0.tally.forced;
      } else if row.reconcileAttempts >= MAX_RECONCILE_ATTEMPTS {
        verdict := ParkUncertain(e, caller);
      } else {
        var bumped := Statement(e);
        if bumped.None? { return; }
        if bumped.value.1.DraftGone? {
          verdict := ParkUncertain(e, caller);
        } else {
          var attempts := bumped.value.0.row.reconcileAttempts + 1;
          verdict, era := AskProvider(e, caller, attempts, row.draftId);
        }
      }
    }

    /** The probe and what is recorded of its answer (lines 222-264). */
    method AskProvider(e: ExecId, caller: Caller, attempts: nat, draft: Option<nat>)
      returns (verdict: Option<Verdict>, ghost era: nat)
      requires Valid() && e in st.execs && st.execs[e].kind == SendJob && st.execs[e].at.ReconcileProbe?
      requires st.execs[e].at == ReconcileProbe(caller, attempts, draft, st.execs[e].at.dispatchedAt)
      modifies this
      ensures Valid() && old(history) <= history
      ensures verdict.Some? ==> At(e, Resume(caller, verdict.value, false, era))
      ensures verdict.Some? ==> st.execs[e] == old(st.execs[e]).(at := st.execs[e].at) && EndsAt(e)
    {
      verdict, era := None, 0;
      var probed := Statement(e);
      if probed.None? { return; }
      var probe := Probe(probed.value.0, draft, probed.value.1);
      if probe.Found? && probe.id.Some? {
        var adopted := Statement(e);
        if adopted.None? { return; }
        verdict := Some(if adopted.value.0.row.state == InFlight then Adopted else AlreadyTerminal);
      } else if probe.Absent? {
        var noted := Statement(e);
        if noted.None? { return; }
        verdict, era := Some(NotSent), noted.value.0.tally.forced;
      } else if probe.Found? || attempts >= MAX_RECONCILE_ATTEMPTS {
        verdict := ParkUncertain(e, caller);
      } else {
        var noted := Statement(e);
        if noted.None? { return; }
        verdict := Some(RetryLater);
      }
    }

    /** A transient failure at the ceiling: reconcile before calling it failed (lines 457-463). */
    method GiveUp(e: ExecId) returns (outcome: Option<Outcome>)
      requires Valid() && At(e, ReconcileLoad(AtCeiling))
      modifies this
      ensures Valid() && old(history) <= history
      ensures outcome.Some? ==> outcome.value == RaisedError(Transient) && At(e, Settle(outcome.value)) && EndsAt(e)
    {
      var verdict, _, _ := ReconcileSend(e, AtCeiling);
      if verdict.None? {
        return None;
      }
      if verdict.value == NotSent || verdict.value == RetryLater {
        var settled := Plain(e, Settle(RaisedError(Transient)));
        return if settled then Some(RaisedError(Transient)) else None;
      }
      return Some(RaisedError(Transient));
    }

    /** `_finalize_failure` (lines 430-482), after which the error is raised again. */
    method FinalizeFailure(e: ExecId, cls: ErrorClass, attempts: nat, maxAttempts: nat, discard: Option<nat>)
      returns (outcome: Option<Outcome>)
      requires Valid() && At(e, Ladder(cls, attempts, maxAttempts, discard))
      modifies this
      ensures Valid() && old(history) <= history
      ensures outcome.Some? ==> outcome.value == RaisedError(cls) && At(e, Settle(outcome.value)) && EndsAt(e)
    {
      if cls == Transient && attempts < maxAttempts {
        var noted := Plain(e, Settle(RaisedError(cls)));
        return if noted then Some(RaisedError(cls)) else None;
      }
      if cls == Transient {
        outcome := GiveUp(e);
        return;
      }
      outcome := FailOutright(e, cls, discard);
    }

    /** The send has failed for good; its draft is tidied up, if it had one. */
    method FailOutright(e: ExecId, cls: ErrorClass, discard: Option<nat>) returns (outcome: Option<Outcome>)
      requires Valid() && At(e, FailForGood(cls, discard))
      modifies this
      ensures Valid() && old(history) <= history
      ensures outcome.Some? ==> outcome.value == RaisedError(cls) && At(e, Settle(outcome.value)) && EndsAt(e)
    {
      FailureLeads(cls, discard);
      if discard.Some? {
        var recorded := Plain(e, DiscardDraft(cls, discard.value));
        if !recorded { return None; }
        outcome := Discard(e, cls, discard.value);
      } else {
        var recorded := Plain(e, Settle(RaisedError(cls)));
        return if recorded then Some(RaisedError(cls)) else None;
      }
    }

    method Discard(e: ExecId, cls: ErrorClass, draft: nat) returns (outcome: Option<Outcome>)
      requires Valid() && At(e, DiscardDraft(cls, draft))
      modifies this
      ensures Valid() && old(history) <= history
      ensures outcome.Some? ==> outcome.value == RaisedError(cls) && At(e, Settle(outcome.value)) && EndsAt(e)
    {
      FailureLeads(cls, Some(draft));
      var tidied := Plain(e, Settle(RaisedError(cls)));
      return if tidied then Some(RaisedError(cls)) else None;
    }

    lemma HandlersAreWorkers(e: ExecId)
      requires Valid() && e in st.execs && st.execs[e].at.Settle?
      ensures e.Worker?
    {
      SystemInvariant.ReachableInv(history);
      assert SystemInvariant.ExecInv(st, e, st.execs[e]);
    }

    /** The last statement records the delivery of a call that the provider took since the
        history was `from` steps long: unless it found the send ended, the row shows the
        delivery, under the id of the receipt. */
    ghost predicate Delivers(from: nat, e: ExecId, id: nat)
      reads this
    {
      && EndsAt(e) && Valid() && e in st.execs && st.execs[e].ref < |st.cells|
      && var (d, x) := (|history| - 1, st.execs[e].ref);
         && Records(history, d, e, x, id) && (exists a: nat :: from <= a && Receives(history, a, e, x, id))
         && st.cells[x].row.state != InFlight
         && (CellAt(history, d, x).row.state == InFlight ==> DeliveredAs(st.cells[x].row, id, NowAt(history, d)))
    }

    lemma RecordDelivers(from: nat, a: nat, e: ExecId, id: nat, draft: Option<nat>, cell: Cell, answer: Answer, called: seq<Step>)
      requires Valid() && EndsAt(e) && e in st.execs && Took(e, Deliver(id, draft), cell, answer)
      requires from <= a && called <= history && Receives(called, a, e, st.execs[e].ref, id)
      ensures Delivers(from, e, id)
    {
      StillReceived(called, history, a, e, st.execs[e].ref, id);
      RecordShows(history, e, st.execs[e].ref, id);
    }

    /** `run_send` (lines 84-172), ending as the machine says its job will settle.
        Whenever it ends, however it is interrupted, no send has gone out more
        than once for the claim and once for each forced resend. */
    method RunSend(e: ExecId) returns (outcome: Option<Outcome>)
      requires Valid() && At(e, Load)
      modifies this
      ensures Valid() && old(history) <= history
      ensures outcome.Some? ==> At(e, Settle(outcome.value)) && EndsAt(e)
      ensures outcome == Some(Returned) ==> st.execs[e].ref < |st.cells| && Dealt(st.cells[st.execs[e].ref])
      ensures outcome.Some? ==>
                match ErrorOf(history, e)
                case None => outcome.value == Returned
                case Some(cls) => outcome.value == RaisedError(cls)
      ensures forall x :: 0 <= x < |st.cells| ==> |st.cells[x].sent| <= 1 + st.cells[x].tally.forced
    {
      outcome := Dispatch(e);
      if outcome.Some? {
        EndsAsItFailed(history, e);
      }
      if outcome == Some(Returned) {
        HandlersAreWorkers(e);
        ReturnedIsDealt(history, e);
      }
      SystemInvariant.ReachableInv(history);
      forall x | 0 <= x < |st.cells| ensures |st.cells[x].sent| <= 1 + st.cells[x].tally.forced {
        SendInvariant.MessagesBounded(st.cells[x], st.now);
      }
    }

    /** `_execute` for one claimed send: the handler under its deadline, then the finish. */
    method Execute(e: ExecId) returns (report: Report)
      requires Valid() && e.Worker? && At(e, Leased)
      modifies this
      ensures Valid() && old(history) <= history
      ensures report != Vanished ==>
                && e !in st.execs && old(history) < history
                && history[|history| - 1].Finish? && history[|history| - 1].exec == e
      ensures report == Completed ==> e.job < |st.jobs| && st.jobs[e.job].state == Succeeded
    {
      var ended := UnderDeadline(e);
      if !ended {
        return Vanished;
      }
      Others();
      var delay: nat := *;
      if !Enabled(st, Step.Finish(e, delay)) {
        return Vanished;
      }
      report := RecordEnd(e, delay);
    }

    /** The handler, until it ends or its deadline cancels it; false when its claim has died. */
    method UnderDeadline(e: ExecId) returns (ended: bool)
      requires Valid() && e.Worker? && At(e, Leased)
      modifies this
      ensures Valid() && old(history) <= history
      ensures ended ==> e in st.execs && st.execs[e].at.Settle?
    {
      var resumed := Await(e);
      if !resumed || !Enabled(st, Begin(e)) {
        return false;
      }
      Take(Begin(e));
      var outcome := RunSend(e);
      ended := true;
      if outcome.None? {
        ended := Stopped(e);
      }
    }

    /** The deadline cancels the handler, or something unforeseen raised: false when the
        claim has died instead. */
    method Stopped(e: ExecId) returns (stopped: bool)
      requires Valid()
      modifies this
      ensures Valid() && old(history) <= history
      ensures stopped ==> e in st.execs && st.execs[e].at.Settle? && st.execs[e].at.outcome.RaisedError?
      ensures !stopped ==> st == old(st)
    {
      var cls: ErrorClass := *;
      stopped := Enabled(st, Abort(e, cls));
      if stopped {
        Take(Abort(e, cls));
      }
    }

    /** `succeed` or `fail`, and what `_execute` reports of it. */
    method RecordEnd(e: ExecId, delay: nat) returns (report: Report)
      requires Valid() && Enabled(st, Step.Finish(e, delay))
      modifies this
      ensures Valid() && history == old(history) + [Step.Finish(e, delay)]
      ensures e !in st.execs && e.job < |st.jobs| == |old(st).jobs|
      ensures report == Ending(old(st).execs[e].at.outcome, old(st).execs[e], Owns(old(st).jobs[e.job], old(st).execs[e].worker))
      ensures st.jobs == old(st).jobs[e.job := st.jobs[e.job]]
      ensures if Owns(old(st).jobs[e.job], old(st).execs[e].worker) then st.jobs[e.job].state == JobEnd(report)
              else st.jobs == old(st).jobs
    {
      SystemInvariant.ReachableInv(history);
      assert SystemInvariant.ExecInv(st, e, st.execs[e]);
      var x := st.execs[e];
      var applied := Owns(st.jobs[x.job], x.worker);
      Take(Step.Finish(e, delay));
      match x.at.outcome {
        case Returned =>
          if applied { return Completed; } else { return Lost; }
        case RaisedError(cls) =>
          if cls != Transient { return FailedOutright; }
          if x.attempts >= x.maxAttempts { return ParkedAtCeiling; }
          return RetriedLater;
      }
    }

    method Dispatch(e: ExecId) returns (outcome: Option<Outcome>)
      requires Valid() && At(e, Load)
      modifies this
      ensures Valid() && old(history) <= history
      ensures outcome.Some? ==> At(e, Settle(outcome.value)) && EndsAt(e)
    {
      var attempts, maxAttempts := st.execs[e].attempts, st.execs[e].maxAttempts;
      var loaded := Statement(e);
      if loaded.None? { return None; }
      var send := loaded.value.0.row;
      if send.state != InFlight {
        return Some(Returned);
      }
      if send.dispatchedAt.Some? {
        var verdict, _, _ := ReconcileSend(e, Dispatching(send.draftId));
        if verdict.None? { return None; }
        if verdict.value == RetryLater {
          return Some(RaisedError(Transient));
        }
        if verdict.value != NotSent {
          return Some(Returned);
        }
      }

      ghost var prepare := st.execs[e].at;
      outcome := Transmit(e, send.draftId, prepare.unprobed, prepare.era, attempts, maxAttempts);
    }

    /** Prepare, commit the evidence, and only then call (lines 124-141). */
    method Transmit(e: ExecId, draft: Option<nat>, ghost unprobed: bool, ghost era: nat, attempts: nat, maxAttempts: nat)
      returns (outcome: Option<Outcome>)
      requires Valid() && At(e, Prepare(draft, unprobed, era))
      requires st.execs[e].attempts == attempts && st.execs[e].maxAttempts == maxAttempts
      modifies this
      ensures Valid() && old(history) <= history
      ensures outcome.Some? ==> At(e, Settle(outcome.value)) && EndsAt(e)
    {
      var prepared := Statement(e);
      if prepared.None? { return None; }
      if prepared.value.1.Raised? {
        outcome := FinalizeFailure(e, prepared.value.1.cls, attempts, maxAttempts, None);
        return;
      }
      var recorded := Coalesce(prepared.value.1.draft, draft);

      var committed := Statement(e);
      if committed.None? { return None; }
      outcome := CallProvider(e, recorded, era, prepared.value.0.content, attempts, maxAttempts);
    }

    /** `provider.send`: a receipt, or what it raised. */
    method Send(e: ExecId, draft: Option<nat>, ghost era: nat, content: nat, attempts: nat, maxAttempts: nat)
      returns (receipt: Option<Receipt>)
      requires Valid() && At(e, Call(draft, era, content))
      requires st.execs[e].attempts == attempts && st.execs[e].maxAttempts == maxAttempts
      modifies this
      ensures Valid() && old(history) <= history
      ensures receipt.Some? && receipt.value.Threw? ==> At(e, Ladder(receipt.value.cls, attempts, maxAttempts, draft))
      ensures receipt.Some? && receipt.value.Got? ==>
                && |old(history)| < |history| && At(e, Deliver(receipt.value.id, draft))
                && Receives(history, |history| - 1, e, st.execs[e].ref, receipt.value.id)
    {
      var answered := StatementSeen(e);
      if answered.None? { return None; }
      var raised := if answered.value.1.Raised? then Some(answered.value.1.cls) else answered.value.1.lost;
      return Some(if raised.Some? then Threw(raised.value) else Got(answered.value.1.id));
    }

    /** The provider call and what becomes of it (lines 144-153). */
    method CallProvider(e: ExecId, draft: Option<nat>, ghost era: nat, content: nat, attempts: nat, maxAttempts: nat)
      returns (outcome: Option<Outcome>)
      requires Valid() && At(e, Call(draft, era, content))
      requires st.execs[e].attempts == attempts && st.execs[e].maxAttempts == maxAttempts
      modifies this
      ensures Valid() && old(history) <= history
      ensures outcome.Some? ==> At(e, Settle(outcome.value)) && EndsAt(e)
      ensures outcome == Some(Returned) ==> exists id: nat :: Delivers(|old(history)|, e, id)
    {
      var receipt := Send(e, draft, era, content, attempts, maxAttempts);
      if receipt.None? { return None; }
      match receipt.value {
        case Threw(cls) => outcome := FinalizeFailure(e, cls, attempts, maxAttempts, draft);
        case Got(id) => outcome := MarkDelivered(e, id, draft, |old(history)|, |history| - 1);
      }
    }

    /** `_mark_delivered`, after which the handler returns (lines 153-172). */
    method MarkDelivered(e: ExecId, id: nat, draft: Option<nat>, ghost from: nat, ghost a: nat)
      returns (outcome: Option<Outcome>)
      requires Valid() && At(e, Deliver(id, draft)) && from <= a && Receives(history, a, e, st.execs[e].ref, id)
      modifies this
      ensures Valid() && old(history) <= history
      ensures outcome.Some? ==> outcome.value == Returned && At(e, Settle(Returned)) && EndsAt(e) && Delivers(from, e, id)
    {
      ghost var called := history;
      DeliveryLeads(id, draft);
      var delivered := StatementSeen(e);
      if delivered.None? { return None; }
      RecordDelivers(from, a, e, id, draft, delivered.value.0, delivered.value.1, called);
      return Some(Returned);
    }
  }

  /** The environment always has an answer. */
  lemma SomeAnswerPossible(c: Cell, at: Point, now: nat)
    requires Handling(at)
    ensures exists a :: Possible(c, at, a, now)
  {
    if at.ReconcileProbe? {
      assert Possible(c, at, ProbeRaised, now);
    } else if at.Prepare? && c.channel != Gmail {
      assert Possible(c, at, Prepared(None), now);
    } else if at.Prepare? && at.draft.Some? {
      assert Possible(c, at, Prepared(at.draft), now);
    } else if at.Prepare? || at.Call? {
      assert Possible(c, at, Raised(Transient, None), now);
    } else {
      assert Possible(c, at, Done, now);
    }
  }
}
