/** What a handler or a reconciler concludes rests on what it found, and how a handler
    ends on what went wrong in it (`packages/core/send/handler.py`). */
module SendVerdicts {
  import opened Basics
  import opened SendRows
  import JobRows
  import opened SendHandler
  import opened SendInvariant
  import opened SendSystem
  import opened SystemInvariant
  import opened SendSafety
  import opened RowShape
  import opened Deliveries

  // ------------------------------------------------------------------
  // Findings
  // ------------------------------------------------------------------

  /** What the executor last learned of the send. `tries` counts the probes so far. */
  datatype Finding =
    | Nothing
    | Ended                     // the row was not in flight
    | NeverSent                 // the row showed no dispatch
    | Exhausted                 // the row had used up its probes
    | DraftMissing
    | Located(id: nat)          // the provider has the message
    | Unnamed                   // it has it, but cannot name it
    | Denied                    // it does not have it
    | Unclear(tries: nat)

  /** A statement that found this in the row or at the provider. */
  function Learned(c: Cell, at: Point, a: Answer, f: Finding): Finding {
    match at
    case Load =>
      if c.row.state != InFlight then Ended else if c.row.dispatchedAt.None? then NeverSent else Nothing
    case ReconcileLoad(_) =>
      if c.row.state != InFlight then Ended
      else if c.row.dispatchedAt.None? then NeverSent
      else if c.row.reconcileAttempts >= 3 then Exhausted
      else Nothing
    case ReconcileBump(_, _, _) => if a.DraftGone? then DraftMissing else f
    case ReconcileProbe(_, tries, draft, _) =>
      (match Probe(c, draft, a)
       case Found(id) => if id.Some? then Located(id.value) else Unnamed
       case Absent => Denied
       case Inconclusive => Unclear(tries))
    case _ => f
  }

  /** What the executor has learned by the end of the run; one that comes in has learned nothing. */
  ghost function FindingOf(steps: seq<Step>, e: ExecId): Finding {
    if steps == [] then Nothing
    else
      var (init, last) := (steps[..|steps| - 1], steps[|steps| - 1]);
      var s := After(init);
      if s.None? || e !in s.value.execs then Nothing
      else if last.Act? && last.exec == e && s.value.execs[e].ref < |s.value.cells| then
        Learned(s.value.cells[s.value.execs[e].ref], s.value.execs[e].at, last.answer, FindingOf(init, e))
      else FindingOf(init, e)
  }

  /** Nothing went out, as far as can be known. */
  predicate Clears(f: Finding) {
    f == NeverSent || f == Denied
  }

  /** The send must be left to a person. */
  predicate Parks(f: Finding) {
    f == Exhausted || f == DraftMissing || f == Unnamed || (f.Unclear? && f.tries >= 3)
  }

  predicate AsksAgain(f: Finding) {
    f.Unclear? && f.tries < 3
  }

  /** What a program point rests on. */
  predicate Rests(at: Point, f: Finding) {
    match at
    case ReconcileBump(_, _, _) => f == Nothing
    case ReconcileProbe(_, _, _, _) => f == Nothing
    case ReconcileAdopt(_, id, _) => f == Located(id)
    case ReconcileAbsent(_) => f == Denied
    case ReconcileAgain(_) => AsksAgain(f)
    case ReconcilePark(_) => Parks(f)
    case Prepare(_, unprobed, _) => f == if unprobed then NeverSent else Denied
    case Commit(_, unprobed, _, _) => f == if unprobed then NeverSent else Denied
    case Call(_, _, _) => Clears(f)
    case Deliver(_, _) => Clears(f)
    case NoteTransient => Clears(f)
    case FailForGood(_, _) => Clears(f)
    case DiscardDraft(_, _) => Clears(f)
    case GiveUpUnsent => Clears(f)
    case GiveUpUnsure => AsksAgain(f)
    case SweepEnd(v) =>
      if v == JobRows.SafeToDispatch then Clears(f) || AsksAgain(f) else f == Ended || f.Located? || Parks(f)
    case AdapterBody => false
    case Settle(outcome) => outcome == Returned ==> f == Ended || f.Located? || Parks(f) || Clears(f)
    case _ => true
  }

  lemma StatementRests(c: Cell, at: Point, a: Answer, now: nat, attempts: nat, maxAttempts: nat, f: Finding)
    requires Handling(at) && Possible(c, at, a, now) && Rests(at, f)
    ensures Rests(Following(c, at, a, attempts, maxAttempts), Learned(c, at, a, f))
  {
  }

  /** A point that rests on nothing. */
  predicate Fresh(at: Point) {
    at.Leased? || at.Load? || at == ReconcileLoad(Sweeping) || (at.Settle? && at.outcome.RaisedError?)
  }

  predicate SendExec(s: State, e: ExecId) {
    e in s.execs && s.execs[e].kind == JobRows.SendJob
  }

  /** What a step of another does to an executor that is there. */
  predicate Passes(x: Exec, y: Exec, step: Step, e: ExecId) {
    && y.kind == x.kind && y.attempts == x.attempts && y.maxAttempts == x.maxAttempts
    && (if step == Begin(e) then x.at.Leased? && y.at == (if x.kind == JobRows.SendJob then Load else AdapterBody)
        else if step == EndAdapter(e) then x.at.AdapterBody? && y.at == Settle(Returned)
        else if step.Abort? && step.exec == e then y.at == Settle(RaisedError(step.cls))
        else y.at == x.at)
  }

  lemma ClaimPasses(s: State, worker: nat, limit: nat, locked: set<nat>, e: ExecId)
    requires Inv(s) && e in s.execs
    ensures Apply(s, Claim(worker, limit, locked)).execs[e] == s.execs[e]
  {
    assert ExecInv(s, e, s.execs[e]);
  }

  lemma ExecPasses(s: State, step: Step, e: ExecId)
    requires Enabled(s, step) && e in s.execs && e in Apply(s, step).execs && !(step.Act? && step.exec == e) && !step.Claim?
    ensures Passes(s.execs[e], Apply(s, step).execs[e], step, e)
  {
  }

  lemma ExecEnters(s: State, step: Step, e: ExecId)
    requires Enabled(s, step) && e !in s.execs && e in Apply(s, step).execs
    ensures Apply(s, step).execs[e].at.Leased? || Apply(s, step).execs[e].at == ReconcileLoad(Sweeping)
  {
  }

  /** An executor that another's step leaves where it was, or stops short, or one that comes in. */
  lemma OthersRest(s: State, step: Step, e: ExecId)
    requires Inv(s) && Enabled(s, step) && SendExec(Apply(s, step), e) && !(step.Act? && step.exec == e)
    ensures var at := Apply(s, step).execs[e].at;
            || (SendExec(s, e) && (s.execs[e].at == at || s.execs[e].at.AdapterBody?))
            || Fresh(at)
  {
    if e !in s.execs {
      ExecEnters(s, step, e);
    } else if step.Claim? {
      ClaimPasses(s, step.worker, step.limit, step.locked, e);
    } else {
      ExecPasses(s, step, e);
      PassedRests(s.execs[e], Apply(s, step).execs[e], step, e);
    }
  }

  lemma PassedRests(x: Exec, y: Exec, step: Step, e: ExecId)
    requires x.kind == JobRows.SendJob && Passes(x, y, step, e)
    ensures y.at == x.at || x.at.AdapterBody? || Fresh(y.at)
  {
  }

  lemma OthersFind(steps: seq<Step>, s: State, step: Step, e: ExecId)
    requires After(steps) == Some(s) && e in s.execs && !(step.Act? && step.exec == e)
    ensures FindingOf(steps + [step], e) == FindingOf(steps, e)
  {
    assert (steps + [step])[..|steps|] == steps;
  }

  lemma OwnRests(steps: seq<Step>, s: State, e: ExecId, a: Answer)
    requires After(steps) == Some(s) && Inv(s) && Enabled(s, Act(e, a)) && Rests(s.execs[e].at, FindingOf(steps, e))
    ensures Rests(Apply(s, Act(e, a)).execs[e].at, FindingOf(steps + [Act(e, a)], e))
  {
    var x := s.execs[e];
    assert (steps + [Act(e, a)])[..|steps|] == steps;
    assert ExecInv(s, e, x);
    ActApplied(s, e, a);
    StatementRests(s.cells[x.ref], x.at, a, s.now, x.attempts, x.maxAttempts, FindingOf(steps, e));
  }

  /** Every conclusion rests on its finding: a send is adopted only under the id that the
      provider gave, prepared and called only when the row showed no dispatch or the
      provider denied having it, called `failed_transient` only on the same grounds, left
      to a person only after three unclear probes or when the draft or the name is
      missing, and put back by a sweep only when it is clear or may be asked again. */
  lemma {:induction false} ConclusionsRest(steps: seq<Step>, e: ExecId)
    requires After(steps).Some? && SendExec(After(steps).value, e)
    ensures Rests(After(steps).value.execs[e].at, FindingOf(steps, e))
  {
    var (init, last) := (steps[..|steps| - 1], steps[|steps| - 1]);
    LastStep(steps);
    assert steps == init + [last];
    ReachableInv(init);
    var s := After(init).value;
    if last.Act? && last.exec == e {
      ActorIsSend(s, e, last.answer);
      ConclusionsRest(init, e);
      OwnRests(init, s, e, last.answer);
    } else {
      OthersRest(s, last, e);
      if SendExec(s, e) {
        ConclusionsRest(init, e);
        OthersFind(init, s, last, e);
      }
    }
  }

  lemma ActorIsSend(s: State, e: ExecId, a: Answer)
    requires Inv(s) && Enabled(s, Act(e, a))
    ensures SendExec(s, e)
  {
    assert ExecInv(s, e, s.execs[e]);
  }

  // ------------------------------------------------------------------
  // Errors
  // ------------------------------------------------------------------

  /** What went wrong in a statement of a handler: the provider's client raised, its answer
      was lost, or the probe of a dispatching handler left the matter unclear. */
  function Failure(at: Point, a: Answer): Option<ErrorClass> {
    match at
    case Prepare(_, _, _) => if a.Raised? then Some(a.cls) else None
    case Call(_, _, _) => if a.Raised? then Some(a.cls) else if a.Accepted? then a.lost else None
    case ReconcileAgain(caller) => if caller.Dispatching? then Some(Transient) else None
    case _ => None
  }

  /** The last thing that went wrong for the executor. */
  ghost function ErrorOf(steps: seq<Step>, e: ExecId): Option<ErrorClass> {
    if steps == [] then None
    else
      var (init, last) := (steps[..|steps| - 1], steps[|steps| - 1]);
      var s := After(init);
      if s.None? || e !in s.value.execs then None
      else if last.Abort? && last.exec == e then Some(last.cls)
      else if last.Act? && last.exec == e && Failure(s.value.execs[e].at, last.answer).Some? then
        Failure(s.value.execs[e].at, last.answer)
      else ErrorOf(init, e)
  }

  predicate CallerBlames(caller: Caller, attempts: nat, maxAttempts: nat, error: Option<ErrorClass>) {
    match caller
    case Dispatching(_) => error.None?
    case AtCeiling => error == Some(Transient) && attempts >= maxAttempts
    case Sweeping => true
  }

  /** Where a handler is, by what went wrong in it. */
  predicate Blames(at: Point, attempts: nat, maxAttempts: nat, error: Option<ErrorClass>) {
    match at
    case Leased => error.None?
    case AdapterBody => false
    case Load => error.None?
    case ReconcileLoad(caller) => CallerBlames(caller, attempts, maxAttempts, error)
    case ReconcileBump(caller, _, _) => CallerBlames(caller, attempts, maxAttempts, error)
    case ReconcileProbe(caller, _, _, _) => CallerBlames(caller, attempts, maxAttempts, error)
    case ReconcileAdopt(caller, _, _) => CallerBlames(caller, attempts, maxAttempts, error)
    case ReconcileAbsent(caller) => CallerBlames(caller, attempts, maxAttempts, error)
    case ReconcileAgain(caller) => CallerBlames(caller, attempts, maxAttempts, error)
    case ReconcilePark(caller) => CallerBlames(caller, attempts, maxAttempts, error)
    case Prepare(_, _, _) => error.None?
    case Commit(_, _, _, _) => error.None?
    case Call(_, _, _) => error.None?
    case Deliver(_, _) => error.None?
    case NoteTransient => error == Some(Transient) && attempts < maxAttempts
    case GiveUpUnsent => error == Some(Transient) && attempts >= maxAttempts
    case GiveUpUnsure => error == Some(Transient) && attempts >= maxAttempts
    case FailForGood(cls, _) => error == Some(cls) && cls != Transient
    case DiscardDraft(cls, _) => error == Some(cls) && cls != Transient
    case Settle(outcome) => error == if outcome.RaisedError? then Some(outcome.cls) else None
    case SweepEnd(_) => true
  }

  lemma StatementBlames(c: Cell, at: Point, a: Answer, now: nat, attempts: nat, maxAttempts: nat, error: Option<ErrorClass>)
    requires Handling(at) && Possible(c, at, a, now) && Blames(at, attempts, maxAttempts, error)
    ensures Blames(Following(c, at, a, attempts, maxAttempts), attempts, maxAttempts,
                   if Failure(at, a).Some? then Failure(at, a) else error)
  {
  }

  predicate AllBlamed(x: Exec, error: Option<ErrorClass>) {
    Blames(x.at, x.attempts, x.maxAttempts, error)
  }

  lemma OwnBlames(steps: seq<Step>, s: State, e: ExecId, a: Answer)
    requires After(steps) == Some(s) && Enabled(s, Act(e, a)) && AllBlamed(s.execs[e], ErrorOf(steps, e))
    ensures AllBlamed(Apply(s, Act(e, a)).execs[e], ErrorOf(steps + [Act(e, a)], e))
  {
    var x := s.execs[e];
    assert (steps + [Act(e, a)])[..|steps|] == steps;
    ActApplied(s, e, a);
    StatementBlames(s.cells[x.ref], x.at, a, s.now, x.attempts, x.maxAttempts, ErrorOf(steps, e));
  }

  /** The error of an executor after a step of another. */
  lemma OthersErr(steps: seq<Step>, s: State, step: Step, e: ExecId)
    requires After(steps) == Some(s) && !(step.Act? && step.exec == e)
    ensures ErrorOf(steps + [step], e) ==
              if e !in s.execs then None else if step.Abort? && step.exec == e then Some(step.cls) else ErrorOf(steps, e)
  {
    assert (steps + [step])[..|steps|] == steps;
  }

  lemma PassedBlames(x: Exec, y: Exec, step: Step, e: ExecId, error: Option<ErrorClass>)
    requires x.kind == JobRows.SendJob && Passes(x, y, step, e) && AllBlamed(x, error)
    ensures AllBlamed(y, if step.Abort? && step.exec == e then Some(step.cls) else error)
  {
  }

  lemma OthersBlame(steps: seq<Step>, s: State, step: Step, e: ExecId)
    requires After(steps) == Some(s) && Inv(s) && Enabled(s, step) && SendExec(Apply(s, step), e)
    requires !(step.Act? && step.exec == e)
    requires SendExec(s, e) ==> AllBlamed(s.execs[e], ErrorOf(steps, e))
    ensures AllBlamed(Apply(s, step).execs[e], ErrorOf(steps + [step], e))
  {
    OthersErr(steps, s, step, e);
    if e !in s.execs {
      ExecEnters(s, step, e);
    } else if step.Claim? {
      ClaimPasses(s, step.worker, step.limit, step.locked, e);
    } else {
      ExecPasses(s, step, e);
      PassedBlames(s.execs[e], Apply(s, step).execs[e], step, e, ErrorOf(steps, e));
    }
  }

  lemma {:induction false} ErrorsPlaced(steps: seq<Step>, e: ExecId)
    requires After(steps).Some? && SendExec(After(steps).value, e)
    ensures AllBlamed(After(steps).value.execs[e], ErrorOf(steps, e))
  {
    var (init, last) := (steps[..|steps| - 1], steps[|steps| - 1]);
    LastStep(steps);
    assert steps == init + [last];
    ReachableInv(init);
    var s := After(init).value;
    if last.Act? && last.exec == e {
      ActorIsSend(s, e, last.answer);
      ErrorsPlaced(init, e);
      OwnBlames(init, s, e, last.answer);
    } else {
      if SendExec(s, e) {
        ErrorsPlaced(init, e);
      }
      OthersBlame(init, s, last, e);
    }
  }

  /** A handler returns exactly when nothing went wrong in it, and otherwise ends with the
      class of what did. */
  lemma EndsAsItFailed(steps: seq<Step>, e: ExecId)
    requires After(steps).Some? && SendExec(After(steps).value, e) && After(steps).value.execs[e].at.Settle?
    ensures After(steps).value.execs[e].at.outcome ==
              match ErrorOf(steps, e)
              case None => Returned
              case Some(cls) => RaisedError(cls)
  {
    ErrorsPlaced(steps, e);
  }

  // ------------------------------------------------------------------
  // What is dealt with
  // ------------------------------------------------------------------

  /** The last step is a statement of `e`, made at `at`, on the send `x`. */
  ghost predicate JustRan(steps: seq<Step>, e: ExecId, at: Point, x: nat) {
    && steps != [] && steps[|steps| - 1].Act? && steps[|steps| - 1].exec == e && After(steps).Some?
    && After(steps[..|steps| - 1]).Some?
    && var s := After(steps[..|steps| - 1]).value;
       e in s.execs && s.execs[e].at == at && s.execs[e].ref == x
  }

  /** A handler that ends here may leave its send in flight. */
  predicate MayLeaveOpen(at: Point) {
    at.NoteTransient? || at.DiscardDraft? || (at.ReconcileAgain? && at.caller.Dispatching?)
  }

  lemma StatementDeals(c: Cell, at: Point, a: Answer, now: nat, attempts: nat, maxAttempts: nat)
    requires Handling(at) && (at.ReconcilePark? || at.GiveUpUnsure? ==> EverDispatched(c))
    ensures Following(c, at, a, attempts, maxAttempts) == SweepEnd(JobRows.Settled) ==> Dealt(Effect(c, at, a, now))
    ensures Following(c, at, a, attempts, maxAttempts).Settle? && !MayLeaveOpen(at) ==> Dealt(Effect(c, at, a, now))
  {
  }

  /** A reconciler that reports a send as settled, and a handler that ends, leave it dealt
      with: not in flight, or waiting for the dispatch a person forced meanwhile. The
      only handlers that leave it in flight are to be tried again below their ceiling, or
      could not learn what became of an earlier dispatch; one that tidied up its draft
      ended the send a statement before. */
  lemma EndedIsDealt(steps: seq<Step>, e: ExecId, at: Point, x: nat)
    requires JustRan(steps, e, at, x)
    ensures x < |After(steps).value.cells| && e in After(steps).value.execs
    ensures var (c, to) := (After(steps).value.cells[x], After(steps).value.execs[e].at);
            && (to == SweepEnd(JobRows.Settled) ==> Dealt(c))
            && (to.Settle? && !MayLeaveOpen(at) ==> Dealt(c))
            && (at.NoteTransient? ==> After(steps).value.execs[e].attempts < After(steps).value.execs[e].maxAttempts)
  {
    var (init, last) := (steps[..|steps| - 1], steps[|steps| - 1]);
    LastStep(steps);
    ReachableInv(init);
    AllShapely(init);
    var s := After(init).value;
    ActorIsSend(s, e, last.answer);
    ErrorsPlaced(init, e);
    ParkersKnow(s, e, last.answer);
    ActApplied(s, e, last.answer);
    StatementDeals(s.cells[x], at, last.answer, s.now, s.execs[e].attempts, s.execs[e].maxAttempts);
  }

  lemma ParkersKnow(s: State, e: ExecId, a: Answer)
    requires Inv(s) && Shapely(s) && Enabled(s, Act(e, a))
    ensures s.execs[e].ref < |s.cells|
    ensures s.execs[e].at.ReconcilePark? || s.execs[e].at.GiveUpUnsure? ==> EverDispatched(s.cells[s.execs[e].ref])
  {
    assert ExecInv(s, e, s.execs[e]);
    if e.Worker? {
      assert PointShape(s.cells[s.execs[e].ref], s.execs[e].at);
    }
  }

  // ------------------------------------------------------------------
  // Tidying up
  // ------------------------------------------------------------------

  /** The draft that the executor's call was to send, once it has made it. */
  ghost function CalledWith(steps: seq<Step>, e: ExecId): Option<nat> {
    if steps == [] then None
    else
      var (init, last) := (steps[..|steps| - 1], steps[|steps| - 1]);
      var s := After(init);
      if s.None? || e !in s.value.execs then None
      else if last.Act? && last.exec == e && s.value.execs[e].at.Call? then s.value.execs[e].at.draft
      else CalledWith(init, e)
  }

  predicate Uncalled(at: Point) {
    at.Leased? || at.Load? || at.Prepare? || at.Commit? || at.Call?
    || (at.ReconcileLoad? && at.caller.Dispatching?) || (at.ReconcileBump? && at.caller.Dispatching?)
    || (at.ReconcileProbe? && at.caller.Dispatching?) || (at.ReconcileAbsent? && at.caller.Dispatching?)
  }

  /** Whoever gives up for good knows which draft its call was to send. */
  predicate Remembers(at: Point, called: Option<nat>) {
    && (Uncalled(at) ==> called.None?)
    && (at.FailForGood? ==> at.discard == called)
    && (at.DiscardDraft? ==> called == Some(at.discarded))
  }

  lemma StatementRemembers(c: Cell, at: Point, a: Answer, now: nat, attempts: nat, maxAttempts: nat, called: Option<nat>)
    requires Handling(at) && Possible(c, at, a, now) && Remembers(at, called)
    ensures Remembers(Following(c, at, a, attempts, maxAttempts), if at.Call? then at.draft else called)
  {
  }

  lemma OwnRemembers(steps: seq<Step>, s: State, e: ExecId, a: Answer)
    requires After(steps) == Some(s) && Enabled(s, Act(e, a)) && Remembers(s.execs[e].at, CalledWith(steps, e))
    ensures Remembers(Apply(s, Act(e, a)).execs[e].at, CalledWith(steps + [Act(e, a)], e))
  {
    var x := s.execs[e];
    assert (steps + [Act(e, a)])[..|steps|] == steps;
    ActApplied(s, e, a);
    StatementRemembers(s.cells[x.ref], x.at, a, s.now, x.attempts, x.maxAttempts, CalledWith(steps, e));
  }

  lemma OthersCalled(steps: seq<Step>, s: State, step: Step, e: ExecId)
    requires After(steps) == Some(s) && !(step.Act? && step.exec == e)
    ensures CalledWith(steps + [step], e) == if e in s.execs then CalledWith(steps, e) else None
  {
    assert (steps + [step])[..|steps|] == steps;
  }

  lemma PassedRemembers(x: Exec, y: Exec, step: Step, e: ExecId, called: Option<nat>)
    requires x.kind == JobRows.SendJob && Passes(x, y, step, e) && Remembers(x.at, called)
    ensures Remembers(y.at, called)
  {
  }

  lemma OthersRemember(steps: seq<Step>, s: State, step: Step, e: ExecId)
    requires After(steps) == Some(s) && Inv(s) && Enabled(s, step) && SendExec(Apply(s, step), e)
    requires !(step.Act? && step.exec == e)
    requires SendExec(s, e) ==> Remembers(s.execs[e].at, CalledWith(steps, e))
    ensures Remembers(Apply(s, step).execs[e].at, CalledWith(steps + [step], e))
  {
    OthersCalled(steps, s, step, e);
    if e !in s.execs {
      ExecEnters(s, step, e);
    } else if step.Claim? {
      ClaimPasses(s, step.worker, step.limit, step.locked, e);
    } else {
      ExecPasses(s, step, e);
      PassedRemembers(s.execs[e], Apply(s, step).execs[e], step, e, CalledWith(steps, e));
    }
  }

  lemma {:induction false} AllRemember(steps: seq<Step>, e: ExecId)
    requires After(steps).Some? && SendExec(After(steps).value, e)
    ensures Remembers(After(steps).value.execs[e].at, CalledWith(steps, e))
  {
    var (init, last) := (steps[..|steps| - 1], steps[|steps| - 1]);
    LastStep(steps);
    assert steps == init + [last];
    ReachableInv(init);
    var s := After(init).value;
    if last.Act? && last.exec == e {
      ActorIsSend(s, e, last.answer);
      AllRemember(init, e);
      OwnRemembers(init, s, e, last.answer);
    } else {
      if SendExec(s, e) {
        AllRemember(init, e);
      }
      OthersRemember(init, s, last, e);
    }
  }

  /** What a statement of giving up for good does next. */
  predicate Tidies(c: Cell, at: Point, to: Point, a: Answer, called: Option<nat>) {
    && (at.FailForGood? && called.Some? ==> to == DiscardDraft(at.cls, called.value))
    && (at.FailForGood? && called.None? ==> to == Settle(RaisedError(at.cls)))
    && (at.DiscardDraft? ==>
          && called == Some(at.discarded) && to == Settle(RaisedError(at.cls))
          && (a.Done? ==> at.discarded !in c.drafts))
  }

  lemma StatementTidies(c: Cell, at: Point, a: Answer, now: nat, attempts: nat, maxAttempts: nat, called: Option<nat>)
    requires Remembers(at, called) && (at.FailForGood? || at.DiscardDraft?)
    ensures Tidies(Effect(c, at, a, now), at, Following(c, at, a, attempts, maxAttempts), a, called)
  {
  }

  /** A handler that fails for good after a call from a draft asks for that draft to be
      discarded before it ends, and if it is answered the draft is gone; one that ends
      without asking had made no call from a draft. */
  lemma GoodFailureTidies(steps: seq<Step>, e: ExecId, at: Point, x: nat)
    requires JustRan(steps, e, at, x) && (at.FailForGood? || at.DiscardDraft?)
    ensures e in After(steps).value.execs && x < |After(steps).value.cells|
    ensures Tidies(After(steps).value.cells[x], at, After(steps).value.execs[e].at, steps[|steps| - 1].answer, CalledWith(steps, e))
  {
    var (init, last) := (steps[..|steps| - 1], steps[|steps| - 1]);
    LastStep(steps);
    ReachableInv(init);
    var s := After(init).value;
    ActorIsSend(s, e, last.answer);
    AllRemember(init, e);
    ActApplied(s, e, last.answer);
    NoCall(steps, e, at, x);
    StatementTidies(s.cells[x], at, last.answer, s.now, s.execs[e].attempts, s.execs[e].maxAttempts, CalledWith(init, e));
  }

  lemma NoCall(steps: seq<Step>, e: ExecId, at: Point, x: nat)
    requires JustRan(steps, e, at, x) && !at.Call?
    ensures CalledWith(steps, e) == CalledWith(steps[..|steps| - 1], e)
  {
  }
}
