/** The columns of a send's row, read off the history of the run: which statements wrote
    them, when, and what for (`packages/core/send/handler.py`,
    `packages/core/send/service.py`). */
module SendHistory {
  import opened Basics
  import opened SendRows
  import opened SendHandler
  import opened SendInvariant
  import opened SendSystem
  import opened SystemInvariant
  import opened SendSafety
  import opened SendContents
  import opened RowShape

  // ------------------------------------------------------------------
  // What a step does to a send, by its place in the code
  // ------------------------------------------------------------------

  /** The row of the send at a moment of the run. */
  ghost predicate RowIs(steps: seq<Step>, x: nat, row: Row) {
    After(steps).Some? && x < |After(steps).value.cells| && After(steps).value.cells[x].row == row
  }

  /** Step `k` is a statement that finds the send in flight. */
  ghost predicate OnInFlight(steps: seq<Step>, k: nat, x: nat) {
    Runs(steps, k, x) && CellAt(steps, k, x).row.state == InFlight
  }

  /** The instant of step `k`. */
  ghost function NowAt(steps: seq<Step>, k: nat): nat
    requires k < |steps| && After(steps[..k]).Some?
  {
    After(steps[..k]).value.now
  }

  /** Step `k` commits a dispatch. */
  ghost predicate Dispatches(steps: seq<Step>, k: nat, x: nat) {
    OnInFlight(steps, k, x) && PointAt(steps, k, x).Commit?
  }

  ghost predicate OnRow(steps: seq<Step>, k: nat, x: nat) {
    k < |steps| && After(steps[..k]).Some? && x < |After(steps[..k]).value.cells|
  }

  ghost function RowAt(steps: seq<Step>, k: nat, x: nat): Row
    requires OnRow(steps, k, x)
  {
    After(steps[..k]).value.cells[x].row
  }

  /** Step `k` is a forced resend that takes effect. */
  ghost predicate Resends(steps: seq<Step>, k: nat, x: nat) {
    OnRow(steps, k, x) && steps[k] == OperatorResends(x) && RowAt(steps, k, x).state == Uncertain
  }

  /** Step `k` is an operator's retry that takes effect. */
  ghost predicate Retries(steps: seq<Step>, k: nat, x: nat) {
    OnRow(steps, k, x) && steps[k] == OperatorRetries(x) && Failed(RowAt(steps, k, x))
  }

  /** Step `k` counts a probe before it is made. */
  ghost predicate Bumps(steps: seq<Step>, k: nat, x: nat) {
    Runs(steps, k, x) && PointAt(steps, k, x).ReconcileBump? && !steps[k].answer.DraftGone?
  }

  // ------------------------------------------------------------------
  // Counters and instants
  // ------------------------------------------------------------------

  ghost function DispatchesOf(steps: seq<Step>, x: nat): nat {
    if steps == [] then 0
    else DispatchesOf(steps[..|steps| - 1], x) + if Dispatches(steps, |steps| - 1, x) then 1 else 0
  }

  /** Probes counted since the budget was last reset. */
  ghost function BumpsOf(steps: seq<Step>, x: nat): nat {
    if steps == [] then 0
    else if Resends(steps, |steps| - 1, x) || Retries(steps, |steps| - 1, x) then 0
    else BumpsOf(steps[..|steps| - 1], x) + if Bumps(steps, |steps| - 1, x) then 1 else 0
  }

  /** The first dispatch since the last forced resend. */
  ghost function FirstDispatch(steps: seq<Step>, x: nat): Option<nat> {
    if steps == [] then None
    else if Resends(steps, |steps| - 1, x) then None
    else
      var earlier := FirstDispatch(steps[..|steps| - 1], x);
      if earlier.None? && Dispatches(steps, |steps| - 1, x) then Some(NowAt(steps, |steps| - 1)) else earlier
  }

  /** The draft of the first dispatch that had one. */
  ghost function FirstDraft(steps: seq<Step>, x: nat): Option<nat> {
    if steps == [] then None
    else
      var earlier := FirstDraft(steps[..|steps| - 1], x);
      if earlier.None? && Dispatches(steps, |steps| - 1, x) then PointAt(steps, |steps| - 1, x).draft else earlier
  }

  /** What a statement notes as the last error of a send in flight, if it notes anything. */
  function Note(at: Point, dispatched: bool): Option<Option<ErrorClass>> {
    match at
    case ReconcileAbsent(_) => Some(Some(Transient))
    case ReconcileAgain(_) => Some(Some(Transient))
    case NoteTransient => Some(Some(Transient))
    case ReconcilePark(_) => if dispatched then Some(Some(Transient)) else None
    case GiveUpUnsure => if dispatched then Some(Some(Transient)) else None
    case GiveUpUnsent => Some(Some(Transient))
    case FailForGood(cls, _) => Some(Some(cls))
    case ReconcileAdopt(_, _, _) => Some(None)
    case Deliver(_, _) => Some(None)
    case _ => None
  }

  /** The last error anybody noted, which a delivery clears. */
  ghost function LastNote(steps: seq<Step>, x: nat): Option<ErrorClass> {
    if steps == [] then None
    else
      var k := |steps| - 1;
      var note := if OnInFlight(steps, k, x) then Note(PointAt(steps, k, x), CellAt(steps, k, x).row.dispatchedAt.Some?) else None;
      if note.Some? then note.value else LastNote(steps[..k], x)
  }

  // ------------------------------------------------------------------
  // The state and its evidence
  // ------------------------------------------------------------------

  /** The state in which a statement leaves a send that it finds in flight, if it ends it. */
  function Verdict(at: Point, dispatched: bool): Option<SendState> {
    match at
    case Deliver(_, _) => Some(Delivered)
    case ReconcileAdopt(_, _, _) => Some(Delivered)
    case ReconcilePark(_) => if dispatched then Some(Uncertain) else None
    case GiveUpUnsure => if dispatched then Some(Uncertain) else None
    case GiveUpUnsent => Some(FailedTransient)
    case FailForGood(_, _) => Some(FailedPermanent)
    case _ => None
  }

  /** Step `k` ends the send, in this state. */
  ghost predicate Closes(steps: seq<Step>, k: nat, x: nat, state: SendState) {
    OnInFlight(steps, k, x) && Verdict(PointAt(steps, k, x), CellAt(steps, k, x).row.dispatchedAt.Some?) == Some(state)
  }

  /** Step `k` is a person's word that an uncertain send was delivered. */
  ghost predicate Attests(steps: seq<Step>, k: nat, x: nat) {
    OnRow(steps, k, x) && steps[k] == OperatorAttests(x) && RowAt(steps, k, x).state == Uncertain
  }

  /** The message id that a delivering statement records. */
  ghost function IdAt(steps: seq<Step>, k: nat, x: nat): nat
    requires Closes(steps, k, x, Delivered)
  {
    PointAt(steps, k, x).id
  }

  /** What the last step that ended or reopened the send made of it. */
  ghost function LastState(steps: seq<Step>, x: nat): SendState {
    if steps == [] then InFlight
    else
      var k := |steps| - 1;
      if Resends(steps, k, x) || Retries(steps, k, x) then InFlight
      else if Attests(steps, k, x) then Delivered
      else if OnInFlight(steps, k, x) && Verdict(PointAt(steps, k, x), CellAt(steps, k, x).row.dispatchedAt.Some?).Some? then
        Verdict(PointAt(steps, k, x), CellAt(steps, k, x).row.dispatchedAt.Some?).value
      else LastState(steps[..k], x)
  }

  /** The evidence of the delivery, and its instant. */
  ghost function Delivery(steps: seq<Step>, x: nat): Option<(Evidence, nat)> {
    if steps == [] then None
    else
      var k := |steps| - 1;
      if Attests(steps, k, x) then Some((Attested, NowAt(steps, k)))
      else if Closes(steps, k, x, Delivered) then Some((Issued(IdAt(steps, k, x)), NowAt(steps, k)))
      else Delivery(steps[..k], x)
  }

  // ------------------------------------------------------------------
  // The row is its history
  // ------------------------------------------------------------------

  ghost predicate CountersTell(steps: seq<Step>, x: nat, row: Row) {
    && row.attempts == DispatchesOf(steps, x)
    && row.reconcileAttempts == BumpsOf(steps, x)
    && row.dispatchedAt == FirstDispatch(steps, x)
    && row.draftId == FirstDraft(steps, x)
    && row.lastError == LastNote(steps, x)
  }

  ghost predicate StateTells(steps: seq<Step>, x: nat, row: Row) {
    && row.state == LastState(steps, x)
    && var delivery := Delivery(steps, x);
       if delivery.None? then row.messageId.None? && row.deliveredAt.None?
       else row.messageId == Some(delivery.value.0) && row.deliveredAt == Some(delivery.value.1)
  }

  lemma FreshTells(steps: seq<Step>, x: nat)
    requires After(steps).Some? && x >= |After(steps).value.cells|
    ensures CountersTell(steps, x, FRESH) && StateTells(steps, x, FRESH)
  {
    if steps != [] {
      LastStep(steps);
      FreshTells(steps[..|steps| - 1], x);
    }
  }

  // ------------------------------------------------------------------
  // One step
  // ------------------------------------------------------------------

  /** What a statement does to the counters and notes of a row. */
  predicate ActCountsRow(r: Row, t: Row, at: Point, a: Answer, now: nat) {
    var live := r.state == InFlight;
    && t.attempts == r.attempts + (if live && at.Commit? then 1 else 0)
    && t.reconcileAttempts == r.reconcileAttempts + (if at.ReconcileBump? && !a.DraftGone? then 1 else 0)
    && t.dispatchedAt == (if live && at.Commit? && r.dispatchedAt.None? then Some(now) else r.dispatchedAt)
    && t.draftId == (if live && at.Commit? && r.draftId.None? then at.draft else r.draftId)
    && t.lastError == (if live && Note(at, r.dispatchedAt.Some?).Some? then Note(at, r.dispatchedAt.Some?).value else r.lastError)
  }

  /** And to its state. */
  predicate ActEndsRow(r: Row, t: Row, at: Point, now: nat) {
    var verdict := if r.state == InFlight then Verdict(at, r.dispatchedAt.Some?) else None;
    && t.state == (if verdict.Some? then verdict.value else r.state)
    && (if verdict == Some(Delivered) then t.messageId == Some(Issued(at.id)) && t.deliveredAt == Some(now)
        else t.messageId == r.messageId && t.deliveredAt == r.deliveredAt)
  }

  /** A delivery names the draft the row names already. */
  predicate SameDraft(c: Cell, at: Point) {
    at.Deliver? || at.ReconcileAdopt? ==> Coalesce(at.draft, c.row.draftId) == c.row.draftId
  }

  lemma DraftIsSame(c: Cell, at: Point, now: nat)
    requires WorkerInv(c, at, now) || SweeperInv(c, at)
    ensures SameDraft(c, at)
  {
  }

  lemma EffectCounts(c: Cell, at: Point, a: Answer, now: nat)
    requires SameDraft(c, at)
    ensures ActCountsRow(c.row, Effect(c, at, a, now).row, at, a, now)
  {
  }

  lemma EffectEnds(c: Cell, at: Point, a: Answer, now: nat)
    ensures ActEndsRow(c.row, Effect(c, at, a, now).row, at, now)
  {
  }

  lemma NoOperator(steps: seq<Step>, x: nat, e: ExecId, a: Answer)
    ensures var (more, n) := (steps + [Act(e, a)], |steps|);
            !Resends(more, n, x) && !Retries(more, n, x) && !Attests(more, n, x)
  {
  }

  lemma ActCounts(steps: seq<Step>, s: State, e: ExecId, a: Answer, x: nat, r: Row, t: Row)
    requires After(steps) == Some(s) && Enabled(s, Act(e, a)) && s.execs[e].ref == x && s.cells[x].row == r
    requires CountersTell(steps, x, r) && ActCountsRow(r, t, s.execs[e].at, a, s.now)
    ensures CountersTell(steps + [Act(e, a)], x, t)
  {
    var more := steps + [Act(e, a)];
    assert more[..|more| - 1] == steps;
    RunsNow(steps, s, e, a);
    NoOperator(steps, x, e, a);
  }

  lemma ActStates(steps: seq<Step>, s: State, e: ExecId, a: Answer, x: nat, r: Row, t: Row)
    requires After(steps) == Some(s) && Enabled(s, Act(e, a)) && s.execs[e].ref == x && s.cells[x].row == r
    requires StateTells(steps, x, r) && ActEndsRow(r, t, s.execs[e].at, s.now)
    ensures StateTells(steps + [Act(e, a)], x, t)
  {
    var more := steps + [Act(e, a)];
    assert more[..|more| - 1] == steps;
    RunsNow(steps, s, e, a);
    NoOperator(steps, x, e, a);
  }

  lemma ActTells(steps: seq<Step>, s: State, e: ExecId, a: Answer, x: nat)
    requires After(steps) == Some(s) && Inv(s) && Enabled(s, Act(e, a)) && s.execs[e].ref == x
    requires CountersTell(steps, x, s.cells[x].row) && StateTells(steps, x, s.cells[x].row)
    ensures CountersTell(steps + [Act(e, a)], x, Apply(s, Act(e, a)).cells[x].row)
    ensures StateTells(steps + [Act(e, a)], x, Apply(s, Act(e, a)).cells[x].row)
  {
    var (at, c) := (s.execs[e].at, s.cells[x]);
    assert ExecInv(s, e, s.execs[e]);
    DraftIsSame(c, at, s.now);
    EffectCounts(c, at, a, s.now);
    EffectEnds(c, at, a, s.now);
    ActApplied(s, e, a);
    ActCounts(steps, s, e, a, x, c.row, Effect(c, at, a, s.now).row);
    ActStates(steps, s, e, a, x, c.row, Effect(c, at, a, s.now).row);
  }

  /** A step that is no statement on this send. */
  predicate Elsewhere(s: State, step: Step, x: nat) {
    !(step.Act? && step.exec in s.execs && s.execs[step.exec].ref == x)
  }

  /** What such a step does to the row of the send. */
  predicate OthersMoveRow(r: Row, t: Row, step: Step, x: nat, now: nat) {
    if step == OperatorRetries(x) && Failed(r) then t == r.(state := InFlight, reconcileAttempts := 0)
    else if step == OperatorResends(x) && r.state == Uncertain then
      t == r.(state := InFlight, reconcileAttempts := 0, dispatchedAt := None)
    else if step == OperatorAttests(x) && r.state == Uncertain then
      t == r.(state := Delivered, messageId := Some(Attested), deliveredAt := Some(now))
    else t == r
  }

  lemma OthersOnRow(s: State, step: Step, x: nat)
    requires Enabled(s, step) && x < |s.cells| && Elsewhere(s, step, x) && CellInv(s.cells[x], s.now) && Shape(s.cells[x])
    ensures x < |Apply(s, step).cells| && OthersMoveRow(s.cells[x].row, Apply(s, step).cells[x].row, step, x, s.now)
  {
  }

  lemma OthersCount(steps: seq<Step>, s: State, step: Step, x: nat, t: Row)
    requires After(steps) == Some(s) && x < |s.cells| && Elsewhere(s, step, x)
    requires CountersTell(steps, x, s.cells[x].row) && OthersMoveRow(s.cells[x].row, t, step, x, s.now)
    ensures CountersTell(steps + [step], x, t)
  {
    var more := steps + [step];
    assert more[..|more| - 1] == steps;
  }

  lemma OthersState(steps: seq<Step>, s: State, step: Step, x: nat, t: Row)
    requires After(steps) == Some(s) && x < |s.cells| && Elsewhere(s, step, x)
    requires StateTells(steps, x, s.cells[x].row) && OthersMoveRow(s.cells[x].row, t, step, x, s.now)
    ensures StateTells(steps + [step], x, t)
  {
    var more := steps + [step];
    assert more[..|more| - 1] == steps;
  }

  lemma NextTells(steps: seq<Step>, s: State, step: Step, x: nat)
    requires After(steps) == Some(s) && Inv(s) && Enabled(s, step) && x < |s.cells| && Shape(s.cells[x])
    requires CountersTell(steps, x, s.cells[x].row) && StateTells(steps, x, s.cells[x].row)
    ensures x < |Apply(s, step).cells|
    ensures CountersTell(steps + [step], x, Apply(s, step).cells[x].row) && StateTells(steps + [step], x, Apply(s, step).cells[x].row)
  {
    if Elsewhere(s, step, x) {
      OthersOnRow(s, step, x);
      OthersCount(steps, s, step, x, Apply(s, step).cells[x].row);
      OthersState(steps, s, step, x, Apply(s, step).cells[x].row);
    } else {
      ActTells(steps, s, step.exec, step.answer, x);
    }
  }

  /** A send that a step has just created. */
  lemma CreatedTells(steps: seq<Step>, s: State, step: Step, x: nat)
    requires After(steps) == Some(s) && Enabled(s, step) && |s.cells| <= x < |Apply(s, step).cells|
    ensures CountersTell(steps + [step], x, Apply(s, step).cells[x].row)
    ensures StateTells(steps + [step], x, Apply(s, step).cells[x].row)
  {
    assert (steps + [step])[..|steps|] == steps;
    FreshTells(steps, x);
  }

  /** Every column of a send's row says what the run says: how often it was dispatched, how
      often probed since the budget was reset, when first dispatched since the last
      forced resend and from which draft, which error was noted last, which step ended
      or reopened it last, and what the delivery was recorded by and when. */
  lemma {:induction false} RowIsItsHistory(steps: seq<Step>, x: nat)
    requires After(steps).Some? && x < |After(steps).value.cells|
    ensures CountersTell(steps, x, After(steps).value.cells[x].row)
    ensures StateTells(steps, x, After(steps).value.cells[x].row)
  {
    var n := |steps| - 1;
    LastStep(steps);
    var s := After(steps[..n]).value;
    assert steps == steps[..n] + [steps[n]];
    if x < |s.cells| {
      RowIsItsHistory(steps[..n], x);
      ReachableInv(steps[..n]);
      AllShapely(steps[..n]);
      NextTells(steps[..n], s, steps[n], x);
    } else {
      CreatedTells(steps[..n], s, steps[n], x);
    }
  }
}
