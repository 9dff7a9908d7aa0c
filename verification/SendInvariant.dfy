/** What every step keeps, one send at a time. `CellInv` speaks of the send,
    `WorkerInv` of the one live worker that may dispatch it, and `SweeperInv` of
    any reconciler, including one that has outlived its sweep. */
module SendInvariant {
  import opened Basics
  import opened SendRows
  import opened Probes
  import JobRows
  import opened SendHandler

  /** No message of the era `era` or a later one. */
  predicate NoneSince(sent: seq<Message>, era: nat) {
    forall i :: 0 <= i < |sent| ==> sent[i].era < era
  }

  predicate Holds(sent: seq<Message>, id: nat) {
    exists i :: 0 <= i < |sent| && sent[i].id == id
  }

  /** Every message of the present era was accepted at or after `instant`. */
  predicate SinceInstant(c: Cell, instant: nat) {
    forall i :: 0 <= i < |c.sent| && c.sent[i].era == c.tally.forced ==> c.sent[i].at >= instant
  }

  /** The dispatch evidence is gone and the send may still move. */
  predicate Undispatched(c: Cell) {
    c.row.dispatchedAt.None? && c.row.state != Delivered
  }

  /** A dispatch was committed at some time: `dispatched_at` says so, or a forced
      resend has cleared it since. */
  predicate EverDispatched(c: Cell) {
    c.row.dispatchedAt.Some? || c.tally.forced > 0
  }

  // Provider calls allowed before the first redispatch of the present budget.
  function Allowance(t: Tally): nat {
    3 + 3 * t.retries + 4 * t.forced
  }

  function Budget(c: Cell): nat {
    Allowance(c.tally) + if Undispatched(c) then 0 else 1
  }

  predicate Ledger(c: Cell) {
    && (forall i, k :: 0 <= i < k < |c.sent| ==> c.sent[i].era < c.sent[k].era)
    && (forall i :: 0 <= i < |c.sent| ==> c.sent[i].era <= c.tally.forced)
    && (forall i :: 0 <= i < |c.sent| ==> c.sent[i].ts > c.sent[i].at - PROBE_WINDOW)
    && (Undispatched(c) ==> NoneSince(c.sent, c.tally.forced))
    && (c.row.state == FailedTransient ==> NoneSince(c.sent, c.tally.forced))
    && (c.row.dispatchedAt.Some? ==> SinceInstant(c, c.row.dispatchedAt.value))
    && (c.row.state == Delivered || c.row.state == Uncertain ==> EverDispatched(c))
    && (c.row.messageId.Some? ==> c.row.state == Delivered)
    && (c.row.messageId.Some? && c.row.messageId.value.Issued? ==> Holds(c.sent, c.row.messageId.value.id))
  }

  predicate Counts(c: Cell) {
    && c.tally.bumps <= c.row.reconcileAttempts
    && c.tally.bumps <= 3
    && c.tally.calls + 3 - c.tally.bumps <= Budget(c)
  }

  /** Gmail's stable draft id: written once, and spent by the one message. */
  predicate DraftToken(c: Cell) {
    if c.channel != Gmail then c.row.draftId.None?
    else
      && |c.sent| <= 1
      && (c.sent != [] ==> c.row.draftId.Some? && c.sent[0].draft == c.row.draftId && c.row.draftId.value !in c.drafts)
      && (c.row.dispatchedAt.Some? || c.row.state == Uncertain || c.row.state == Delivered || c.tally.forced > 0
          ==> c.row.draftId.Some?)
  }

  /** While nobody edits the draft, what goes out is what was confirmed. */
  predicate Unedited(c: Cell) {
    c.tally.edits == 0 ==>
      && c.content == c.confirmed
      && (forall i :: 0 <= i < |c.sent| ==> c.sent[i].content == c.confirmed)
      && (forall d :: d in c.drafts ==> c.drafts[d] == c.confirmed)
  }

  predicate CellInv(c: Cell, now: nat) {
    && Valid(c.row)
    && Unedited(c)
    && Ledger(c)
    && Counts(c)
    && DraftToken(c)
    && (c.row.dispatchedAt.Some? ==> c.row.dispatchedAt.value <= now)
  }

  /** A reconcile the caller has paid for, and may follow with a call. */
  predicate Paid(c: Cell) {
    c.tally.calls + 4 - c.tally.bumps <= Budget(c)
  }

  predicate CallerInv(c: Cell, caller: Caller) {
    caller.Dispatching? ==> !Failed(c.row) && caller.draft == c.row.draftId
  }

  /** What a live worker at `at` knows. */
  predicate WorkerInv(c: Cell, at: Point, now: nat) {
    match at
    case ReconcileLoad(caller) => !caller.Sweeping? && CallerInv(c, caller)
    case ReconcileBump(caller, draft, dispatchedAt) =>
      !caller.Sweeping? && CallerInv(c, caller) && draft == c.row.draftId &&
      c.tally.bumps <= 2 && dispatchedAt <= now && SinceInstant(c, dispatchedAt) && EverDispatched(c)
    case ReconcileProbe(caller, _, draft, dispatchedAt) =>
      !caller.Sweeping? && CallerInv(c, caller) && draft == c.row.draftId &&
      Paid(c) && dispatchedAt <= now && SinceInstant(c, dispatchedAt) && EverDispatched(c)
    case ReconcileAdopt(caller, id, draft) =>
      !caller.Sweeping? && c.channel != Gmail && draft.None? && Holds(c.sent, id) && EverDispatched(c)
    case ReconcileAbsent(caller) =>
      !caller.Sweeping? && CallerInv(c, caller) && Paid(c) && NoneSince(c.sent, c.tally.forced)
    case ReconcileAgain(caller) => !caller.Sweeping?
    case ReconcilePark(caller) => !caller.Sweeping?
    case Prepare(draft, unprobed, era) =>
      draft == c.row.draftId && Cleared(c, unprobed, era)
    case Commit(draft, unprobed, era, content) =>
      Cleared(c, unprobed, era) && (c.tally.edits == 0 ==> content == c.confirmed) &&
      (if c.channel == Gmail then draft.Some? && (c.row.draftId.None? || c.row.draftId == draft) else draft.None?)
    case Call(draft, era, content) =>
      && (c.tally.edits == 0 ==> content == c.confirmed)
      && !Failed(c.row) && era <= c.tally.forced && NoneSince(c.sent, era)
      && (Undispatched(c) ==> era < c.tally.forced)
      && Paid(c) && EverDispatched(c)
      && (c.channel == Gmail ==> draft.Some?) && draft == c.row.draftId
    case Deliver(id, draft) => draft == c.row.draftId && Holds(c.sent, id) && EverDispatched(c)
    case GiveUpUnsent => NoneSince(c.sent, c.tally.forced)
    case SweepEnd(_) => false
    case _ => true
  }

  /** The dispatch is cleared: nothing went out in this era, and one more call
      is within the budget. */
  predicate Cleared(c: Cell, unprobed: bool, era: nat) {
    && !Failed(c.row)
    && era <= c.tally.forced && NoneSince(c.sent, era)
    && (if unprobed
        then c.row.dispatchedAt.None? && c.tally.calls + 3 - c.tally.bumps <= Allowance(c.tally)
        else Paid(c))
  }

  predicate SweeperInv(c: Cell, at: Point) {
    match at
    case ReconcileLoad(caller) => caller.Sweeping?
    case ReconcileBump(caller, draft, _) =>
      caller.Sweeping? && (c.channel != Gmail ==> draft.None?) && EverDispatched(c)
    case ReconcileProbe(caller, _, draft, _) =>
      caller.Sweeping? && (c.channel != Gmail ==> draft.None?) && EverDispatched(c)
    case ReconcileAdopt(caller, id, draft) =>
      caller.Sweeping? && c.channel != Gmail && draft.None? && Holds(c.sent, id) && EverDispatched(c)
    case ReconcileAbsent(caller) => caller.Sweeping?
    case ReconcileAgain(caller) => caller.Sweeping?
    case ReconcilePark(caller) => caller.Sweeping? && EverDispatched(c)
    case SweepEnd(v) => v != JobRows.Unclear
    case _ => false
  }


  predicate Ending(at: Point) {
    at.Deliver? || at.NoteTransient? || at.GiveUpUnsent? || at.GiveUpUnsure? || at.FailForGood? || at.DiscardDraft?
  }

  predicate Deciding(at: Point) {
    at.ReconcileAdopt? || at.ReconcileAbsent? || at.ReconcileAgain? || at.ReconcilePark?
  }

  predicate Asking(at: Point) {
    at.Load? || at.ReconcileLoad? || at.ReconcileBump? || at.ReconcileProbe?
  }

  // ------------------------------------------------------------------
  // The statements on the row
  // ------------------------------------------------------------------

  lemma ErrorKeeps(c: Cell, cls: ErrorClass, now: nat)
    requires CellInv(c, now)
    ensures CellInv(c.(row := RecordError(c.row, cls)), now)
  {
  }

  lemma UncertainKeeps(c: Cell, now: nat)
    requires CellInv(c, now)
    ensures CellInv(c.(row := MarkUncertain(c.row)), now)
  {
  }

  lemma DeliveredKeeps(c: Cell, id: nat, draft: Option<nat>, now: nat)
    requires CellInv(c, now) && Holds(c.sent, id) && EverDispatched(c) && (draft.Some? ==> draft == c.row.draftId)
    ensures CellInv(c.(row := MarkDelivered(c.row, id, draft, now)), now)
  {
  }

  /** Only a send that went nowhere in this era may be called `failed_transient`. */
  lemma TerminalKeeps(c: Cell, state: SendState, cls: ErrorClass, now: nat)
    requires CellInv(c, now) && state in {FailedPermanent, FailedTransient}
    requires state == FailedTransient ==> NoneSince(c.sent, c.tally.forced)
    ensures CellInv(c.(row := SetTerminal(c.row, state, cls)), now)
  {
  }

  // ------------------------------------------------------------------
  // A worker's own steps
  // ------------------------------------------------------------------

  lemma AskingKeepsCell(c: Cell, at: Point, a: Answer, now: nat)
    requires Asking(at) && CellInv(c, now) && WorkerInv(c, at, now) && Possible(c, at, a, now)
    ensures CellInv(Effect(c, at, a, now), now)
  {
  }

  lemma AskingKeepsPoint(c: Cell, at: Point, a: Answer, now: nat, attempts: nat, maxAttempts: nat)
    requires Asking(at) && CellInv(c, now) && WorkerInv(c, at, now) && Possible(c, at, a, now)
    ensures WorkerInv(Effect(c, at, a, now), Following(c, at, a, attempts, maxAttempts), now)
  {
  }

  lemma VerdictKeepsCell(c: Cell, at: Point, a: Answer, now: nat)
    requires Deciding(at)
    requires CellInv(c, now) && (at.ReconcileAdopt? ==> Holds(c.sent, at.id) && at.draft.None? && EverDispatched(c))
    ensures CellInv(Effect(c, at, a, now), now)
  {
    match at {
      case ReconcileAdopt(_, id, draft) => DeliveredKeeps(c, id, draft, now);
      case ReconcilePark(_) => UncertainKeeps(c, now);
      case _ => ErrorKeeps(c, Transient, now);
    }
  }

  lemma VerdictKeepsPoint(c: Cell, at: Point, a: Answer, now: nat, attempts: nat, maxAttempts: nat)
    requires Deciding(at)
    requires CellInv(c, now) && WorkerInv(c, at, now)
    ensures WorkerInv(Effect(c, at, a, now), Following(c, at, a, attempts, maxAttempts), now)
  {
  }

  lemma PrepareKeeps(c: Cell, at: Point, a: Answer, now: nat, attempts: nat, maxAttempts: nat)
    requires at.Prepare?
    requires CellInv(c, now) && WorkerInv(c, at, now) && Possible(c, at, a, now)
    ensures CellInv(Effect(c, at, a, now), now)
    ensures WorkerInv(Effect(c, at, a, now), Following(c, at, a, attempts, maxAttempts), now)
  {
  }

  lemma CommitKeeps(c: Cell, at: Point, a: Answer, now: nat, attempts: nat, maxAttempts: nat)
    requires at.Commit?
    requires CellInv(c, now) && WorkerInv(c, at, now) && Possible(c, at, a, now)
    ensures CellInv(Effect(c, at, a, now), now)
    ensures WorkerInv(Effect(c, at, a, now), Following(c, at, a, attempts, maxAttempts), now)
  {
  }

  /** The accepted message on the ledger. */
  function Accepting(c: Cell, at: Point, a: Answer, now: nat): Cell
    requires at.Call? && a.Accepted?
  {
    Effect(c, at, a, now)
  }

  lemma AcceptKeepsLedger(c: Cell, at: Point, a: Answer, now: nat)
    requires at.Call? && a.Accepted?
    requires CellInv(c, now) && WorkerInv(c, at, now) && Possible(c, at, a, now)
    ensures Ledger(Accepting(c, at, a, now))
  {
    if c.row.messageId.Some? && c.row.messageId.value.Issued? {
      HoldsStill(c.sent, Accepting(c, at, a, now).sent, c.row.messageId.value.id);
    }
  }

  lemma AcceptKeepsDraft(c: Cell, at: Point, a: Answer, now: nat)
    requires at.Call? && a.Accepted?
    requires CellInv(c, now) && WorkerInv(c, at, now) && Possible(c, at, a, now)
    ensures DraftToken(Accepting(c, at, a, now))
  {
  }

  lemma AcceptKeepsRest(c: Cell, at: Point, a: Answer, now: nat)
    requires at.Call? && a.Accepted?
    requires CellInv(c, now) && WorkerInv(c, at, now) && Possible(c, at, a, now)
    ensures Counts(Accepting(c, at, a, now)) && Unedited(Accepting(c, at, a, now))
  {
  }

  lemma RejectKeeps(c: Cell, at: Point, a: Answer, now: nat)
    requires at.Call? && !a.Accepted?
    requires CellInv(c, now) && WorkerInv(c, at, now)
    ensures CellInv(Effect(c, at, a, now), now)
  {
  }

  lemma CallKeepsCell(c: Cell, at: Point, a: Answer, now: nat)
    requires at.Call?
    requires CellInv(c, now) && WorkerInv(c, at, now) && Possible(c, at, a, now)
    ensures CellInv(Effect(c, at, a, now), now)
  {
    if a.Accepted? {
      AcceptKeepsLedger(c, at, a, now);
      AcceptKeepsDraft(c, at, a, now);
      AcceptKeepsRest(c, at, a, now);
    } else {
      RejectKeeps(c, at, a, now);
    }
  }

  lemma CallKeepsPoint(c: Cell, at: Point, a: Answer, now: nat, attempts: nat, maxAttempts: nat)
    requires at.Call?
    requires CellInv(c, now) && WorkerInv(c, at, now) && Possible(c, at, a, now)
    ensures WorkerInv(Effect(c, at, a, now), Following(c, at, a, attempts, maxAttempts), now)
  {
    if a.Accepted? {
      assert Effect(c, at, a, now).sent[|c.sent|].id == a.id;
    }
  }

  lemma EndingKeepsCell(c: Cell, at: Point, a: Answer, now: nat)
    requires Ending(at) && CellInv(c, now) && WorkerInv(c, at, now)
    ensures CellInv(Effect(c, at, a, now), now)
  {
    match at {
      case Deliver(id, draft) => DeliveredKeeps(c, id, draft, now);
      case NoteTransient => ErrorKeeps(c, Transient, now);
      case GiveUpUnsent => TerminalKeeps(c, FailedTransient, Transient, now);
      case GiveUpUnsure => UncertainKeeps(c, now);
      case FailForGood(cls, _) => TerminalKeeps(c, FailedPermanent, cls, now);
      case _ => DiscardKeeps(c, at, a, now);
    }
  }

  lemma EndingKeepsPoint(c: Cell, at: Point, a: Answer, now: nat, attempts: nat, maxAttempts: nat)
    requires Ending(at)
    ensures WorkerInv(Effect(c, at, a, now), Following(c, at, a, attempts, maxAttempts), now)
  {
  }

  lemma DiscardKeeps(c: Cell, at: Point, a: Answer, now: nat)
    requires at.DiscardDraft? && CellInv(c, now)
    ensures CellInv(Effect(c, at, a, now), now)
  {
  }

  /** A message is never unsent. */
  lemma HoldsStill(before: seq<Message>, after: seq<Message>, id: nat)
    requires before <= after && Holds(before, id)
    ensures Holds(after, id)
  {
    var i :| 0 <= i < |before| && before[i].id == id;
    assert after[i].id == id;
  }

  /** A live worker's step keeps the send's invariant. */
  lemma WorkerStepKeepsCell(c: Cell, at: Point, a: Answer, now: nat)
    requires CellInv(c, now) && WorkerInv(c, at, now) && Possible(c, at, a, now)
    ensures CellInv(Effect(c, at, a, now), now)
  {
    if Asking(at) { AskingKeepsCell(c, at, a, now); }
    else if Deciding(at) { VerdictKeepsCell(c, at, a, now); }
    else if Ending(at) { EndingKeepsCell(c, at, a, now); }
    else if at.Prepare? { PrepareKeeps(c, at, a, now, 0, 0); }
    else if at.Commit? { CommitKeeps(c, at, a, now, 0, 0); }
    else if at.Call? { CallKeepsCell(c, at, a, now); }
  }

  /** A live worker's step leaves it knowing what its next statement needs. */
  lemma WorkerStepKeepsPoint(c: Cell, at: Point, a: Answer, now: nat, attempts: nat, maxAttempts: nat)
    requires CellInv(c, now) && WorkerInv(c, at, now) && Possible(c, at, a, now)
    ensures WorkerInv(Effect(c, at, a, now), Following(c, at, a, attempts, maxAttempts), now)
  {
    if Asking(at) { AskingKeepsPoint(c, at, a, now, attempts, maxAttempts); }
    else if Deciding(at) { VerdictKeepsPoint(c, at, a, now, attempts, maxAttempts); }
    else if Ending(at) { EndingKeepsPoint(c, at, a, now, attempts, maxAttempts); }
    else if at.Prepare? { PrepareKeeps(c, at, a, now, attempts, maxAttempts); }
    else if at.Commit? { CommitKeeps(c, at, a, now, attempts, maxAttempts); }
    else if at.Call? { CallKeepsPoint(c, at, a, now, attempts, maxAttempts); }
  }

  lemma SweeperUnmovedByWorker(c: Cell, at: Point, a: Answer, now: nat)
    requires CellInv(c, now)
    ensures forall other :: SweeperInv(c, other) ==> SweeperInv(Effect(c, at, a, now), other)
  {
    forall other | SweeperInv(c, other) ensures SweeperInv(Effect(c, at, a, now), other) {
      if other.ReconcileAdopt? {
        HoldsStill(c.sent, Effect(c, at, a, now).sent, other.id);
      }
    }
  }

  // ------------------------------------------------------------------
  // A reconciler's steps, and the operator's
  // ------------------------------------------------------------------

  lemma ReconcilerMoves(c: Cell, at: Point, a: Answer, now: nat)
    requires CellInv(c, now) && SweeperInv(c, at) && !at.SweepEnd? && Possible(c, at, a, now)
    ensures CellInv(Effect(c, at, a, now), now)
  {
    if Deciding(at) {
      VerdictKeepsCell(c, at, a, now);
    }
  }

  lemma ReconcilerArrives(c: Cell, at: Point, a: Answer, now: nat)
    requires CellInv(c, now) && SweeperInv(c, at) && !at.SweepEnd? && Possible(c, at, a, now)
    ensures SweeperInv(Effect(c, at, a, now), Following(c, at, a, 0, 0))
    ensures Effect(c, at, a, now).sent == c.sent && Effect(c, at, a, now).channel == c.channel
  {
  }

  lemma UnmovedByBump(c: Cell, now: nat, w: Point)
    requires CellInv(c, now) && WorkerInv(c, w, now)
    ensures WorkerInv(c.(row := BumpReconcileAttempts(c.row)), w, now)
  {
  }

  lemma UnmovedByError(c: Cell, now: nat, w: Point)
    requires CellInv(c, now) && WorkerInv(c, w, now)
    ensures WorkerInv(c.(row := RecordError(c.row, Transient)), w, now)
  {
  }

  lemma UnmovedByParking(c: Cell, now: nat, w: Point)
    requires CellInv(c, now) && WorkerInv(c, w, now)
    ensures WorkerInv(c.(row := MarkUncertain(c.row)), w, now)
  {
  }

  lemma UnmovedByAdoption(c: Cell, id: nat, draft: Option<nat>, now: nat, w: Point)
    requires CellInv(c, now) && WorkerInv(c, w, now) && c.channel != Gmail && draft.None? && EverDispatched(c)
    ensures WorkerInv(c.(row := MarkDelivered(c.row, id, draft, now)), w, now)
  {
  }

  lemma WorkerUnmovedByReconciler(c: Cell, at: Point, a: Answer, now: nat, w: Point)
    requires CellInv(c, now) && SweeperInv(c, at) && !at.SweepEnd? && WorkerInv(c, w, now)
    ensures WorkerInv(Effect(c, at, a, now), w, now)
  {
    match at {
      case ReconcileBump(_, _, _) => UnmovedByBump(c, now, w);
      case ReconcileAdopt(_, id, draft) => UnmovedByAdoption(c, id, draft, now, w);
      case ReconcilePark(_) => UnmovedByParking(c, now, w);
      case ReconcileAbsent(_) => UnmovedByError(c, now, w);
      case ReconcileAgain(_) => UnmovedByError(c, now, w);
      case _ =>
    }
  }

  /** A reconciler's step keeps the send's invariant and what everybody knows,
      whether or not its sweep still holds the job. */
  lemma SweeperStepKeeps(c: Cell, at: Point, a: Answer, now: nat)
    requires CellInv(c, now) && SweeperInv(c, at) && !at.SweepEnd? && Possible(c, at, a, now)
    ensures CellInv(Effect(c, at, a, now), now)
    ensures SweeperInv(Effect(c, at, a, now), Following(c, at, a, 0, 0))
    ensures forall w :: WorkerInv(c, w, now) ==> WorkerInv(Effect(c, at, a, now), w, now)
    ensures forall other :: SweeperInv(c, other) ==> SweeperInv(Effect(c, at, a, now), other)
  {
    ReconcilerMoves(c, at, a, now);
    ReconcilerArrives(c, at, a, now);
    forall w | WorkerInv(c, w, now) ensures WorkerInv(Effect(c, at, a, now), w, now) {
      WorkerUnmovedByReconciler(c, at, a, now, w);
    }
  }

  datatype OperatorAction = RetryFailed | AttestDelivered | Resend | Edit(content: nat)

  /** What people may do to a send: the operator's two endpoints, and editing the
      draft it was built from, which no code forbids. A reset of the reconcile
      budget and a forced resend are counted when they take effect. */
  function Operate(c: Cell, action: OperatorAction, now: nat): Cell {
    match action
    case RetryFailed =>
      if !Failed(c.row) then c
      else c.(row := OperatorRetry(c.row), tally := c.tally.(retries := c.tally.retries + 1, bumps := 0))
    case AttestDelivered => c.(row := MarkAttested(c.row, now))
    case Resend =>
      if c.row.state != Uncertain then c
      else c.(row := ForceResend(c.row), tally := c.tally.(forced := c.tally.forced + 1, bumps := 0))
    case Edit(content) => c.(content := content, tally := c.tally.(edits := c.tally.edits + 1))
  }

  lemma OperatorKeepsCell(c: Cell, action: OperatorAction, now: nat)
    requires CellInv(c, now)
    ensures CellInv(Operate(c, action, now), now)
  {
  }

  lemma RetryKeepsWorker(c: Cell, now: nat, w: Point)
    requires CellInv(c, now) && WorkerInv(c, w, now)
    ensures WorkerInv(Operate(c, RetryFailed, now), w, now)
  {
  }

  lemma AttestKeepsWorker(c: Cell, now: nat, w: Point)
    requires CellInv(c, now) && WorkerInv(c, w, now)
    ensures WorkerInv(Operate(c, AttestDelivered, now), w, now)
  {
  }

  lemma ResendKeepsWorker(c: Cell, now: nat, w: Point)
    requires CellInv(c, now) && WorkerInv(c, w, now)
    ensures WorkerInv(Operate(c, Resend, now), w, now)
  {
  }

  lemma EditKeepsWorker(c: Cell, content: nat, now: nat, w: Point)
    requires CellInv(c, now) && WorkerInv(c, w, now)
    ensures WorkerInv(Operate(c, Edit(content), now), w, now)
  {
  }

  lemma OperatorKeepsWorker(c: Cell, action: OperatorAction, now: nat, w: Point)
    requires CellInv(c, now) && WorkerInv(c, w, now)
    ensures WorkerInv(Operate(c, action, now), w, now)
  {
    match action {
      case RetryFailed => RetryKeepsWorker(c, now, w);
      case AttestDelivered => AttestKeepsWorker(c, now, w);
      case Resend => ResendKeepsWorker(c, now, w);
      case Edit(content) => EditKeepsWorker(c, content, now, w);
    }
  }

  /** An operator may act at any moment, even while a worker is between two
      statements. */
  lemma OperatorKeeps(c: Cell, action: OperatorAction, now: nat)
    requires CellInv(c, now)
    ensures CellInv(Operate(c, action, now), now)
    ensures forall w :: WorkerInv(c, w, now) ==> WorkerInv(Operate(c, action, now), w, now)
    ensures forall other :: SweeperInv(c, other) ==> SweeperInv(Operate(c, action, now), other)
  {
    OperatorKeepsCell(c, action, now);
    forall w | WorkerInv(c, w, now) ensures WorkerInv(Operate(c, action, now), w, now) {
      OperatorKeepsWorker(c, action, now, w);
    }
  }

  lemma TimeKeeps(c: Cell, now: nat, later: nat, w: Point)
    requires now <= later
    ensures CellInv(c, now) ==> CellInv(c, later)
    ensures WorkerInv(c, w, now) ==> WorkerInv(c, w, later)
  {
  }

  // ------------------------------------------------------------------
  // What the invariant says of a send
  // ------------------------------------------------------------------

  lemma {:induction false} ErasSpread(sent: seq<Message>, i: nat)
    requires forall k, m :: 0 <= k < m < |sent| ==> sent[k].era < sent[m].era
    requires i < |sent|
    ensures sent[i].era >= i
  {
    if i > 0 {
      ErasSpread(sent, i - 1);
    }
  }

  /** One message for each era: the claim, plus one for each forced resend. */
  lemma MessagesBounded(c: Cell, now: nat)
    requires CellInv(c, now)
    ensures |c.sent| <= 1 + c.tally.forced
    ensures c.channel == Gmail ==> |c.sent| <= 1
  {
    if c.sent != [] {
      ErasSpread(c.sent, |c.sent| - 1);
    }
  }

  /** The states a row shows are true of the provider's ledger. */
  lemma RowTruthful(c: Cell, now: nat)
    requires CellInv(c, now)
    ensures c.row.state == Delivered && c.row.messageId != Some(Attested) ==>
              c.row.messageId.Some? && Holds(c.sent, c.row.messageId.value.id)
    ensures c.tally.forced == 0 && c.row.state == Delivered && c.row.messageId != Some(Attested) ==>
              |c.sent| == 1 && c.row.messageId == Some(Issued(c.sent[0].id))
    ensures c.tally.forced == 0 && (c.row.state == FailedTransient || c.row.dispatchedAt.None?) ==> c.sent == []
  {
    MessagesBounded(c, now);
    if c.row.messageId.Some? && c.row.messageId.value.Issued? {
      var i :| 0 <= i < |c.sent| && c.sent[i].id == c.row.messageId.value.id;
      assert c.tally.forced == 0 ==> i == 0;
    }
    if c.tally.forced == 0 && c.sent != [] {
      assert c.sent[0].era >= 0;
    }
  }
}
