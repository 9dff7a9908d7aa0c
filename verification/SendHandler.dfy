/** The send job as a state machine: `run_send`, `reconcile_send` and
    `_finalize_failure` (`packages/core/send/handler.py`), one step per commit or
    provider call. A program point names the statement about to run. */
module SendHandler {
  import opened Basics
  import opened SendRows
  import opened Probes
  import opened JobRows

  /** Bookkeeping no column holds. `calls` counts provider `send` calls and
      `bumps` the reconcile bumps a dispatching worker made since the last reset. */
  datatype Tally = Tally(retries: nat, forced: nat, bumps: nat, calls: nat, edits: nat)

  /** A send with its draft (`content` now, and as it was `confirmed`), and the
      part of the provider that carries its fingerprint: the messages accepted so
      far and the Gmail drafts that still exist, each with what was put in it. */
  datatype Cell = Cell(
    key: nat,
    channel: Channel,
    connection: nat,
    row: Row,
    tally: Tally,
    content: nat,
    confirmed: nat,
    sent: seq<Message>,
    drafts: map<nat, nat>)

  /** Who called `reconcile_send`. A dispatching worker keeps the draft id it
      read before, which its request will use. */
  datatype Caller = Dispatching(draft: Option<nat>) | AtCeiling | Sweeping

  datatype Verdict = NotSent | Adopted | ParkedUncertain | RetryLater | AlreadyTerminal

  /** How a handler ends: it returns, or raises an error of some class. */
  datatype Outcome = Returned | RaisedError(cls: ErrorClass)

  datatype Point =
    | Leased                                                           // leased, not yet started
    | AdapterBody                                                      // the other job kind
    | Load
    | ReconcileLoad(caller: Caller)
    | ReconcileBump(caller: Caller, draft: Option<nat>, dispatchedAt: nat)
    | ReconcileProbe(caller: Caller, tries: nat, draft: Option<nat>, dispatchedAt: nat)
    | ReconcileAdopt(caller: Caller, id: nat, draft: Option<nat>)
    | ReconcileAbsent(caller: Caller)
    | ReconcileAgain(caller: Caller)
    | ReconcilePark(caller: Caller)
    | Prepare(draft: Option<nat>, unprobed: bool, era: nat)
    | Commit(draft: Option<nat>, unprobed: bool, era: nat, content: nat)
    | Call(draft: Option<nat>, era: nat, content: nat)
    | Deliver(id: nat, draft: Option<nat>)
    | NoteTransient
    | GiveUpUnsent
    | GiveUpUnsure
    | FailForGood(cls: ErrorClass, discard: Option<nat>)
    | DiscardDraft(cls: ErrorClass, discarded: nat)
    | Settle(outcome: Outcome)
    | SweepEnd(verdict: ReconcileOutcome)

  /** What the outside world answers at a step. */
  datatype Answer =
    | Done
    | DraftGone
    | Prepared(draft: Option<nat>)
    | Raised(cls: ErrorClass, littered: Option<nat>)
    | Accepted(id: nat, ts: int, lost: Option<ErrorClass>)
    | ProbeRaised                    // the probe, or the lookup inside it, failed
    | History(page: seq<Post>)
    | DraftLookup(stillThere: bool)
    | LedgerLookup(forcedInconclusive: bool)

  /** The answers the environment may give. A draft id is new when it is created;
      a draft is accepted only while it exists, and sending consumes it; history
      pages are complete (`HistoryPage`) and shorter than the probe's limit. */
  predicate Possible(c: Cell, at: Point, a: Answer, now: nat) {
    match at
    case ReconcileBump(_, _, _) => a.Done? || a.DraftGone?
    case ReconcileProbe(_, _, _, dispatchedAt) =>
      a.ProbeRaised? ||
      (match c.channel
       case Slack => a.History? && |a.page| < PROBE_LIMIT &&
                     HistoryPage(a.page, c.sent, c.key, WindowStart(Some(dispatchedAt), now))
       case Gmail => a.DraftLookup? && (at.draft.Some? ==> (a.stillThere <==> at.draft.value in c.drafts))
       case Fake => a.LedgerLookup?)
    case Prepare(draft, _, _) =>
      if c.channel != Gmail then a == Prepared(None)
      else if draft.Some? then a == Prepared(draft)
      else (a.Prepared? && a.draft.Some? && a.draft.value !in c.drafts) || a.Raised?
    case Call(draft, _, _) =>
      (a.Raised? && a.littered.None?) ||
      (a.Accepted? && a.ts > now - PROBE_WINDOW &&
       (c.channel == Gmail ==> draft.Some? && draft.value in c.drafts))
    case DiscardDraft(_, _) => a.Done? || a.Raised?
    case Leased => false
    case Settle(_) => false
    case AdapterBody => false
    case SweepEnd(_) => false
    case _ => a.Done?
  }

  function Probe(c: Cell, draft: Option<nat>, a: Answer): ProbeResult {
    match a
    case History(page) => SlackVerdict(page, c.key)
    case DraftLookup(found) => GmailVerdict(draft, Some(found))
    case LedgerLookup(forcedInconclusive) => FakeVerdict(c.sent, forcedInconclusive)
    case _ => Inconclusive
  }

  /** What the caller does with a verdict. */
  function Resume(caller: Caller, v: Verdict, unprobed: bool, era: nat): Point {
    match caller
    case Dispatching(draft) =>
      if v == NotSent then Prepare(draft, unprobed, era)
      else if v == RetryLater then Settle(RaisedError(Transient))
      else Settle(Returned)
    case AtCeiling =>
      if v == NotSent then GiveUpUnsent
      else if v == RetryLater then GiveUpUnsure
      else Settle(RaisedError(Transient))
    case Sweeping =>
      SweepEnd(if v == NotSent || v == RetryLater then SafeToDispatch else Settled)
  }

  /** `_finalize_failure`: the ladder of the job queue, except that a send at its
      ceiling reconciles before it may be called failed. */
  function Ladder(cls: ErrorClass, attempts: nat, maxAttempts: nat, discard: Option<nat>): Point {
    if cls == Transient && attempts < maxAttempts then NoteTransient
    else if cls == Transient then ReconcileLoad(AtCeiling)
    else FailForGood(cls, discard)
  }

  /** The cell after the statement at `at`. */
  function Effect(c: Cell, at: Point, a: Answer, now: nat): Cell {
    match at
    case ReconcileBump(caller, _, _) =>
      if a.DraftGone? then c
      else c.(row := BumpReconcileAttempts(c.row),
              tally := if caller.Sweeping? then c.tally else c.tally.(bumps := c.tally.bumps + 1))
    case ReconcileAdopt(_, id, draft) => c.(row := MarkDelivered(c.row, id, draft, now))
    case ReconcileAbsent(_) => c.(row := RecordError(c.row, Transient))
    case ReconcileAgain(_) => c.(row := RecordError(c.row, Transient))
    case ReconcilePark(_) => c.(row := MarkUncertain(c.row))
    case Prepare(draft, _, _) =>
      if a.Prepared? && a.draft.Some? && draft.None? then c.(drafts := c.drafts[a.draft.value := c.content])
      else if a.Raised? && a.littered.Some? then c.(drafts := c.drafts[a.littered.value := c.content])
      else c
    case Commit(draft, _, _, _) => c.(row := CommitDispatchAttempt(c.row, draft, now))
    case Call(draft, era, content) =>
      var counted := c.(tally := c.tally.(calls := c.tally.calls + 1));
      if a.Accepted? then
        var inside := if draft.Some? && draft.value in c.drafts then c.drafts[draft.value] else content;
        counted.(sent := c.sent + [Message(a.id, era, now, a.ts, draft, inside)],
                 drafts := if draft.Some? then c.drafts - {draft.value} else c.drafts)
      else counted
    case Deliver(id, draft) => c.(row := MarkDelivered(c.row, id, draft, now))
    case NoteTransient => c.(row := RecordError(c.row, Transient))
    case GiveUpUnsent => c.(row := SetTerminal(c.row, FailedTransient, Transient))
    case GiveUpUnsure => c.(row := MarkUncertain(c.row))
    case FailForGood(cls, _) => c.(row := SetTerminal(c.row, FailedPermanent, cls))
    case DiscardDraft(_, draft) => if a.Done? then c.(drafts := c.drafts - {draft}) else c
    case _ => c
  }

  /** The statement that runs next. */
  function Following(c: Cell, at: Point, a: Answer, attempts: nat, maxAttempts: nat): Point {
    match at
    case Load =>
      if c.row.state != InFlight then Settle(Returned)
      else if c.row.dispatchedAt.None? then Prepare(c.row.draftId, true, c.tally.forced)
      else ReconcileLoad(Dispatching(c.row.draftId))
    case ReconcileLoad(caller) =>
      if c.row.state != InFlight then Resume(caller, AlreadyTerminal, false, 0)
      else if c.row.dispatchedAt.None? then Resume(caller, NotSent, true, c.tally.forced)
      else if c.row.reconcileAttempts >= MAX_RECONCILE_ATTEMPTS then ReconcilePark(caller)
      else ReconcileBump(caller, c.row.draftId, c.row.dispatchedAt.value)
    case ReconcileBump(caller, draft, dispatchedAt) =>
      if a.DraftGone? then ReconcilePark(caller)
      else ReconcileProbe(caller, c.row.reconcileAttempts + 1, draft, dispatchedAt)
    case ReconcileProbe(caller, tries, draft, _) =>
      (match Probe(c, draft, a)
       case Found(id) => if id.None? then ReconcilePark(caller) else ReconcileAdopt(caller, id.value, draft)
       case Absent => ReconcileAbsent(caller)
       case Inconclusive => if tries >= MAX_RECONCILE_ATTEMPTS then ReconcilePark(caller) else ReconcileAgain(caller))
    case ReconcileAdopt(caller, _, _) =>
      Resume(caller, if c.row.state == InFlight then Adopted else AlreadyTerminal, false, 0)
    case ReconcileAbsent(caller) => Resume(caller, NotSent, false, c.tally.forced)
    case ReconcileAgain(caller) => Resume(caller, RetryLater, false, 0)
    case ReconcilePark(caller) => Resume(caller, ParkedUncertain, false, 0)
    case Prepare(draft, unprobed, era) =>
      if a.Raised? then Ladder(a.cls, attempts, maxAttempts, None)
      else if a.Prepared? then Commit(Coalesce(a.draft, draft), unprobed, era, c.content)
      else at
    case Commit(draft, _, era, content) => Call(draft, era, content)
    case Call(draft, _, _) =>
      if a.Accepted? then
        if a.lost.None? then Deliver(a.id, draft) else Ladder(a.lost.value, attempts, maxAttempts, draft)
      else if a.Raised? then Ladder(a.cls, attempts, maxAttempts, draft)
      else at
    case Deliver(_, _) => Settle(Returned)
    case NoteTransient => Settle(RaisedError(Transient))
    case GiveUpUnsent => Settle(RaisedError(Transient))
    case GiveUpUnsure => Settle(RaisedError(Transient))
    case FailForGood(cls, discard) =>
      if discard.Some? then DiscardDraft(cls, discard.value) else Settle(RaisedError(cls))
    case DiscardDraft(cls, _) => Settle(RaisedError(cls))
    case _ => at
  }
}
