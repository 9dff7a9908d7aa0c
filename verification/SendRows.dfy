/** One row of the `sends` table and the statements that update it
    (`packages/core/send/handler.py`, `packages/core/send/service.py`). */
module SendRows {
  import opened Basics

  const MAX_RECONCILE_ATTEMPTS: nat := 3

  datatype SendState = InFlight | Delivered | FailedPermanent | FailedTransient | Uncertain

  /** What `provider_message_id` holds: an id a provider issued, or the marker
      written when a person attests to the delivery. */
  datatype Evidence = Issued(id: nat) | Attested

  datatype Row = Row(
    state: SendState,
    draftId: Option<nat>,
    messageId: Option<Evidence>,
    attempts: nat,
    reconcileAttempts: nat,
    dispatchedAt: Option<nat>,
    deliveredAt: Option<nat>,
    lastError: Option<ErrorClass>)

  /** The table's two CHECK constraints. */
  predicate Valid(r: Row) {
    && (r.state == Delivered ==> r.messageId.Some? && r.deliveredAt.Some?)
    && (r.state == Uncertain ==> r.dispatchedAt.Some?)
  }

  /** The row a claim inserts. */
  const FRESH: Row := Row(InFlight, None, None, 0, 0, None, None, None)

  predicate Failed(r: Row) {
    r.state == FailedPermanent || r.state == FailedTransient
  }

  function CommitDispatchAttempt(r: Row, draft: Option<nat>, now: nat): Row {
    if r.state != InFlight then r
    else r.(dispatchedAt := Coalesce(r.dispatchedAt, Some(now)),
            draftId := Coalesce(r.draftId, draft),
            attempts := r.attempts + 1)
  }

  function MarkDelivered(r: Row, id: nat, draft: Option<nat>, now: nat): Row {
    if r.state != InFlight then r
    else r.(state := Delivered,
            messageId := Some(Issued(id)),
            draftId := Coalesce(draft, r.draftId),
            deliveredAt := Some(now),
            lastError := None)
  }

  function MarkUncertain(r: Row): Row {
    if r.state != InFlight || r.dispatchedAt.None? then r
    else r.(state := Uncertain, lastError := Some(Transient))
  }

  function RecordError(r: Row, cls: ErrorClass): Row {
    if r.state != InFlight then r else r.(lastError := Some(cls))
  }

  function SetTerminal(r: Row, state: SendState, cls: ErrorClass): Row {
    if r.state != InFlight then r else r.(state := state, lastError := Some(cls))
  }

  // The one statement with no state guard.
  function BumpReconcileAttempts(r: Row): Row {
    r.(reconcileAttempts := r.reconcileAttempts + 1)
  }

  /** `POST /sends/{id}/retry`, whose read and update count as one step: only a
      failed send moves, and `dispatched_at` stays. */
  function OperatorRetry(r: Row): Row {
    if !Failed(r) then r else r.(state := InFlight, reconcileAttempts := 0)
  }

  /** `marked_delivered` on an uncertain send. */
  function MarkAttested(r: Row, now: nat): Row {
    if r.state != Uncertain then r
    else r.(state := Delivered,
            messageId := Coalesce(r.messageId, Some(Attested)),
            deliveredAt := Coalesce(r.deliveredAt, Some(now)))
  }

  /** `forced_resend` on an uncertain send: the one statement that clears
      `dispatched_at`. */
  function ForceResend(r: Row): Row {
    if r.state != Uncertain then r
    else r.(state := InFlight, reconcileAttempts := 0, dispatchedAt := None)
  }
}
