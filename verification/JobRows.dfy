/** One row of the `jobs` table and the statements that update it
    (`packages/core/jobs/queue.py`). */
module JobRows {
  import opened Basics

  datatype JobKind = AdapterRun | SendJob

  datatype JobState = Ready | Running | Succeeded | FailedJob | Parked | Cancelled

  datatype DedupeKey = ForSend(id: nat) | ForRun(id: nat)

  /** What a reconciler tells the sweeper. */
  datatype ReconcileOutcome = SafeToDispatch | Settled | Unclear

  /** `'{provider}:{connection_id}'`. */
  datatype Partition = Partition(channel: Channel, connection: nat)

  datatype Job = Job(
    kind: JobKind,
    ref: nat,
    dedupeKey: Option<DedupeKey>,
    partition: Option<Partition>,
    state: JobState,
    priority: int,
    runAt: nat,
    attempts: nat,
    maxAttempts: nat,
    claimedAt: Option<nat>,
    claimedBy: Option<nat>,
    leaseExpiresAt: Option<nat>,
    startedAt: Option<nat>,
    finishedAt: Option<nat>,
    backoff: Option<nat>,
    lastError: Option<ErrorClass>)

  /** The table's two CHECK constraints. */
  predicate Valid(j: Job) {
    && j.attempts <= j.maxAttempts
    && (j.state == Running <==> j.claimedAt.Some? && j.leaseExpiresAt.Some?)
  }

  /** The row an enqueue inserts. */
  function Enqueued(kind: JobKind, ref: nat, dedupeKey: Option<DedupeKey>, partition: Option<Partition>,
                    priority: int, runAt: nat, maxAttempts: nat): Job
  {
    Job(kind, ref, dedupeKey, partition, Ready, priority, runAt, 0, maxAttempts,
        None, None, None, None, None, None, None)
  }

  function ClaimRow(j: Job, worker: nat, now: nat, lease: nat): Job {
    j.(state := Running, attempts := j.attempts + 1, claimedAt := Some(now), claimedBy := Some(worker),
       leaseExpiresAt := Some(now + lease), startedAt := Coalesce(j.startedAt, Some(now)))
  }

  /** The row is running under this worker's name: the guard of every finish. */
  predicate Owns(j: Job, worker: nat) {
    j.state == Running && j.claimedBy == Some(worker)
  }

  function Succeed(j: Job, worker: nat, now: nat): Job {
    if !Owns(j, worker) then j
    else j.(state := Succeeded, finishedAt := Some(now), leaseExpiresAt := None, backoff := None)
  }

  function Retry(j: Job, worker: nat, now: nat, delay: nat): Job {
    if !Owns(j, worker) then j
    else j.(state := Ready, runAt := now + delay, backoff := Some(delay), leaseExpiresAt := None,
            lastError := Some(Transient))
  }

  function Terminal(j: Job, worker: nat, now: nat, state: JobState, cls: ErrorClass): Job {
    if !Owns(j, worker) then j
    else j.(state := state, finishedAt := Some(now), leaseExpiresAt := None, backoff := None,
            lastError := Some(cls))
  }

  /** `fail`: only a transient error below the ceiling is retried. The ladder
      reads the attempts of the claim, not of the row. */
  function Fail(j: Job, worker: nat, now: nat, cls: ErrorClass, attempts: nat, maxAttempts: nat, delay: nat): Job {
    if cls != Transient then Terminal(j, worker, now, FailedJob, cls)
    else if attempts >= maxAttempts then Terminal(j, worker, now, Parked, cls)
    else Retry(j, worker, now, delay)
  }

  function Requeue(j: Job, now: nat): Job {
    if j.state != Running then j else j.(state := Ready, runAt := now, leaseExpiresAt := None)
  }

  function Park(j: Job, now: nat): Job {
    if j.state != Running then j
    else j.(state := Parked, finishedAt := Some(now), leaseExpiresAt := None, lastError := Some(Transient))
  }

  function Resolve(j: Job, now: nat): Job {
    if j.state != Running then j
    else j.(state := Succeeded, finishedAt := Some(now), leaseExpiresAt := None, backoff := None)
  }

  predicate Resumable(j: Job) {
    j.state == Parked || j.state == FailedJob
  }

  function OperatorRetry(j: Job, grant: nat, now: nat): Job {
    if !Resumable(j) then j
    else j.(state := Ready, runAt := now, finishedAt := None, leaseExpiresAt := None, backoff := None,
            maxAttempts := if j.maxAttempts >= j.attempts + grant then j.maxAttempts else j.attempts + grant)
  }

  predicate Live(j: Job) {
    j.state == Ready || j.state == Running
  }

  /** A claim may take it, now or when it is due: a row waiting at its ceiling is live, but
      no claim ever takes it again. */
  predicate Claimable(j: Job) {
    j.state == Ready && j.attempts < j.maxAttempts
  }

  /** Somebody has it, or a claim may take it. */
  predicate Runnable(j: Job) {
    j.state == Running || Claimable(j)
  }

  /** What the lease decides: a live row that is not running is waiting. */
  predicate LeaseExpired(j: Job, now: nat) {
    j.state == Running && j.leaseExpiresAt.Some? && j.leaseExpiresAt.value < now
  }
}
