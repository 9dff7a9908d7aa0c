/** The whole system as a state machine: the API, any number of workers and
    sweepers, the provider and the clock, interleaved one commit or provider
    call at a time (`packages/core/send/`, `packages/core/jobs/`).

    Assumed of the world outside the code, and written into `Enabled`:
    - a provider call is atomic, and nothing lands after it returned, failed or
      was cancelled;
    - idempotency keys are globally new;
    - a handler starts early enough that its deadline falls inside its lease, and
      a finish that matches the row's `claimed_by` lands inside the lease;
    - a provider answers as `SendHandler.Possible` says. */
module SendSystem {
  import opened Basics
  import SendRows
  import opened JobRows
  import opened JobTable
  import opened SendHandler
  import opened SendInvariant

  const JOB_LEASE: nat := 90 * SECOND
  const SEND_LEASE: nat := 300 * SECOND
  // The first instant at which a send's lease taken at the start has run out.
  const LATER: nat := SEND_LEASE + 1
  const JOB_DEADLINE: nat := 30 * SECOND
  const SEND_DEADLINE: nat := 120 * SECOND

  function DeadlineFor(kind: JobKind): nat {
    if kind == SendJob then SEND_DEADLINE else JOB_DEADLINE
  }

  /** A running piece of code: the claim of a job by a worker, or a sweeper's
      reconciler. `claimed_by` names a process, so the attempt tells two claims
      of one process apart. */
  datatype ExecId = Worker(job: nat, attempt: nat) | Sweeper(serial: nat)

  datatype Exec = Exec(
    job: nat,
    kind: JobKind,
    ref: nat,
    worker: nat,
    attempts: nat,
    maxAttempts: nat,
    lease: nat,
    until: nat,
    at: Point,
    holdsLock: bool)

  datatype State = State(cells: seq<Cell>, jobs: seq<Job>, execs: map<ExecId, Exec>, now: nat)

  const INITIAL: State := State([], [], map[], 0)

  datatype Step =
    // the API
    | SubmitSend(channel: Channel, connection: nat, content: nat, ceiling: nat)
    | EditDraft(send: nat, edited: nat)
    | SubmitRun(run: nat, ceiling: nat)
    | OperatorRetries(send: nat)
    | OperatorAttests(send: nat)
    | OperatorResends(send: nat)
    // a worker
    | Claim(worker: nat, limit: nat, locked: set<nat>)
    | Begin(exec: ExecId)
    | Act(exec: ExecId, answer: Answer)
    | EndAdapter(exec: ExecId)
    | Finish(exec: ExecId, delay: nat)
    // a sweeper
    | SelectStale(serial: nat, job: nat)
    | SweepFinish(exec: ExecId)
    | SweepAdapterRun(job: nat)
    // whatever may happen
    | LoseLock(exec: ExecId)
    | Abort(exec: ExecId, cls: ErrorClass)
    | Crash(exec: ExecId)
    | Tick(elapsed: nat)

  predicate Handling(at: Point) {
    !at.Leased? && !at.AdapterBody? && !at.Settle? && !at.SweepEnd?
  }

  predicate LockedBySweeper(s: State, job: nat) {
    exists e :: e in s.execs && e.Sweeper? && s.execs[e].holdsLock && s.execs[e].job == job
  }

  predicate Enabled(s: State, step: Step) {
    match step
    case SubmitSend(_, _, _, _) => true
    case EditDraft(x, _) => x < |s.cells|
    case SubmitRun(_, _) => true
    case OperatorRetries(x) => x < |s.cells|
    case OperatorAttests(x) => x < |s.cells|
    case OperatorResends(x) => x < |s.cells|
    case Claim(_, _, _) => true
    case Begin(e) =>
      && e in s.execs && e.Worker? && s.execs[e].at.Leased?
      && s.now + DeadlineFor(s.execs[e].kind) <= s.execs[e].lease
    case Act(e, a) =>
      && e in s.execs && Handling(s.execs[e].at)
      && (e.Worker? ==> s.now <= s.execs[e].until)
      && s.execs[e].ref < |s.cells|
      && Possible(s.cells[s.execs[e].ref], s.execs[e].at, a, s.now)
    case EndAdapter(e) => e in s.execs && s.execs[e].at.AdapterBody?
    case Finish(e, _) =>
      && e in s.execs && e.Worker? && s.execs[e].at.Settle? && s.execs[e].job < |s.jobs|
      && (s.now <= s.execs[e].lease || !Owns(s.jobs[s.execs[e].job], s.execs[e].worker))
    case SelectStale(serial, j) =>
      && Sweeper(serial) !in s.execs && j < |s.jobs| && s.jobs[j].kind == SendJob
      && LeaseExpired(s.jobs[j], s.now) && !LockedBySweeper(s, j)
    case SweepFinish(e) =>
      && e in s.execs && e.Sweeper? && s.execs[e].at.SweepEnd? && s.execs[e].holdsLock
      && s.execs[e].job < |s.jobs|
    case SweepAdapterRun(j) =>
      j < |s.jobs| && s.jobs[j].kind == AdapterRun && LeaseExpired(s.jobs[j], s.now)
    case LoseLock(e) => e in s.execs && e.Sweeper?
    case Abort(e, _) => e in s.execs && e.Worker? && !s.execs[e].at.Leased? && !s.execs[e].at.Settle?
    case Crash(e) => e in s.execs
    case Tick(_) => true
  }

  /** What a settled worker writes to its job. */
  function Finished(j: Job, x: Exec, now: nat, delay: nat): Job {
    if !x.at.Settle? then j
    else
      match x.at.outcome
      case Returned => Succeed(j, x.worker, now)
      case RaisedError(cls) => Fail(j, x.worker, now, cls, x.attempts, x.maxAttempts, delay)
  }

  function PartitionOf(c: Cell): Partition {
    Partition(c.channel, c.connection)
  }

  /** Work for a send that has none: resume its latest job if that is parked or
      failed, otherwise book a new one. `always` is `operator_retry`'s habit of
      trusting whatever job exists. */
  function Rebook(s: State, x: nat, ceiling: nat, always: bool): seq<Job>
    requires x < |s.cells|
  {
    var latest := LatestJob(s.jobs, x);
    if latest.Some? && (always || Resumable(s.jobs[latest.value])) then
      s.jobs[latest.value := JobRows.OperatorRetry(s.jobs[latest.value], 1, s.now)]
    else
      Enqueue(s.jobs, Enqueued(SendJob, x, None, Some(PartitionOf(s.cells[x])), 0, s.now, ceiling)).0
  }

  // Settings default of the attempt ceiling, for jobs an operator books.
  const MAX_ATTEMPTS: nat := 6

  function NewExec(j: nat, job: Job, worker: nat, now: nat): Exec {
    var lease := now + LeaseFor(job.kind, JOB_LEASE, SEND_LEASE);
    Exec(j, job.kind, job.ref, worker, job.attempts + 1, job.maxAttempts, lease, lease, Leased, false)
  }

  /** One executor for each job a claim took. */
  function NewExecs(jobs: seq<Job>, picked: set<nat>, worker: nat, now: nat): (m: map<ExecId, Exec>)
    requires forall j :: j in picked ==> j < |jobs|
    ensures forall e :: e in m <==> e.Worker? && e.job in picked && e.attempt == jobs[e.job].attempts + 1
    ensures forall e :: e in m ==> m[e] == NewExec(e.job, jobs[e.job], worker, now)
  {
    map e: ExecId | e in (set j | j in picked :: Worker(j, jobs[j].attempts + 1)) ::
      NewExec(e.job, jobs[e.job], worker, now)
  }

  function Apply(s: State, step: Step): State
    requires Enabled(s, step)
  {
    match step
    case SubmitSend(channel, connection, content, ceiling) =>
      var x := |s.cells|;
      var cell := Cell(x, channel, connection, SendRows.FRESH, Tally(0, 0, 0, 0, 0), content, content, [], map[]);
      s.(cells := s.cells + [cell],
         jobs := Enqueue(s.jobs, Enqueued(SendJob, x, Some(ForSend(x)), Some(PartitionOf(cell)), 0, s.now, ceiling)).0)
    case EditDraft(x, content) => s.(cells := s.cells[x := Operate(s.cells[x], Edit(content), s.now)])
    case SubmitRun(run, ceiling) =>
      s.(jobs := Enqueue(s.jobs, Enqueued(AdapterRun, run, Some(ForRun(run)), None, 0, s.now, ceiling)).0)
    case OperatorRetries(x) =>
      if !SendRows.Failed(s.cells[x].row) then s
      else s.(cells := s.cells[x := Operate(s.cells[x], RetryFailed, s.now)],
              jobs := Rebook(s, x, MAX_ATTEMPTS, true))
    case OperatorAttests(x) => s.(cells := s.cells[x := Operate(s.cells[x], AttestDelivered, s.now)])
    case OperatorResends(x) =>
      if s.cells[x].row.state != SendRows.Uncertain then s
      else s.(cells := s.cells[x := Operate(s.cells[x], Resend, s.now)],
              jobs := Rebook(s, x, MAX_ATTEMPTS, false))
    case Claim(worker, limit, locked) =>
      var picked := ToClaim(s.jobs, s.now, locked, limit);
      s.(jobs := Claimed(s.jobs, s.now, locked, limit, worker, JOB_LEASE, SEND_LEASE),
         execs := s.execs + NewExecs(s.jobs, picked, worker, s.now))
    case Begin(e) =>
      var x := s.execs[e];
      s.(execs := s.execs[e := x.(at := if x.kind == SendJob then Load else AdapterBody,
                                  until := s.now + DeadlineFor(x.kind))])
    case Act(e, a) =>
      var x := s.execs[e];
      var c := s.cells[x.ref];
      s.(cells := s.cells[x.ref := Effect(c, x.at, a, s.now)],
         execs := s.execs[e := x.(at := Following(c, x.at, a, x.attempts, x.maxAttempts))])
    case EndAdapter(e) => s.(execs := s.execs[e := s.execs[e].(at := Settle(Returned))])
    case Finish(e, delay) =>
      var x := s.execs[e];
      s.(jobs := s.jobs[x.job := Finished(s.jobs[x.job], x, s.now, delay)], execs := s.execs - {e})
    case SelectStale(serial, j) =>
      var job := s.jobs[j];
      s.(execs := s.execs[Sweeper(serial) :=
           Exec(j, SendJob, job.ref, 0, job.attempts, job.maxAttempts, 0, 0, ReconcileLoad(Sweeping), true)])
    case SweepFinish(e) =>
      var x := s.execs[e];
      s.(jobs := s.jobs[x.job := if x.at.verdict == SafeToDispatch then Requeue(s.jobs[x.job], s.now)
                                 else Resolve(s.jobs[x.job], s.now)],
         execs := s.execs - {e})
    case SweepAdapterRun(j) =>
      var job := s.jobs[j];
      s.(jobs := s.jobs[j := if job.attempts >= job.maxAttempts then Park(job, s.now) else Requeue(job, s.now)])
    case LoseLock(e) => s.(execs := s.execs[e := s.execs[e].(holdsLock := false)])
    case Abort(e, cls) => s.(execs := s.execs[e := s.execs[e].(at := Settle(RaisedError(cls)))])
    case Crash(e) => s.(execs := s.execs - {e})
    case Tick(elapsed) => s.(now := s.now + elapsed)
  }

  /** A statement changes its send and its executor's program point. */
  lemma ActApplied(s: State, e: ExecId, a: Answer)
    requires Enabled(s, Act(e, a))
    ensures var x := s.execs[e];
            var c := s.cells[x.ref];
            Apply(s, Act(e, a)) == s.(cells := s.cells[x.ref := Effect(c, x.at, a, s.now)],
                                      execs := s.execs[e := x.(at := Following(c, x.at, a, x.attempts, x.maxAttempts))])
  {
  }

  /** The state a sequence of steps leads to, if each is enabled in turn. */
  ghost function After(steps: seq<Step>): Option<State> {
    if steps == [] then Some(INITIAL)
    else
      var before := After(steps[..|steps| - 1]);
      if before.Some? && Enabled(before.value, steps[|steps| - 1])
      then Some(Apply(before.value, steps[|steps| - 1]))
      else None
  }
}
