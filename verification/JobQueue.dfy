/** The queue as the code runs it: statements that update the `jobs` table in
    place, and the sweep that routes every orphaned job
    (`packages/core/jobs/queue.py`, `packages/core/jobs/runtime.py`,
    `packages/core/jobs/recovery.py`). */
module JobQueue {
  import opened Basics
  import opened JobRows
  import opened JobTable

  datatype RecoveryPolicy = RetryPolicy | ReconcilePolicy

  /** Adapter runs are read-only; whatever else there is gets reconciled. */
  function PolicyFor(kind: JobKind): RecoveryPolicy {
    if kind == AdapterRun then RetryPolicy else ReconcilePolicy
  }

  datatype Fate = Requeued | ParkedJob | ResolvedJob

  /** Where the sweep sends an orphaned job. `verdict` is what its reconciler
      found, None when no reconciler is registered for the kind. */
  function Route(j: Job, verdict: Option<ReconcileOutcome>): Fate {
    match PolicyFor(j.kind)
    case RetryPolicy => if j.attempts >= j.maxAttempts then ParkedJob else Requeued
    case ReconcilePolicy =>
      if verdict == Some(SafeToDispatch) then Requeued
      else if verdict == Some(Settled) then ResolvedJob
      else ParkedJob
  }

  function Dispose(j: Job, fate: Fate, now: nat): Job {
    match fate
    case Requeued => Requeue(j, now)
    case ParkedJob => Park(j, now)
    case ResolvedJob => Resolve(j, now)
  }

  datatype SweepReport = SweepReport(heldLock: bool, stale: nat, requeued: nat, reconciled: nat, parked: nat, resolved: nat)

  /** How many of the first `n` orphans meet a fate. */
  function CountFate(jobs: seq<Job>, stale: seq<nat>, verdicts: seq<Option<ReconcileOutcome>>, fate: Fate, n: nat): nat
    requires n <= |stale| == |verdicts| && forall k :: 0 <= k < |stale| ==> stale[k] < |jobs|
  {
    if n == 0 then 0
    else CountFate(jobs, stale, verdicts, fate, n - 1) +
         if Route(jobs[stale[n - 1]], verdicts[n - 1]) == fate then 1 else 0
  }

  /** How many of the first `n` orphans had a reconciler answer for them. */
  function CountAsked(jobs: seq<Job>, stale: seq<nat>, verdicts: seq<Option<ReconcileOutcome>>, n: nat): nat
    requires n <= |stale| == |verdicts| && forall k :: 0 <= k < |stale| ==> stale[k] < |jobs|
  {
    if n == 0 then 0
    else CountAsked(jobs, stale, verdicts, n - 1) +
         if PolicyFor(jobs[stale[n - 1]].kind) == ReconcilePolicy && verdicts[n - 1].Some? then 1 else 0
  }

  /** The report once the first `n` orphans are settled. */
  function Tallied(jobs: seq<Job>, stale: seq<nat>, verdicts: seq<Option<ReconcileOutcome>>, n: nat): SweepReport
    requires n <= |stale| == |verdicts| && forall k :: 0 <= k < |stale| ==> stale[k] < |jobs|
  {
    SweepReport(true, |stale|, CountFate(jobs, stale, verdicts, Requeued, n), CountAsked(jobs, stale, verdicts, n),
                CountFate(jobs, stale, verdicts, ParkedJob, n), CountFate(jobs, stale, verdicts, ResolvedJob, n))
  }

  /** The report with one more orphan on it. */
  function Counted(report: SweepReport, fate: Fate, asked: bool): SweepReport {
    report.(requeued := report.requeued + if fate == Requeued then 1 else 0,
            reconciled := report.reconciled + if asked then 1 else 0,
            parked := report.parked + if fate == ParkedJob then 1 else 0,
            resolved := report.resolved + if fate == ResolvedJob then 1 else 0)
  }

  /** How many of the first `n` orphans stand in a state afterwards. */
  function InState(jobs: seq<Job>, stale: seq<nat>, state: JobState, n: nat): nat
    requires n <= |stale| && forall k :: 0 <= k < |stale| ==> stale[k] < |jobs|
  {
    if n == 0 then 0 else InState(jobs, stale, state, n - 1) + if jobs[stale[n - 1]].state == state then 1 else 0
  }

  /** How many of the first `n` orphans are sends that a reconciler answered for. */
  function SendsAnswered(jobs: seq<Job>, stale: seq<nat>, verdicts: seq<Option<ReconcileOutcome>>, n: nat): nat
    requires n <= |stale| == |verdicts| && forall k :: 0 <= k < |stale| ==> stale[k] < |jobs|
  {
    if n == 0 then 0
    else SendsAnswered(jobs, stale, verdicts, n - 1) + if jobs[stale[n - 1]].kind == SendJob && verdicts[n - 1].Some? then 1 else 0
  }

  /** What a report says, in terms of the table before and after the sweep. */
  predicate ReportsTable(report: SweepReport, before: seq<Job>, after: seq<Job>, stale: seq<nat>,
                         verdicts: seq<Option<ReconcileOutcome>>)
    requires |stale| == |verdicts| && |before| == |after| && forall k :: 0 <= k < |stale| ==> stale[k] < |before|
  {
    && report.heldLock && report.stale == |stale|
    && report.requeued == InState(after, stale, Ready, |stale|)
    && report.parked == InState(after, stale, Parked, |stale|)
    && report.resolved == InState(after, stale, Succeeded, |stale|)
    && report.reconciled == SendsAnswered(before, stale, verdicts, |stale|)
  }

  lemma {:induction false} FatesShow(jobs: seq<Job>, after: seq<Job>, stale: seq<nat>,
                                     verdicts: seq<Option<ReconcileOutcome>>, now: nat, n: nat)
    requires n <= |stale| == |verdicts| && |after| == |jobs|
    requires forall k :: 0 <= k < |stale| ==>
               stale[k] < |jobs| && jobs[stale[k]].state == Running
               && after[stale[k]] == Dispose(jobs[stale[k]], Route(jobs[stale[k]], verdicts[k]), now)
    ensures var report := Tallied(jobs, stale, verdicts, n);
            && report.requeued == InState(after, stale, Ready, n) && report.parked == InState(after, stale, Parked, n)
            && report.resolved == InState(after, stale, Succeeded, n)
            && report.reconciled == SendsAnswered(jobs, stale, verdicts, n)
  {
    if n > 0 {
      FatesShow(jobs, after, stale, verdicts, now, n - 1);
    }
  }

  /** The report counts the orphans by the state the sweep left them in. */
  lemma TalliedReportsTable(jobs: seq<Job>, stale: seq<nat>, verdicts: seq<Option<ReconcileOutcome>>, now: nat)
    requires |stale| == |verdicts| && Distinct(stale)
    requires forall k :: 0 <= k < |stale| ==> stale[k] < |jobs| && jobs[stale[k]].state == Running
    ensures ReportsTable(Tallied(jobs, stale, verdicts, |stale|), jobs, Swept(jobs, stale, verdicts, now, |stale|), stale, verdicts)
  {
    SweptEach(jobs, stale, verdicts, now, |stale|);
    FatesShow(jobs, Swept(jobs, stale, verdicts, now, |stale|), stale, verdicts, now, |stale|);
  }

  lemma TalliedNext(jobs: seq<Job>, stale: seq<nat>, verdicts: seq<Option<ReconcileOutcome>>, k: nat)
    requires k < |stale| == |verdicts| && forall i :: 0 <= i < |stale| ==> stale[i] < |jobs|
    ensures var job := jobs[stale[k]];
            Tallied(jobs, stale, verdicts, k + 1)
              == Counted(Tallied(jobs, stale, verdicts, k), Route(job, verdicts[k]),
                         PolicyFor(job.kind) == ReconcilePolicy && verdicts[k].Some?)
  {
  }

  lemma {:induction false} FatesPartition(jobs: seq<Job>, stale: seq<nat>, verdicts: seq<Option<ReconcileOutcome>>, n: nat)
    requires n <= |stale| == |verdicts| && forall k :: 0 <= k < |stale| ==> stale[k] < |jobs|
    ensures CountFate(jobs, stale, verdicts, Requeued, n) + CountFate(jobs, stale, verdicts, ParkedJob, n)
            + CountFate(jobs, stale, verdicts, ResolvedJob, n) == n
  {
    if n > 0 {
      FatesPartition(jobs, stale, verdicts, n - 1);
    }
  }

  /** A row whose lease has expired holds no work that a disposal could hand to
      two workers: it leaves the running state, keeps its attempts, and becomes
      ready only when it may be run again. */
  lemma DisposalMeaning(j: Job, verdict: Option<ReconcileOutcome>, now: nat)
    requires Valid(j) && j.state == Running
    ensures var d := Dispose(j, Route(j, verdict), now);
            && Valid(d) && d.state != Running && d.attempts == j.attempts && d.partition == j.partition
            && (d.state == Ready <==>
                  if j.kind == AdapterRun then j.attempts < j.maxAttempts else verdict == Some(SafeToDispatch))
            && (d.state == Succeeded <==> j.kind == SendJob && verdict == Some(Settled))
            && (d.state == Parked <==> d.state != Ready && d.state != Succeeded)
  {
  }

  /** What `select_stale` promises: expired rows, each once, the oldest leases
      first, and none left out below the limit. */
  predicate StaleRows(jobs: seq<Job>, now: nat, locked: set<nat>, limit: nat, stale: seq<nat>) {
    && |stale| <= limit && Distinct(stale)
    && (forall k :: 0 <= k < |stale| ==> stale[k] < |jobs| && stale[k] !in locked && LeaseExpired(jobs[stale[k]], now))
    && (forall i: nat, k :: i < |jobs| && i !in locked && LeaseExpired(jobs[i], now) && i !in stale && 0 <= k < |stale| ==>
          jobs[stale[k]].leaseExpiresAt.value <= jobs[i].leaseExpiresAt.value)
    && (|stale| < limit ==> forall i: nat :: i < |jobs| && i !in locked && LeaseExpired(jobs[i], now) ==> i in stale)
  }

  /** The table after the first `n` orphans met their fates. */
  function Swept(jobs: seq<Job>, stale: seq<nat>, verdicts: seq<Option<ReconcileOutcome>>, now: nat, n: nat): (r: seq<Job>)
    requires n <= |stale| == |verdicts| && forall k :: 0 <= k < |stale| ==> stale[k] < |jobs|
    ensures |r| == |jobs|
  {
    if n == 0 then jobs
    else Swept(jobs, stale, verdicts, now, n - 1)
           [stale[n - 1] := Dispose(jobs[stale[n - 1]], Route(jobs[stale[n - 1]], verdicts[n - 1]), now)]
  }

  /** Each orphan meets its own fate and no other row changes. */
  lemma {:induction false} SweptEach(jobs: seq<Job>, stale: seq<nat>, verdicts: seq<Option<ReconcileOutcome>>, now: nat, n: nat)
    requires n <= |stale| == |verdicts| && Distinct(stale) && forall k :: 0 <= k < |stale| ==> stale[k] < |jobs|
    ensures var swept := Swept(jobs, stale, verdicts, now, n);
            && (forall i :: 0 <= i < |jobs| && i !in stale[..n] ==> swept[i] == jobs[i])
            && (forall k :: 0 <= k < n ==>
                  swept[stale[k]] == Dispose(jobs[stale[k]], Route(jobs[stale[k]], verdicts[k]), now))
  {
    if n > 0 {
      SweptEach(jobs, stale, verdicts, now, n - 1);
      var (swept, id) := (Swept(jobs, stale, verdicts, now, n), stale[n - 1]);
      forall i | 0 <= i < |jobs| && i !in stale[..n] ensures swept[i] == jobs[i] {
        assert stale[n - 1] in stale[..n];
        assert forall k :: 0 <= k < n - 1 ==> stale[..n - 1][k] == stale[..n][k];
      }
      assert forall k :: 0 <= k < n - 1 ==> stale[k] != id;
    }
  }

  lemma UntouchedYet(jobs: seq<Job>, stale: seq<nat>, verdicts: seq<Option<ReconcileOutcome>>, now: nat, k: nat)
    requires k < |stale| == |verdicts| && Distinct(stale) && forall i :: 0 <= i < |stale| ==> stale[i] < |jobs|
    ensures Swept(jobs, stale, verdicts, now, k)[stale[k]] == jobs[stale[k]]
  {
    SweptEach(jobs, stale, verdicts, now, k);
    assert stale[k] !in stale[..k];
  }

  /** A row may stop running without breaking an index. */
  lemma RowLeaves(jobs: seq<Job>, id: nat, after: Job)
    requires TableValid(jobs) && id < |jobs| && Valid(after) && after.state != Running
    requires after.partition == jobs[id].partition && after.dedupeKey == jobs[id].dedupeKey
    requires Live(after) ==> Live(jobs[id])
    ensures TableValid(jobs[id := after])
  {
    var moved := jobs[id := after];
    forall i, k | 0 <= i < k < |moved| && Live(moved[i]) && Live(moved[k])
      ensures moved[i].dedupeKey.None? || moved[i].dedupeKey != moved[k].dedupeKey
    {
      assert Live(jobs[i]) && Live(jobs[k]);
    }
  }

  /** The expired row with the oldest lease among the first `n`. */
  function Oldest(jobs: seq<Job>, now: nat, barred: set<nat>, n: nat): (r: Option<nat>)
    requires n <= |jobs|
    ensures r.None? ==> forall i: nat :: i < n && i !in barred ==> !LeaseExpired(jobs[i], now)
    ensures r.Some? ==>
              && r.value < n && r.value !in barred && LeaseExpired(jobs[r.value], now)
              && forall i: nat :: i < n && i !in barred && LeaseExpired(jobs[i], now) ==>
                   jobs[r.value].leaseExpiresAt.value <= jobs[i].leaseExpiresAt.value
  {
    if n == 0 then None
    else
      var rest := Oldest(jobs, now, barred, n - 1);
      if n - 1 in barred || !LeaseExpired(jobs[n - 1], now) then rest
      else if rest.None? || jobs[n - 1].leaseExpiresAt.value < jobs[rest.value].leaseExpiresAt.value then Some(n - 1)
      else rest
  }

  function Stale(jobs: seq<Job>, now: nat, barred: set<nat>, limit: nat): (r: seq<nat>)
    ensures StaleRows(jobs, now, barred, limit, r)
    decreases limit
  {
    if limit == 0 then []
    else
      match Oldest(jobs, now, barred, |jobs|)
      case None => []
      case Some(i) =>
        var rest := Stale(jobs, now, barred + {i}, limit - 1);
        StaleFrom(jobs, now, barred, limit, i, rest);
        [i] + rest
  }

  lemma StaleFrom(jobs: seq<Job>, now: nat, barred: set<nat>, limit: nat, first: nat, rest: seq<nat>)
    requires limit > 0 && Oldest(jobs, now, barred, |jobs|) == Some(first)
    requires StaleRows(jobs, now, barred + {first}, limit - 1, rest)
    ensures StaleRows(jobs, now, barred, limit, [first] + rest)
  {
    var rows := [first] + rest;
    assert rows[1..] == rest && rows[0] == first;
    forall i: nat | i < |jobs| && i !in barred && LeaseExpired(jobs[i], now) && i !in rows
      ensures i !in barred + {first} && i !in rest
    {
    }
  }

  /** No job of the row's partition is running. */
  predicate PartitionFree(jobs: seq<Job>, id: nat)
    requires id < |jobs|
  {
    jobs[id].partition.None? || forall r :: 0 <= r < |jobs| && jobs[r].state == Running ==> jobs[r].partition != jobs[id].partition
  }

  datatype Resumption = Resumed | NotResumable | DuplicateKey

  class Queue {
    var jobs: seq<Job>

    predicate Valid()
      reads this
    {
      TableValid(jobs)
    }

    constructor ()
      ensures Valid() && jobs == []
    {
      jobs := [];
    }

    /** None when a live duplicate exists. */
    method Enqueue(kind: JobKind, ref: nat, dedupeKey: Option<DedupeKey>, partition: Option<Partition>,
                   priority: int, runAt: nat, maxAttempts: nat) returns (id: Option<nat>)
      requires Valid()
      modifies this
      ensures Valid()
      ensures id.None? <==>
                dedupeKey.Some? && exists i :: 0 <= i < |old(jobs)| && old(jobs)[i].dedupeKey == dedupeKey
                                            && (old(jobs)[i].state == Ready || old(jobs)[i].state == Running)
      ensures id.Some? ==>
                && id.value == |old(jobs)| < |jobs|
                && var job := jobs[id.value];
                && job.kind == kind && job.ref == ref && job.dedupeKey == dedupeKey && job.partition == partition
                && job.priority == priority && job.runAt == runAt && job.maxAttempts == maxAttempts
                && job.state == Ready && job.attempts == 0
      ensures jobs == if id.None? then old(jobs)
                      else old(jobs) + [Enqueued(kind, ref, dedupeKey, partition, priority, runAt, maxAttempts)]
    {
      var job := Enqueued(kind, ref, dedupeKey, partition, priority, runAt, maxAttempts);
      EnqueueKeepsTable(jobs, job);
      id := JobTable.Enqueue(jobs, job).1;
      jobs := JobTable.Enqueue(jobs, job).0;
    }

    method Claim(worker: nat, limit: nat, locked: set<nat>, now: nat, lease: nat, sendLease: nat) returns (claimed: set<nat>)
      requires Valid()
      modifies this
      ensures Valid()
      ensures ClaimOutcome(old(jobs), jobs, now, locked, limit, worker, lease, sendLease, claimed)
      ensures claimed == ToClaim(old(jobs), now, locked, limit)
      ensures jobs == Claimed(old(jobs), now, locked, limit, worker, lease, sendLease)
    {
      ClaimKeepsTable(jobs, now, locked, limit, worker, lease, sendLease);
      ClaimHasOutcome(jobs, now, locked, limit, worker, lease, sendLease);
      claimed := ToClaim(jobs, now, locked, limit);
      jobs := Claimed(jobs, now, locked, limit, worker, lease, sendLease);
    }

    /** Compare-and-swap: false means the claim had moved on. */
    method Succeed(id: nat, worker: nat, now: nat) returns (applied: bool)
      requires Valid() && id < |jobs|
      modifies this
      ensures Valid()
      ensures applied <==> Owns(old(jobs)[id], worker)
      ensures jobs == old(jobs)[id := JobRows.Succeed(old(jobs)[id], worker, now)]
    {
      applied := Owns(jobs[id], worker);
      if applied {
        RowLeaves(jobs, id, JobRows.Succeed(jobs[id], worker, now));
        jobs := jobs[id := JobRows.Succeed(jobs[id], worker, now)];
      }
    }

    /** The next state, whether or not the row was still ours to move. */
    method Fail(id: nat, worker: nat, now: nat, cls: ErrorClass, attempts: nat, maxAttempts: nat, delay: nat)
      returns (state: JobState, applied: bool)
      requires Valid() && id < |jobs|
      modifies this
      ensures Valid()
      ensures state == if cls != Transient then FailedJob else if attempts >= maxAttempts then Parked else Ready
      ensures applied <==> Owns(old(jobs)[id], worker)
      ensures jobs == old(jobs)[id := JobRows.Fail(old(jobs)[id], worker, now, cls, attempts, maxAttempts, delay)]
      ensures applied ==> jobs[id].state == state
      ensures applied && state == Ready ==>
                var free := jobs[id].attempts < jobs[id].maxAttempts && PartitionFree(jobs, id);
                forall t: nat :: Eligible(jobs, t, id) <==> t >= now + delay && free
    {
      applied := Owns(jobs[id], worker);
      if cls != Transient {
        state := FailedJob;
      } else if attempts >= maxAttempts {
        state := Parked;
      } else {
        state := Ready;
      }
      if applied {
        var after := JobRows.Fail(jobs[id], worker, now, cls, attempts, maxAttempts, delay);
        RowLeaves(jobs, id, after);
        jobs := jobs[id := after];
      }
    }

    /** `requeue`, `park` or `resolve`: false means the row was no longer running. */
    method Move(id: nat, fate: Fate, now: nat) returns (applied: bool)
      requires Valid() && id < |jobs|
      modifies this
      ensures Valid()
      ensures applied <==> old(jobs)[id].state == Running
      ensures jobs == if applied then old(jobs)[id := Dispose(old(jobs)[id], fate, now)] else old(jobs)
    {
      applied := jobs[id].state == Running;
      if applied {
        RowLeaves(jobs, id, Dispose(jobs[id], fate, now));
        jobs := jobs[id := Dispose(jobs[id], fate, now)];
      }
    }

    /** Recovers the jobs whose workers died: each one is requeued, parked or
        resolved, as its policy and its reconciler decide, and nothing else
        changes. `verdictOf` is what the reconciler of a job finds. */
    method Sweep(gotLock: bool, verdictOf: nat -> Option<ReconcileOutcome>, now: nat, locked: set<nat>, limit: nat)
      returns (report: SweepReport, stale: seq<nat>, verdicts: seq<Option<ReconcileOutcome>>)
      requires Valid()
      modifies this
      ensures Valid() && report.heldLock == gotLock
      ensures |stale| == |verdicts| && forall k :: 0 <= k < |stale| ==> verdicts[k] == verdictOf(stale[k])
      ensures !gotLock ==> jobs == old(jobs) && report == SweepReport(false, 0, 0, 0, 0, 0)
      ensures gotLock ==>
                && StaleRows(old(jobs), now, locked, limit, stale)
                && jobs == Swept(old(jobs), stale, verdicts, now, |stale|)
                && ReportsTable(report, old(jobs), jobs, stale, verdicts)
                && report.stale == report.requeued + report.parked + report.resolved
    {
      if !gotLock {
        return SweepReport(false, 0, 0, 0, 0, 0), [], [];
      }
      stale := Stale(jobs, now, locked, limit);
      verdicts := seq(|stale|, k requires 0 <= k < |stale| => verdictOf(stale[k]));
      report := SettleAll(stale, verdicts, now);
    }

    /** One orphan's branch of the sweep. */
    method Decide(job: Job, verdict: Option<ReconcileOutcome>) returns (fate: Fate, asked: bool)
      ensures fate == Route(job, verdict)
      ensures asked <==> PolicyFor(job.kind) == ReconcilePolicy && verdict.Some?
    {
      asked := false;
      if PolicyFor(job.kind) == RetryPolicy {
        fate := if job.attempts >= job.maxAttempts then ParkedJob else Requeued;
      } else if verdict.None? {
        fate := ParkedJob;
      } else {
        asked := true;
        match verdict.value {
          case SafeToDispatch => fate := Requeued;
          case Settled => fate := ResolvedJob;
          case Unclear => fate := ParkedJob;
        }
      }
    }

    method SettleAll(stale: seq<nat>, verdicts: seq<Option<ReconcileOutcome>>, now: nat) returns (report: SweepReport)
      requires Valid() && |verdicts| == |stale| && Distinct(stale)
      requires forall k :: 0 <= k < |stale| ==> stale[k] < |jobs| && LeaseExpired(jobs[stale[k]], now)
      modifies this
      ensures Valid() && jobs == Swept(old(jobs), stale, verdicts, now, |stale|)
      ensures ReportsTable(report, old(jobs), jobs, stale, verdicts)
      ensures report.stale == report.requeued + report.parked + report.resolved
    {
      report := SweepReport(true, |stale|, 0, 0, 0, 0);
      for k := 0 to |stale|
        invariant Valid() && jobs == Swept(old(jobs), stale, verdicts, now, k)
        invariant report == Tallied(old(jobs), stale, verdicts, k)
      {
        var id := stale[k];
        UntouchedYet(old(jobs), stale, verdicts, now, k);
        var fate, asked := Decide(jobs[id], verdicts[k]);
        var _ := Move(id, fate, now);
        report := Counted(report, fate, asked);
        TalliedNext(old(jobs), stale, verdicts, k);
      }
      FatesPartition(old(jobs), stale, verdicts, |stale|);
      TalliedReportsTable(old(jobs), stale, verdicts, now);
    }

    /** Resumes a parked or failed job under the same record; a job that already ended well,
        or is still live, is left alone. Resuming raises when a live row has the dedupe
        key, and changes nothing. */
    method OperatorRetry(id: nat, grant: nat, now: nat) returns (result: Resumption)
      requires Valid() && id < |jobs|
      modifies this
      ensures Valid()
      ensures result == (if !Resumable(old(jobs)[id]) then NotResumable
                         else if Conflicts(old(jobs), old(jobs)[id].dedupeKey) then DuplicateKey else Resumed)
      ensures jobs == if result == Resumed then old(jobs)[id := JobRows.OperatorRetry(old(jobs)[id], grant, now)]
                      else old(jobs)
      ensures result == Resumed && grant > 0 ==> jobs[id].attempts == old(jobs)[id].attempts < jobs[id].maxAttempts
    {
      if !Resumable(jobs[id]) {
        return NotResumable;
      }
      if Conflicts(jobs, jobs[id].dedupeKey) {
        return DuplicateKey;
      }
      jobs := jobs[id := JobRows.OperatorRetry(jobs[id], grant, now)];
      return Resumed;
    }
  }
}
