/** What holds in every state the system can reach. */
module SystemInvariant {
  import opened Basics
  import SendRows
  import opened JobRows
  import opened JobTable
  import opened SendHandler
  import opened SendInvariant
  import opened SendSystem

  ghost predicate CellsInv(s: State) {
    forall x :: 0 <= x < |s.cells| ==> CellInv(s.cells[x], s.now) && s.cells[x].key == x
  }

  /** A send job names a send and carries its partition; the dedupe key of a send
      is used once. */
  predicate JobFits(cells: seq<Cell>, j: Job) {
    && (j.kind == SendJob ==> j.ref < |cells| && j.partition == Some(PartitionOf(cells[j.ref])))
    && (j.kind == AdapterRun ==> j.partition.None?)
    && (j.dedupeKey.Some? ==> (j.kind == SendJob <==> j.dedupeKey.value.ForSend?) && j.dedupeKey.value.id == j.ref)
  }

  predicate SendKeysOnce(jobs: seq<Job>) {
    forall i, k :: 0 <= i < k < |jobs| && jobs[i].dedupeKey.Some? && jobs[i].dedupeKey.value.ForSend? ==>
      jobs[i].dedupeKey != jobs[k].dedupeKey
  }

  predicate JobsInv(s: State) {
    && TableValid(s.jobs)
    && SendKeysOnce(s.jobs)
    && (forall j :: 0 <= j < |s.jobs| ==> JobFits(s.cells, s.jobs[j]))
  }

  /** The row still says that this claim is running. */
  predicate Holding(j: Job, x: Exec) {
    && j.state == Running && j.attempts == x.attempts
    && j.claimedBy == Some(x.worker) && j.leaseExpiresAt == Some(x.lease)
  }

  predicate Describes(s: State, x: Exec) {
    && x.job < |s.jobs| && x.kind == s.jobs[x.job].kind && x.ref == s.jobs[x.job].ref
    && (x.kind == SendJob ==> x.ref < |s.cells|)
  }

  predicate WorkerExecInv(s: State, e: ExecId, x: Exec) {
    && Describes(s, x)
    && e == Worker(x.job, x.attempts) && x.attempts <= s.jobs[x.job].attempts && x.until <= x.lease
    && (s.now <= x.lease ==> Holding(s.jobs[x.job], x))
    && (x.kind == SendJob && s.now <= x.until ==> WorkerInv(s.cells[x.ref], x.at, s.now))
    && (x.kind == AdapterRun ==> !Handling(x.at))
    && !x.holdsLock && !x.at.SweepEnd?
  }

  predicate SweeperExecInv(s: State, x: Exec) {
    && Describes(s, x) && x.kind == SendJob
    && SweeperInv(s.cells[x.ref], x.at)
    && (x.holdsLock ==> LeaseExpired(s.jobs[x.job], s.now))
  }

  predicate ExecInv(s: State, e: ExecId, x: Exec) {
    match e
    case Worker(_, _) => WorkerExecInv(s, e, x)
    case Sweeper(_) => SweeperExecInv(s, x)
  }

  ghost predicate ExecsInv(s: State) {
    forall e :: e in s.execs ==> ExecInv(s, e, s.execs[e])
  }

  ghost predicate LocksExclusive(s: State) {
    forall e, f :: e in s.execs && f in s.execs && e != f && s.execs[e].holdsLock && s.execs[f].holdsLock ==>
      s.execs[e].job != s.execs[f].job
  }

  ghost predicate Inv(s: State) {
    CellsInv(s) && JobsInv(s) && ExecsInv(s) && LocksExclusive(s)
  }

  /** A worker whose deadline has not passed. */
  predicate LiveWorker(s: State, e: ExecId) {
    e in s.execs && e.Worker? && s.execs[e].kind == SendJob && s.now <= s.execs[e].until
  }

  /** Mutual exclusion: two live handlers never work for one connection, let
      alone for one send. */
  lemma LiveWorkersExclusive(s: State, e: ExecId, f: ExecId)
    requires Inv(s) && LiveWorker(s, e) && LiveWorker(s, f)
    requires s.jobs[s.execs[e].job].partition == s.jobs[s.execs[f].job].partition
    ensures e == f
  {
    assert ExecInv(s, e, s.execs[e]) && ExecInv(s, f, s.execs[f]);
    var i, k := s.execs[e].job, s.execs[f].job;
    assert JobFits(s.cells, s.jobs[i]);
    assert s.jobs[i].state == Running && s.jobs[k].state == Running;
  }

  // ------------------------------------------------------------------
  // Steps on one send
  // ------------------------------------------------------------------

  /** What a step on a send keeps for everybody but the worker that took it. */
  ghost predicate Kept(c: Cell, d: Cell, now: nat, byWorker: bool) {
    && CellInv(d, now) && PartitionOf(d) == PartitionOf(c) && d.key == c.key
    && (forall other :: SweeperInv(c, other) ==> SweeperInv(d, other))
    && (!byWorker ==> forall w :: WorkerInv(c, w, now) ==> WorkerInv(d, w, now))
  }

  lemma SendMoves(s: State, x: nat, d: Cell, mover: Option<ExecId>)
    requires Inv(s) && x < |s.cells| && Kept(s.cells[x], d, s.now, mover.Some?)
    requires mover.Some? ==> LiveWorker(s, mover.value) && s.execs[mover.value].ref == x
    ensures var t := s.(cells := s.cells[x := d]);
            && CellsInv(t) && JobsInv(t) && LocksExclusive(t)
            && forall f :: f in t.execs && mover != Some(f) ==> ExecInv(t, f, t.execs[f])
  {
    var t := s.(cells := s.cells[x := d]);
    forall f | f in t.execs && mover != Some(f) ensures ExecInv(t, f, t.execs[f]) {
      assert ExecInv(s, f, s.execs[f]);
      if mover.Some? && LiveWorker(s, f) && s.execs[f].ref == x {
        assert ExecInv(s, mover.value, s.execs[mover.value]);
        assert JobFits(s.cells, s.jobs[s.execs[f].job]) && JobFits(s.cells, s.jobs[s.execs[mover.value].job]);
        LiveWorkersExclusive(s, mover.value, f);
        assert false;
      }
    }
    forall j | 0 <= j < |t.jobs| ensures JobFits(t.cells, t.jobs[j]) {
      assert JobFits(s.cells, s.jobs[j]);
    }
  }

  lemma WorkerActMoves(c: Cell, at: Point, a: Answer, now: nat)
    requires CellInv(c, now) && WorkerInv(c, at, now) && Possible(c, at, a, now)
    ensures Kept(c, Effect(c, at, a, now), now, true)
  {
    WorkerStepKeepsCell(c, at, a, now);
    SweeperUnmovedByWorker(c, at, a, now);
  }

  lemma SweeperActMoves(c: Cell, at: Point, a: Answer, now: nat)
    requires CellInv(c, now) && SweeperInv(c, at) && !at.SweepEnd? && Possible(c, at, a, now)
    ensures Kept(c, Effect(c, at, a, now), now, false)
  {
    SweeperStepKeeps(c, at, a, now);
  }

  lemma ActKeeps(s: State, e: ExecId, a: Answer)
    requires Inv(s) && Enabled(s, Act(e, a))
    ensures Inv(Apply(s, Act(e, a)))
  {
    var t := Apply(s, Act(e, a));
    var x := s.execs[e];
    var c := s.cells[x.ref];
    var d := Effect(c, x.at, a, s.now);
    assert ExecInv(s, e, x);
    if e.Worker? {
      WorkerActMoves(c, x.at, a, s.now);
      SendMoves(s, x.ref, d, Some(e));
      WorkerStepKeepsPoint(c, x.at, a, s.now, x.attempts, x.maxAttempts);
    } else {
      SweeperActMoves(c, x.at, a, s.now);
      SendMoves(s, x.ref, d, None);
      ReconcilerArrives(c, x.at, a, s.now);
    }
    ExecMoves(s.(cells := s.cells[x.ref := d]), e, t.execs[e]);
  }

  /** Only the program point of `e` moves. */
  lemma ExecMoves(s: State, e: ExecId, x: Exec)
    requires CellsInv(s) && JobsInv(s) && LocksExclusive(s) && e in s.execs
    requires forall f :: f in s.execs && f != e ==> ExecInv(s, f, s.execs[f])
    requires ExecInv(s, e, x) && x.job == s.execs[e].job && (x.holdsLock ==> s.execs[e].holdsLock)
    ensures Inv(s.(execs := s.execs[e := x]))
  {
    var t := s.(execs := s.execs[e := x]);
    forall f | f in t.execs ensures ExecInv(t, f, t.execs[f]) {
      assert ExecInv(s, f, t.execs[f]);
    }
  }

  // ------------------------------------------------------------------
  // Steps on one job
  // ------------------------------------------------------------------

  /** Nobody live holds the job: neither a worker inside its lease nor a sweep. */
  ghost predicate Unheld(s: State, j: nat, but: Option<ExecId>) {
    forall f :: f in s.execs && but != Some(f) && s.execs[f].job == j ==>
      !s.execs[f].holdsLock && (f.Worker? ==> s.now > s.execs[f].lease)
  }

  /** `after` may replace `before`: the row stops running and keeps its identity. */
  predicate Stops(before: Job, after: Job) {
    && Valid(after) && after.state != Running
    && after.kind == before.kind && after.ref == before.ref && after.partition == before.partition
    && after.dedupeKey == before.dedupeKey && after.attempts == before.attempts
    && (Live(after) && !Live(before) ==> before.kind == SendJob)
  }

  lemma JobMoves(s: State, j: nat, after: Job, but: Option<ExecId>)
    requires Inv(s) && j < |s.jobs| && Stops(s.jobs[j], after) && Unheld(s, j, but)
    requires but.Some? ==> but.value in s.execs
    ensures but.None? ==> Inv(s.(jobs := s.jobs[j := after]))
    ensures but.Some? ==> Inv(s.(jobs := s.jobs[j := after], execs := s.execs - {but.value}))
  {
    var jobs := s.jobs[j := after];
    StopKeepsTable(s, j, after);
    var t := if but.None? then s.(jobs := jobs) else s.(jobs := jobs, execs := s.execs - {but.value});
    forall f | f in t.execs ensures ExecInv(t, f, t.execs[f]) {
      assert ExecInv(s, f, s.execs[f]);
    }
  }

  lemma StopKeepsTable(s: State, j: nat, after: Job)
    requires JobsInv(s) && j < |s.jobs| && Stops(s.jobs[j], after)
    ensures JobsInv(s.(jobs := s.jobs[j := after]))
  {
    var jobs := s.jobs[j := after];
    assert JobFits(s.cells, s.jobs[j]);
    forall i, k | 0 <= i < k < |jobs| && Live(jobs[i]) && Live(jobs[k])
      ensures jobs[i].dedupeKey.None? || jobs[i].dedupeKey != jobs[k].dedupeKey
    {
      assert JobFits(s.cells, s.jobs[i]) && JobFits(s.cells, s.jobs[k]);
    }
  }

  lemma FinisherHoldsAlone(s: State, e: ExecId)
    requires Inv(s) && e in s.execs && e.Worker? && s.now <= s.execs[e].lease
    ensures Unheld(s, s.execs[e].job, Some(e))
  {
    assert ExecInv(s, e, s.execs[e]);
    forall f | f in s.execs && f != e && s.execs[f].job == s.execs[e].job
      ensures !s.execs[f].holdsLock && (f.Worker? ==> s.now > s.execs[f].lease)
    {
      assert ExecInv(s, f, s.execs[f]);
    }
  }

  lemma FinishKeeps(s: State, e: ExecId, delay: nat)
    requires Inv(s) && Enabled(s, Finish(e, delay))
    ensures Inv(Apply(s, Finish(e, delay)))
  {
    var x := s.execs[e];
    if Owns(s.jobs[x.job], x.worker) {
      OwnFinishStops(s.jobs[x.job], x, s.now, delay);
      OwnFinishKeeps(s, e, Finished(s.jobs[x.job], x, s.now, delay));
    } else {
      FinishedByOther(s.jobs[x.job], x, s.now, delay);
      assert s.jobs[x.job := s.jobs[x.job]] == s.jobs;
      CrashKeeps(s, e);
    }
  }

  lemma FinishedByOther(j: Job, x: Exec, now: nat, delay: nat)
    requires !Owns(j, x.worker)
    ensures Finished(j, x, now, delay) == j
  {
  }

  lemma OwnFinishStops(j: Job, x: Exec, now: nat, delay: nat)
    requires Owns(j, x.worker) && Valid(j) && x.at.Settle?
    ensures Stops(j, Finished(j, x, now, delay))
  {
  }

  lemma OwnFinishKeeps(s: State, e: ExecId, after: Job)
    requires Inv(s) && e in s.execs && e.Worker? && s.now <= s.execs[e].lease
    requires s.execs[e].job < |s.jobs| && Stops(s.jobs[s.execs[e].job], after)
    ensures Inv(s.(jobs := s.jobs[s.execs[e].job := after], execs := s.execs - {e}))
  {
    FinisherHoldsAlone(s, e);
    JobMoves(s, s.execs[e].job, after, Some(e));
  }

  lemma CrashKeeps(s: State, e: ExecId)
    requires Inv(s)
    ensures Inv(s.(execs := s.execs - {e}))
  {
    var t := s.(execs := s.execs - {e});
    forall f | f in t.execs ensures ExecInv(t, f, t.execs[f]) {
      assert ExecInv(s, f, s.execs[f]);
    }
  }

  lemma ExpiredIsUnheld(s: State, j: nat, but: Option<ExecId>)
    requires Inv(s) && j < |s.jobs| && LeaseExpired(s.jobs[j], s.now)
    requires forall f :: f in s.execs && but != Some(f) && s.execs[f].job == j ==> !s.execs[f].holdsLock
    ensures Unheld(s, j, but)
  {
    forall f | f in s.execs && but != Some(f) && s.execs[f].job == j && f.Worker?
      ensures s.now > s.execs[f].lease
    {
      assert ExecInv(s, f, s.execs[f]);
    }
  }

  lemma SweepFinishKeeps(s: State, e: ExecId)
    requires Inv(s) && Enabled(s, SweepFinish(e))
    ensures Inv(Apply(s, SweepFinish(e)))
  {
    var x := s.execs[e];
    assert ExecInv(s, e, x);
    ExpiredIsUnheld(s, x.job, Some(e));
    JobMoves(s, x.job,
             if x.at.verdict == SafeToDispatch then Requeue(s.jobs[x.job], s.now) else Resolve(s.jobs[x.job], s.now),
             Some(e));
  }

  lemma SweepAdapterRunKeeps(s: State, j: nat)
    requires Inv(s) && Enabled(s, SweepAdapterRun(j))
    ensures Inv(Apply(s, SweepAdapterRun(j)))
  {
    var job := s.jobs[j];
    forall f | f in s.execs && s.execs[f].job == j ensures !s.execs[f].holdsLock {
      assert ExecInv(s, f, s.execs[f]);
    }
    ExpiredIsUnheld(s, j, None);
    JobMoves(s, j, if job.attempts >= job.maxAttempts then Park(job, s.now) else Requeue(job, s.now), None);
  }

  lemma EnqueueKeeps(s: State, job: Job)
    requires Inv(s) && Valid(job) && job.state == Ready && JobFits(s.cells, job)
    requires job.dedupeKey.Some? && job.dedupeKey.value.ForSend? ==>
               forall j :: 0 <= j < |s.jobs| ==> s.jobs[j].dedupeKey != job.dedupeKey
    ensures Inv(s.(jobs := Enqueue(s.jobs, job).0))
  {
    var t := s.(jobs := Enqueue(s.jobs, job).0);
    EnqueueKeepsTable(s.jobs, job);
    forall f | f in t.execs ensures ExecInv(t, f, t.execs[f]) {
      assert ExecInv(s, f, s.execs[f]);
    }
  }

  lemma RebookKeeps(s: State, x: nat, ceiling: nat, always: bool)
    requires Inv(s) && x < |s.cells|
    ensures Inv(s.(jobs := Rebook(s, x, ceiling, always)))
  {
    var latest := LatestJob(s.jobs, x);
    if latest.Some? && (always || Resumable(s.jobs[latest.value])) {
      var j := latest.value;
      if Resumable(s.jobs[j]) {
        forall f | f in s.execs && s.execs[f].job == j
          ensures !s.execs[f].holdsLock && (f.Worker? ==> s.now > s.execs[f].lease)
        {
          assert ExecInv(s, f, s.execs[f]);
        }
        JobMoves(s, j, JobRows.OperatorRetry(s.jobs[j], 1, s.now), None);
      } else {
        assert s.jobs[j := s.jobs[j]] == s.jobs;
      }
    } else {
      EnqueueKeeps(s, Enqueued(SendJob, x, None, Some(PartitionOf(s.cells[x])), 0, s.now, ceiling));
    }
  }

  // ------------------------------------------------------------------
  // The API
  // ------------------------------------------------------------------

  lemma SubmitSendKeeps(s: State, channel: Channel, connection: nat, content: nat, ceiling: nat)
    requires Inv(s)
    ensures Inv(Apply(s, SubmitSend(channel, connection, content, ceiling)))
  {
    var x := |s.cells|;
    var cell := Cell(x, channel, connection, SendRows.FRESH, Tally(0, 0, 0, 0, 0), content, content, [], map[]);
    var t := s.(cells := s.cells + [cell]);
    forall f | f in t.execs ensures ExecInv(t, f, t.execs[f]) {
      assert ExecInv(s, f, s.execs[f]);
    }
    forall j | 0 <= j < |t.jobs| ensures JobFits(t.cells, t.jobs[j]) {
      assert JobFits(s.cells, s.jobs[j]);
    }
    assert CellInv(cell, s.now);
    EnqueueKeeps(t, Enqueued(SendJob, x, Some(ForSend(x)), Some(PartitionOf(cell)), 0, s.now, ceiling));
  }

  lemma OperatorStepKeeps(s: State, x: nat, action: OperatorAction)
    requires Inv(s) && x < |s.cells|
    ensures Inv(s.(cells := s.cells[x := Operate(s.cells[x], action, s.now)]))
  {
    var c := s.cells[x];
    var d := Operate(c, action, s.now);
    OperatorKeeps(c, action, s.now);
    SendMoves(s, x, d, None);
  }

  lemma OperatorRebooks(s: State, x: nat, action: OperatorAction, always: bool)
    requires Inv(s) && x < |s.cells|
    ensures Inv(s.(cells := s.cells[x := Operate(s.cells[x], action, s.now)],
                   jobs := Rebook(s, x, MAX_ATTEMPTS, always)))
  {
    OperatorStepKeeps(s, x, action);
    var t := s.(cells := s.cells[x := Operate(s.cells[x], action, s.now)]);
    RebookKeeps(t, x, MAX_ATTEMPTS, always);
    assert Rebook(t, x, MAX_ATTEMPTS, always) == Rebook(s, x, MAX_ATTEMPTS, always);
  }

  // ------------------------------------------------------------------
  // A worker starting, and what may happen to any executor
  // ------------------------------------------------------------------

  /** A claim changes the picked rows, and of those only what says they run. */
  ghost predicate Takes(s: State, t: State, picked: set<nat>) {
    && t.cells == s.cells && t.now == s.now && |t.jobs| == |s.jobs|
    && (forall j :: j in picked ==> Eligible(s.jobs, s.now, j))
    && (forall j :: 0 <= j < |s.jobs| && j !in picked ==> t.jobs[j] == s.jobs[j])
    && (forall j :: 0 <= j < |s.jobs| && j in picked ==>
          t.jobs[j].attempts == s.jobs[j].attempts + 1 && t.jobs[j].kind == s.jobs[j].kind && t.jobs[j].ref == s.jobs[j].ref)
  }

  lemma ClaimTakes(s: State, worker: nat, limit: nat, locked: set<nat>)
    ensures Takes(s, Apply(s, Claim(worker, limit, locked)), ToClaim(s.jobs, s.now, locked, limit))
  {
  }

  lemma ClaimSparesOthers(s: State, t: State, picked: set<nat>, f: ExecId, x: Exec)
    requires ExecInv(s, f, x) && Takes(s, t, picked)
    ensures ExecInv(t, f, x)
  {
    if x.job in picked { assert Eligible(s.jobs, s.now, x.job); }
  }

  lemma ClaimLeases(s: State, t: State, j: nat, worker: nat)
    requires t.cells == s.cells && t.now == s.now && j < |t.jobs| == |s.jobs| && JobFits(s.cells, s.jobs[j])
    requires t.jobs[j] == ClaimRow(s.jobs[j], worker, s.now, LeaseFor(s.jobs[j].kind, JOB_LEASE, SEND_LEASE))
    ensures ExecInv(t, Worker(j, s.jobs[j].attempts + 1), NewExec(j, s.jobs[j], worker, s.now))
  {
  }

  lemma ClaimKeeps(s: State, worker: nat, limit: nat, locked: set<nat>)
    requires Inv(s)
    ensures Inv(Apply(s, Claim(worker, limit, locked)))
  {
    var t := Apply(s, Claim(worker, limit, locked));
    ClaimKeepsJobs(s, worker, limit, locked);
    ClaimKeepsExecs(s, worker, limit, locked);
    forall e, f | e in t.execs && f in t.execs && e != f && t.execs[e].holdsLock && t.execs[f].holdsLock
      ensures t.execs[e].job != t.execs[f].job
    {
      assert e in s.execs && f in s.execs;
    }
  }

  lemma ClaimKeepsExecs(s: State, worker: nat, limit: nat, locked: set<nat>)
    requires Inv(s)
    ensures ExecsInv(Apply(s, Claim(worker, limit, locked)))
  {
    var picked := ToClaim(s.jobs, s.now, locked, limit);
    var t := Apply(s, Claim(worker, limit, locked));
    ClaimTakes(s, worker, limit, locked);
    var leased := NewExecs(s.jobs, picked, worker, s.now);
    assert t.execs == s.execs + leased;
    forall f | f in t.execs ensures ExecInv(t, f, t.execs[f]) {
      if f in leased {
        assert JobFits(s.cells, s.jobs[f.job]);
        ClaimLeases(s, t, f.job, worker);
      } else {
        ClaimSparesOthers(s, t, picked, f, s.execs[f]);
      }
    }
  }

  lemma ClaimKeepsJobs(s: State, worker: nat, limit: nat, locked: set<nat>)
    requires Inv(s)
    ensures JobsInv(s.(jobs := JobTable.Claimed(s.jobs, s.now, locked, limit, worker, JOB_LEASE, SEND_LEASE)))
  {
    var after := JobTable.Claimed(s.jobs, s.now, locked, limit, worker, JOB_LEASE, SEND_LEASE);
    ClaimKeepsTable(s.jobs, s.now, locked, limit, worker, JOB_LEASE, SEND_LEASE);
    forall j | 0 <= j < |after| ensures JobFits(s.cells, after[j]) {
      assert JobFits(s.cells, s.jobs[j]);
    }
  }

  lemma BeginKeeps(s: State, e: ExecId)
    requires Inv(s) && Enabled(s, Begin(e))
    ensures Inv(Apply(s, Begin(e)))
  {
    assert ExecInv(s, e, s.execs[e]);
    ExecMoves(s, e, Apply(s, Begin(e)).execs[e]);
  }

  /** A worker may stop short at any statement: its adapter returns, its deadline
      cancels it, or a statement raises. */
  lemma SettleKeeps(s: State, e: ExecId, outcome: Outcome)
    requires Inv(s) && e in s.execs && e.Worker?
    ensures Inv(s.(execs := s.execs[e := s.execs[e].(at := Settle(outcome))]))
  {
    assert ExecInv(s, e, s.execs[e]);
    ExecMoves(s, e, s.execs[e].(at := Settle(outcome)));
  }

  lemma AdapterBodyIsWorkers(s: State, e: ExecId)
    requires Inv(s) && e in s.execs && s.execs[e].at.AdapterBody?
    ensures e.Worker?
  {
    assert ExecInv(s, e, s.execs[e]);
  }

  lemma LoseLockKeeps(s: State, e: ExecId)
    requires Inv(s) && Enabled(s, LoseLock(e))
    ensures Inv(Apply(s, LoseLock(e)))
  {
    assert ExecInv(s, e, s.execs[e]);
    ExecMoves(s, e, Apply(s, LoseLock(e)).execs[e]);
  }

  lemma SelectStaleKeeps(s: State, serial: nat, j: nat)
    requires Inv(s) && Enabled(s, SelectStale(serial, j))
    ensures Inv(Apply(s, SelectStale(serial, j)))
  {
    var t := Apply(s, SelectStale(serial, j));
    assert JobFits(s.cells, s.jobs[j]);
    forall f | f in t.execs ensures ExecInv(t, f, t.execs[f]) {
      if f != Sweeper(serial) { assert ExecInv(s, f, s.execs[f]); }
    }
    forall f | f in s.execs && s.execs[f].holdsLock ensures s.execs[f].job != j {
      assert ExecInv(s, f, s.execs[f]);
    }
  }

  lemma TickKeeps(s: State, elapsed: nat)
    requires Inv(s)
    ensures Inv(s.(now := s.now + elapsed))
  {
    var t := s.(now := s.now + elapsed);
    forall x | 0 <= x < |s.cells| ensures CellInv(t.cells[x], t.now) && t.cells[x].key == x {
      TimeKeeps(s.cells[x], s.now, t.now, Load);
    }
    forall f | f in t.execs ensures ExecInv(t, f, t.execs[f]) {
      var x := s.execs[f];
      assert ExecInv(s, f, x);
      if f.Worker? && x.kind == SendJob { TimeKeeps(s.cells[x.ref], s.now, t.now, x.at); }
    }
  }

  lemma ApiStepKeeps(s: State, step: Step)
    requires Inv(s) && Enabled(s, step)
    requires step.SubmitSend? || step.EditDraft? || step.SubmitRun? || step.OperatorRetries? || step.OperatorAttests? || step.OperatorResends?
    ensures Inv(Apply(s, step))
  {
    match step {
      case SubmitSend(channel, connection, content, ceiling) => SubmitSendKeeps(s, channel, connection, content, ceiling);
      case EditDraft(x, content) => OperatorStepKeeps(s, x, Edit(content));
      case SubmitRun(run, ceiling) =>
        EnqueueKeeps(s, Enqueued(AdapterRun, run, Some(ForRun(run)), None, 0, s.now, ceiling));
      case OperatorRetries(x) => OperatorRebooks(s, x, RetryFailed, true);
      case OperatorAttests(x) => OperatorStepKeeps(s, x, AttestDelivered);
      case OperatorResends(x) => OperatorRebooks(s, x, Resend, false);
    }
  }

  lemma SweepStepKeeps(s: State, step: Step)
    requires Inv(s) && Enabled(s, step)
    requires step.SelectStale? || step.SweepFinish? || step.SweepAdapterRun? || step.LoseLock? || step.Crash? || step.Tick?
    ensures Inv(Apply(s, step))
  {
    match step {
      case SelectStale(serial, j) => SelectStaleKeeps(s, serial, j);
      case SweepFinish(e) => SweepFinishKeeps(s, e);
      case SweepAdapterRun(j) => SweepAdapterRunKeeps(s, j);
      case LoseLock(e) => LoseLockKeeps(s, e);
      case Crash(e) => CrashKeeps(s, e);
      case Tick(elapsed) => TickKeeps(s, elapsed);
    }
  }

  /** Every step keeps the invariant. */
  lemma StepKeeps(s: State, step: Step)
    requires Inv(s) && Enabled(s, step)
    ensures Inv(Apply(s, step))
  {
    match step {
      case Claim(worker, limit, locked) => ClaimKeeps(s, worker, limit, locked);
      case Begin(e) => BeginKeeps(s, e);
      case Act(e, a) => ActKeeps(s, e, a);
      case EndAdapter(e) => AdapterBodyIsWorkers(s, e); SettleKeeps(s, e, Returned);
      case Abort(e, cls) => SettleKeeps(s, e, RaisedError(cls));
      case Finish(e, delay) => FinishKeeps(s, e, delay);
      case _ =>
        if step.SelectStale? || step.SweepFinish? || step.SweepAdapterRun? || step.LoseLock? || step.Crash? || step.Tick? {
          SweepStepKeeps(s, step);
        } else {
          ApiStepKeeps(s, step);
        }
    }
  }

  /** The invariant holds in every state any run reaches. */
  lemma {:induction false} ReachableInv(steps: seq<Step>)
    ensures After(steps).Some? ==> Inv(After(steps).value)
  {
    if steps != [] {
      ReachableInv(steps[..|steps| - 1]);
      var before := After(steps[..|steps| - 1]);
      if before.Some? && Enabled(before.value, steps[|steps| - 1]) {
        StepKeeps(before.value, steps[|steps| - 1]);
      }
    }
  }
}
