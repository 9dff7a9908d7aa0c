/** What `failed_permanent` says of the provider's ledger. It says that nothing went
    out exactly when the row shows no dispatch: for every row with one, some run that
    no person forced ends with that row and a message out. */
module FailedSends {
  import opened Basics
  import opened SendRows
  import opened JobRows
  import opened JobTable
  import opened SendHandler
  import opened SendInvariant
  import opened SendSystem
  import opened SystemInvariant
  import opened SendSafety
  import opened RowShape

  // ------------------------------------------------------------------
  // States a run reaches, without a forced resend unless they show one
  // ------------------------------------------------------------------

  ghost predicate Unforced(steps: seq<Step>, x: nat) {
    After(steps).Some? && OperatorResends(x) !in steps
  }

  /** Nobody forced a resend of the first send. */
  predicate Calm(s: State) {
    |s.cells| > 0 ==> s.cells[0].tally.forced == 0
  }

  ghost predicate Leads(steps: seq<Step>, s: State) {
    After(steps) == Some(s) && (Calm(s) ==> OperatorResends(0) !in steps)
  }

  ghost predicate Reachable(s: State) {
    exists steps :: Leads(steps, s)
  }

  lemma StaysForced(s: State, step: Step)
    requires Enabled(s, step)
    ensures Calm(Apply(s, step)) ==> Calm(s)
  {
  }

  lemma StepOn(s: State, step: Step) returns (t: State)
    requires Reachable(s) && Enabled(s, step) && (step == OperatorResends(0) ==> !Calm(Apply(s, step)))
    ensures t == Apply(s, step) && Reachable(t)
  {
    var steps :| Leads(steps, s);
    assert (steps + [step])[..|steps|] == steps;
    StaysForced(s, step);
    t := Apply(s, step);
    assert Leads(steps + [step], t);
  }

  // ------------------------------------------------------------------
  // One send, its job, and sweepers that outlived their sweeps
  // ------------------------------------------------------------------

  /** The one job of the one send, claimed `k` times. */
  predicate OneJob(s: State, c: Cell, state: JobState, k: nat) {
    && s.cells == [c] && |s.jobs| == 1
    && s.jobs[0].kind == SendJob && s.jobs[0].ref == 0 && s.jobs[0].state == state && s.jobs[0].attempts == k
    && s.jobs[0].runAt <= s.now && k <= s.jobs[0].maxAttempts
  }

  predicate Loiters(s: State, i: nat, at: Point) {
    && Sweeper(i) in s.execs && s.execs[Sweeper(i)].at == at && s.execs[Sweeper(i)].ref == 0
  }

  ghost predicate Crowd(s: State, from: nat, m: nat, at: Point) {
    forall i: nat :: from <= i < m ==> Loiters(s, i, at)
  }

  lemma StayPut(s: State, t: State, from: nat, m: nat, p: Point)
    requires Crowd(s, from, m, p)
    requires forall e :: e in s.execs && e.Sweeper? && from <= e.serial < m ==> e in t.execs && t.execs[e] == s.execs[e]
    ensures Crowd(t, from, m, p)
  {
    forall i: nat | from <= i < m ensures Loiters(t, i, p) {
      assert Loiters(s, i, p);
    }
  }

  predicate NoLocks(s: State) {
    forall e :: e in s.execs ==> !s.execs[e].holdsLock
  }

  /** The job's claim number `k` is at a point, inside its deadline. */
  predicate AtWork(s: State, c: Cell, k: nat, at: Point) {
    && OneJob(s, c, Running, k) && s.jobs[0].claimedBy == Some(7)
    && Worker(0, k) in s.execs
    && var x := s.execs[Worker(0, k)];
       && x.job == 0 && x.ref == 0 && x.kind == SendJob && x.worker == 7 && x.attempts == k
       && x.at == at && s.now <= x.until <= x.lease
  }

  /** The state after a statement of the worker. */
  function Acted(s: State, k: nat, d: Cell, to: Point): State
    requires Worker(0, k) in s.execs
  {
    s.(cells := [d], execs := s.execs[Worker(0, k) := s.execs[Worker(0, k)].(at := to)])
  }

  /** Claim number `k` is at a point, inside its deadline, whatever jobs there are. */
  predicate OnDuty(s: State, c: Cell, k: nat, at: Point) {
    && s.cells == [c] && Worker(0, k) in s.execs
    && var x := s.execs[Worker(0, k)];
       x.ref == 0 && x.attempts == k && x.at == at && s.now <= x.until
  }

  lemma DutyActs(s: State, c: Cell, k: nat, at: Point, a: Answer, m: nat, p: Point) returns (t: State)
    requires Reachable(s) && OnDuty(s, c, k, at) && Crowd(s, 0, m, p)
    requires Handling(at) && Possible(c, at, a, s.now)
    ensures Reachable(t) && Crowd(t, 0, m, p)
    ensures t == Acted(s, k, Effect(c, at, a, s.now), Following(c, at, a, k, s.execs[Worker(0, k)].maxAttempts))
  {
    assert Enabled(s, Act(Worker(0, k), a));
    t := StepOn(s, Act(Worker(0, k), a));
    ActApplied(s, Worker(0, k), a);
    StayPut(s, t, 0, m, p);
  }

  lemma WorkerActs(s: State, c: Cell, k: nat, at: Point, a: Answer, m: nat, p: Point) returns (t: State)
    requires Reachable(s) && AtWork(s, c, k, at) && Crowd(s, 0, m, p)
    requires Handling(at) && Possible(c, at, a, s.now)
    ensures Reachable(t) && t.now == s.now && t.jobs == s.jobs && Crowd(t, 0, m, p)
    ensures AtWork(t, Effect(c, at, a, s.now), k, Following(c, at, a, k, s.execs[Worker(0, k)].maxAttempts))
  {
    t := DutyActs(s, c, k, at, a, m, p);
  }

  // ------------------------------------------------------------------
  // A claim dies undispatched, and the sweep leaves reconcilers behind
  // ------------------------------------------------------------------

  lemma TakesOnlyJob(jobs: seq<Job>, now: nat)
    requires |jobs| == 1 && Eligible(jobs, now, 0)
    ensures ToClaim(jobs, now, {}, 1) == {0}
  {
    ClaimTakesPartitionLeaders(jobs, now, {}, 1);
    var picked := ToClaim(jobs, now, {}, 1);
    assert forall i :: i in picked ==> Eligible(jobs, now, i);
    assert forall i :: i in picked ==> i == 0;
  }

  /** The state after the claim of the one job. */
  function Leasing(s: State, k: nat): State
    requires |s.jobs| == 1
  {
    s.(jobs := [ClaimRow(s.jobs[0], 7, s.now, SEND_LEASE)],
       execs := s.execs[Worker(0, k + 1) := NewExec(0, s.jobs[0], 7, s.now)])
  }

  lemma LeasesOne(s: State, k: nat)
    requires |s.jobs| == 1 && s.jobs[0].attempts == k
    ensures s.execs + NewExecs(s.jobs, {0}, 7, s.now) == s.execs[Worker(0, k + 1) := NewExec(0, s.jobs[0], 7, s.now)]
  {
    var leased := NewExecs(s.jobs, {0}, 7, s.now);
    assert forall e :: e in leased <==> e == Worker(0, k + 1);
  }

  lemma ClaimsOne(jobs: seq<Job>, now: nat)
    requires |jobs| == 1 && jobs[0].kind == SendJob && ToClaim(jobs, now, {}, 1) == {0}
    ensures Claimed(jobs, now, {}, 1, 7, JOB_LEASE, SEND_LEASE) == [ClaimRow(jobs[0], 7, now, SEND_LEASE)]
  {
  }

  lemma ClaimSteps(s: State)
    requires |s.jobs| == 1 && ToClaim(s.jobs, s.now, {}, 1) == {0}
    ensures Apply(s, Claim(7, 1, {}))
              == s.(jobs := Claimed(s.jobs, s.now, {}, 1, 7, JOB_LEASE, SEND_LEASE),
                    execs := s.execs + NewExecs(s.jobs, {0}, 7, s.now))
  {
  }

  lemma ClaimApplied(s: State, c: Cell, k: nat)
    requires OneJob(s, c, Ready, k) && k < s.jobs[0].maxAttempts
    ensures Apply(s, Claim(7, 1, {})) == Leasing(s, k)
  {
    TakesOnlyJob(s.jobs, s.now);
    ClaimSteps(s);
    LeasesOne(s, k);
    ClaimsOne(s.jobs, s.now);
  }

  lemma ClaimsIt(s: State, c: Cell, k: nat) returns (t: State)
    requires Reachable(s) && OneJob(s, c, Ready, k) && k < s.jobs[0].maxAttempts
    ensures Reachable(t) && t == Leasing(s, k)
  {
    ClaimApplied(s, c, k);
    t := StepOn(s, Claim(7, 1, {}));
  }

  /** The one job is claimed and its worker begins. */
  lemma TakesUp(s: State, c: Cell, k: nat, m: nat, p: Point) returns (t: State)
    requires Reachable(s) && OneJob(s, c, Ready, k) && k < s.jobs[0].maxAttempts && Crowd(s, 0, m, p)
    ensures Reachable(t) && t.now == s.now && AtWork(t, c, k + 1, Load) && Crowd(t, 0, m, p)
  {
    var leasing := ClaimsIt(s, c, k);
    t := StepOn(leasing, Begin(Worker(0, k + 1)));
    StayPut(s, t, 0, m, p);
  }

  const WAITING: Point := ReconcileLoad(Sweeping)

  function Unsent(channel: Channel): Cell {
    Cell(0, channel, 0, FRESH, Tally(0, 0, 0, 0, 0), 5, 5, [], map[])
  }

  /** The job's lease has run out, and `i` reconcilers have lost their sweeps. */
  ghost predicate Gathered(s: State, c: Cell, i: nat) {
    && OneJob(s, c, Running, 1) && s.jobs[0].maxAttempts == 2 && LeaseExpired(s.jobs[0], s.now)
    && NoLocks(s) && Crowd(s, 0, i, WAITING)
    && (forall e :: e in s.execs ==> e.Sweeper? && e.serial < i)
  }

  lemma Submits(channel: Channel) returns (t: State)
    ensures Reachable(t) && OneJob(t, Unsent(channel), Ready, 0) && t.jobs[0].maxAttempts == 2
    ensures t.execs == map[] && t.now == 0
  {
    assert Leads([], INITIAL);
    t := StepOn(INITIAL, SubmitSend(channel, 0, 5, 2));
    assert [] + [Unsent(channel)] == [Unsent(channel)];
  }

  /** The claim dies, and its lease runs out. */
  lemma Dies(channel: Channel, now: nat) returns (t: State)
    requires now >= LATER
    ensures Reachable(t) && Gathered(t, Unsent(channel), 0) && t.now == now
  {
    var s := Submits(channel);
    t := ClaimsIt(s, Unsent(channel), 0);
    t := StepOn(t, Crash(Worker(0, 1)));
    t := StepOn(t, Tick(now));
  }

  /** One more sweep holds the job's lock. */
  function Swept(s: State, m: nat, at: Point): State {
    s.(execs := s.execs[Sweeper(m) := Exec(0, SendJob, 0, 0, 1, 2, 0, 0, at, true)])
  }

  lemma SelectApplied(s: State, c: Cell, m: nat)
    requires Gathered(s, c, m)
    ensures Enabled(s, SelectStale(m, 0)) && Apply(s, SelectStale(m, 0)) == Swept(s, m, WAITING)
  {
  }

  /** One more reconciler outlives its sweep. */
  function Joined(s: State, i: nat): State {
    s.(execs := s.execs[Sweeper(i) := Exec(0, SendJob, 0, 0, 1, 2, 0, 0, WAITING, false)])
  }

  lemma LosesLock(s: State, i: nat)
    ensures var found := Swept(s, i, WAITING);
            Enabled(found, LoseLock(Sweeper(i))) && Apply(found, LoseLock(Sweeper(i))) == Joined(s, i)
  {
    assert Apply(Swept(s, i, WAITING), LoseLock(Sweeper(i))).execs == Joined(s, i).execs;
  }

  lemma JoinedGathered(s: State, c: Cell, i: nat)
    requires Gathered(s, c, i)
    ensures Gathered(Joined(s, i), c, i + 1)
  {
    var t := Joined(s, i);
    StayPut(s, t, 0, i, WAITING);
    assert Loiters(t, i, WAITING);
  }

  lemma OneMoreGathers(s: State, c: Cell, i: nat) returns (t: State)
    requires Reachable(s) && Gathered(s, c, i)
    ensures Reachable(t) && t == Joined(s, i)
  {
    SelectApplied(s, c, i);
    t := StepOn(s, SelectStale(i, 0));
    LosesLock(s, i);
    t := StepOn(t, LoseLock(Sweeper(i)));
  }

  lemma GathersNext(s: State, channel: Channel, i: nat) returns (t: State)
    requires Reachable(s) && Gathered(s, Unsent(channel), i)
    ensures Reachable(t) && Gathered(t, Unsent(channel), i + 1) && t.now == s.now
  {
    t := OneMoreGathers(s, Unsent(channel), i);
    JoinedGathered(s, Unsent(channel), i);
  }

  lemma {:induction false} Gather(channel: Channel, now: nat, m: nat) returns (t: State)
    requires now >= LATER
    ensures Reachable(t) && Gathered(t, Unsent(channel), m) && t.now == now
  {
    if m == 0 {
      t := Dies(channel, now);
    } else {
      var s := Gather(channel, now, m - 1);
      t := GathersNext(s, channel, m - 1);
    }
  }

  lemma FindsUnsent(s: State, channel: Channel, m: nat)
    requires Gathered(s, Unsent(channel), m)
    ensures var found := Swept(s, m, WAITING);
            && Enabled(found, Act(Sweeper(m), Done))
            && Apply(found, Act(Sweeper(m), Done)) == Swept(s, m, SweepEnd(SafeToDispatch))
  {
    ActApplied(Swept(s, m, WAITING), Sweeper(m), Done);
  }

  lemma RequeueApplied(s: State, c: Cell, m: nat)
    requires Gathered(s, c, m)
    ensures var swept := Swept(s, m, SweepEnd(SafeToDispatch));
            && Enabled(swept, SweepFinish(Sweeper(m)))
            && Apply(swept, SweepFinish(Sweeper(m))) == s.(jobs := [Requeue(s.jobs[0], s.now)])
  {
    assert s.execs[Sweeper(m) := Exec(0, SendJob, 0, 0, 1, 2, 0, 0, SweepEnd(SafeToDispatch), true)] - {Sweeper(m)} == s.execs;
  }

  /** One more sweep finds the send undispatched and puts its job back. */
  lemma PutBack(s: State, channel: Channel, m: nat) returns (t: State)
    requires Reachable(s) && Gathered(s, Unsent(channel), m)
    ensures Reachable(t) && OneJob(t, Unsent(channel), Ready, 1) && t.jobs[0].maxAttempts == 2 && t.now == s.now
    ensures Crowd(t, 0, m, WAITING)
  {
    SelectApplied(s, Unsent(channel), m);
    t := StepOn(s, SelectStale(m, 0));
    FindsUnsent(s, channel, m);
    t := StepOn(t, Act(Sweeper(m), Done));
    RequeueApplied(s, Unsent(channel), m);
    t := StepOn(t, SweepFinish(Sweeper(m)));
    StayPut(s, t, 0, m, WAITING);
  }

  // ------------------------------------------------------------------
  // Dispatch, fail for good, be retried: as often as wanted
  // ------------------------------------------------------------------

  /** In flight, nothing out; `o` is the draft a Gmail send goes out from. */
  predicate Clean(c: Cell, o: Option<nat>) {
    && c.row.state == InFlight && c.row.messageId.None? && c.row.deliveredAt.None? && c.sent == [] && c.tally.forced == 0
    && c.channel == (if o.Some? then Gmail else Fake)
  }

  predicate Standing(c: Cell, o: Option<nat>, n: nat, since: nat) {
    && Clean(c, o) && c.row.attempts == n && c.row.dispatchedAt == Some(since)
    && c.row.draftId == o && (o.Some? ==> o.value in c.drafts)
  }

  /** About to be loaded after `n` dispatches. */
  predicate Trying(c: Cell, o: Option<nat>, n: nat, since: nat) {
    && c.row.reconcileAttempts == 0
    && if n == 0 then Clean(c, o) && c.row == FRESH && c.drafts == map[] else Standing(c, o, n, since)
  }

  /** The least number of probes that `n` dispatches leave on the row. */
  function Probed(n: nat): nat {
    if n <= 1 then 0 else 1
  }

  /** Dispatched for the `n`th time, and nothing out. */
  predicate Committed(c: Cell, o: Option<nat>, n: nat, since: nat) {
    Standing(c, o, n, since) && c.row.reconcileAttempts == Probed(n)
  }

  /** The worker is about to make the call of dispatch `n`. */
  ghost predicate AboutToCall(s: State, c: Cell, o: Option<nat>, n: nat, m: nat) {
    && Reachable(s) && AtWork(s, c, n + 1, Call(o, 0, c.content)) && Committed(c, o, n, s.now) && Crowd(s, 0, m, WAITING)
  }

  lemma FirstPrepares(s: State, o: Option<nat>, m: nat) returns (t: State, d: Cell)
    requires Reachable(s) && Crowd(s, 0, m, WAITING)
    requires var c := Unsent(if o.Some? then Gmail else Fake); AtWork(s, c, 2, Load)
    ensures t.now == s.now && Reachable(t) && Crowd(t, 0, m, WAITING)
    ensures AtWork(t, d, 2, SendHandler.Commit(o, true, 0, d.content))
    ensures Clean(d, o) && d.row == FRESH && (o.Some? ==> o.value in d.drafts)
  {
    var c := Unsent(if o.Some? then Gmail else Fake);
    t := WorkerActs(s, c, 2, Load, Done, m, WAITING);
    t := WorkerActs(t, c, 2, Prepare(None, true, 0), Prepared(o), m, WAITING);
    d := Effect(c, Prepare(None, true, 0), Prepared(o), s.now);
  }

  lemma FirstCall(s: State, o: Option<nat>, m: nat) returns (t: State, d: Cell)
    requires Reachable(s) && Crowd(s, 0, m, WAITING)
    requires var c := Unsent(if o.Some? then Gmail else Fake); AtWork(s, c, 2, Load)
    ensures t.now == s.now && AboutToCall(t, d, o, 1, m)
  {
    t, d := FirstPrepares(s, o, m);
    t := WorkerActs(t, d, 2, SendHandler.Commit(o, true, 0, d.content), Done, m, WAITING);
    d := Effect(d, SendHandler.Commit(o, true, 0, d.content), Done, s.now);
  }

  /** A later claim loads a dispatched row, which must be reconciled. */
  lemma LoadsAgain(s: State, c: Cell, o: Option<nat>, n: nat, m: nat) returns (t: State)
    requires n > 0 && Reachable(s) && AtWork(s, c, n + 2, Load) && Trying(c, o, n, s.now) && Crowd(s, 0, m, WAITING)
    ensures t.now == s.now && Reachable(t) && Crowd(t, 0, m, WAITING)
    ensures AtWork(t, c, n + 2, ReconcileBump(Dispatching(o), o, s.now))
  {
    t := WorkerActs(s, c, n + 2, Load, Done, m, WAITING);
    t := WorkerActs(t, c, n + 2, ReconcileLoad(Dispatching(o)), Done, m, WAITING);
  }

  lemma ToldNothing(c: Cell, o: Option<nat>, n: nat, now: nat, k: nat)
    requires Standing(c, o, n, now)
    ensures var at := ReconcileProbe(Dispatching(o), 1, o, now);
            var a := if o.Some? then DraftLookup(true) else LedgerLookup(false);
            && Possible(c, at, a, now) && Effect(c, at, a, now) == c
            && forall most: nat :: Following(c, at, a, k, most) == ReconcileAbsent(Dispatching(o))
  {
  }

  /** It probes, and is told that nothing went out. */
  lemma ProbesFirst(s: State, c: Cell, o: Option<nat>, n: nat, m: nat) returns (t: State, d: Cell)
    requires n > 0 && Reachable(s) && AtWork(s, c, n + 2, ReconcileBump(Dispatching(o), o, s.now)) && Crowd(s, 0, m, WAITING)
    requires Trying(c, o, n, s.now)
    ensures t.now == s.now && Reachable(t) && AtWork(t, d, n + 2, ReconcileAbsent(Dispatching(o))) && Crowd(t, 0, m, WAITING)
    ensures Standing(d, o, n, s.now) && d.row.reconcileAttempts == 1
  {
    var bump := ReconcileBump(Dispatching(o), o, s.now);
    t := WorkerActs(s, c, n + 2, bump, Done, m, WAITING);
    d := Effect(c, bump, Done, s.now);
    ToldNothing(d, o, n, s.now, n + 2);
    t := WorkerActs(t, d, n + 2, ReconcileProbe(Dispatching(o), 1, o, s.now),
                    if o.Some? then DraftLookup(true) else LedgerLookup(false), m, WAITING);
  }

  lemma PreparesAgain(s: State, c: Cell, o: Option<nat>, n: nat, m: nat) returns (t: State, d: Cell)
    requires n > 0 && Reachable(s) && AtWork(s, c, n + 2, ReconcileAbsent(Dispatching(o))) && Crowd(s, 0, m, WAITING)
    requires Standing(c, o, n, s.now) && c.row.reconcileAttempts == 1
    ensures t.now == s.now && Reachable(t) && Crowd(t, 0, m, WAITING)
    ensures AtWork(t, d, n + 2, SendHandler.Commit(o, false, 0, d.content))
    ensures Standing(d, o, n, s.now) && d.row.reconcileAttempts == 1
  {
    t := WorkerActs(s, c, n + 2, ReconcileAbsent(Dispatching(o)), Done, m, WAITING);
    d := c.(row := RecordError(c.row, Transient));
    t := WorkerActs(t, d, n + 2, Prepare(o, false, 0), Prepared(o), m, WAITING);
  }

  lemma CommitsAgain(s: State, c: Cell, o: Option<nat>, n: nat, m: nat) returns (t: State, d: Cell)
    requires n > 0 && Reachable(s) && AtWork(s, c, n + 2, SendHandler.Commit(o, false, 0, c.content)) && Crowd(s, 0, m, WAITING)
    requires Standing(c, o, n, s.now) && c.row.reconcileAttempts == 1
    ensures t.now == s.now && AboutToCall(t, d, o, n + 1, m)
  {
    t := WorkerActs(s, c, n + 2, SendHandler.Commit(o, false, 0, c.content), Done, m, WAITING);
    d := Effect(c, SendHandler.Commit(o, false, 0, c.content), Done, s.now);
  }

  /** Dispatch `n + 1`: load, probe, prepare, commit. */
  lemma CallsAgain(s: State, c: Cell, o: Option<nat>, n: nat, m: nat) returns (t: State, d: Cell)
    requires n > 0 && Reachable(s) && AtWork(s, c, n + 2, Load) && Trying(c, o, n, s.now) && Crowd(s, 0, m, WAITING)
    ensures t.now == s.now && AboutToCall(t, d, o, n + 1, m)
  {
    var loaded := LoadsAgain(s, c, o, n, m);
    var probed, e := ProbesFirst(loaded, c, o, n, m);
    var prepared, f := PreparesAgain(probed, e, o, n, m);
    t, d := CommitsAgain(prepared, f, o, n, m);
  }

  /** The provider refuses; the worker records it, and Gmail does not answer when it is
      asked to discard the draft. */
  lemma Refused(s: State, c: Cell, o: Option<nat>, n: nat, m: nat) returns (t: State, d: Cell)
    requires n > 0 && AboutToCall(s, c, o, n, m)
    ensures t.now == s.now && Reachable(t) && AtWork(t, d, n + 1, Settle(RaisedError(Permanent))) && Crowd(t, 0, m, WAITING)
    ensures d.row == SetTerminal(c.row, FailedPermanent, Permanent) && d.sent == [] && d.drafts == c.drafts
    ensures d.channel == c.channel && d.tally.forced == 0
  {
    t := WorkerActs(s, c, n + 1, Call(o, 0, c.content), Raised(Permanent, None), m, WAITING);
    d := Effect(c, Call(o, 0, c.content), Raised(Permanent, None), s.now);
    t := WorkerActs(t, d, n + 1, FailForGood(Permanent, o), Done, m, WAITING);
    d := d.(row := SetTerminal(c.row, FailedPermanent, Permanent));
    if o.Some? {
      t := WorkerActs(t, d, n + 1, DiscardDraft(Permanent, o.value), Raised(Transient, None), m, WAITING);
    }
  }

  /** The worker finishes its job, and an operator retries the send. */
  lemma Retried(s: State, c: Cell, k: nat, m: nat) returns (t: State, d: Cell)
    requires Reachable(s) && AtWork(s, c, k, Settle(RaisedError(Permanent))) && Crowd(s, 0, m, WAITING) && Failed(c.row)
    ensures Reachable(t) && t.now == s.now && OneJob(t, d, Ready, k) && k < t.jobs[0].maxAttempts && Crowd(t, 0, m, WAITING)
    ensures d == Operate(c, RetryFailed, s.now)
  {
    var done := StepOn(s, Finish(Worker(0, k), 0));
    StayPut(s, done, 0, m, WAITING);
    assert LatestJob(done.jobs, 0) == Some(0);
    t := StepOn(done, OperatorRetries(0));
    d := Operate(c, RetryFailed, s.now);
    StayPut(done, t, 0, m, WAITING);
  }

  lemma FirstRound(o: Option<nat>, now: nat, m: nat) returns (t: State, d: Cell)
    requires now >= LATER
    ensures t.now == now && AboutToCall(t, d, o, 1, m)
  {
    var channel := if o.Some? then Gmail else Fake;
    var s := Gather(channel, now, m);
    s := PutBack(s, channel, m);
    s := TakesUp(s, Unsent(channel), 1, m, WAITING);
    t, d := FirstCall(s, o, m);
  }

  /** From one call to the next: refused, failed for good, retried, dispatched again. */
  lemma NextRound(s: State, c: Cell, o: Option<nat>, n: nat, m: nat) returns (t: State, d: Cell)
    requires n > 0 && AboutToCall(s, c, o, n, m)
    ensures t.now == s.now && AboutToCall(t, d, o, n + 1, m)
  {
    var failed, f := FailsAndRetries(s, c, o, n, m);
    var begun := TakesUp(failed, f, n + 1, m, WAITING);
    t, d := CallsAgain(begun, f, o, n, m);
  }

  lemma FailsAndRetries(s: State, c: Cell, o: Option<nat>, n: nat, m: nat) returns (t: State, d: Cell)
    requires n > 0 && AboutToCall(s, c, o, n, m)
    ensures t.now == s.now && Reachable(t) && Crowd(t, 0, m, WAITING)
    ensures OneJob(t, d, Ready, n + 1) && n + 1 < t.jobs[0].maxAttempts && Trying(d, o, n, s.now)
  {
    var u, f := Refused(s, c, o, n, m);
    t, d := Retried(u, f, n + 1, m);
  }

  /** After any number of dispatches, about to make the last call. */
  lemma {:induction false} Rounds(o: Option<nat>, n: nat, now: nat, m: nat) returns (t: State, d: Cell)
    requires n > 0 && now >= LATER
    ensures t.now == now && AboutToCall(t, d, o, n, m)
  {
    if n == 1 {
      t, d := FirstRound(o, now, m);
    } else {
      var s, c := Rounds(o, n - 1, now, m);
      t, d := NextRound(s, c, o, n - 1, m);
    }
  }

  // ------------------------------------------------------------------
  // The last call: the message goes out, and the answer is lost
  // ------------------------------------------------------------------

  lemma SweeperActs(s: State, c: Cell, i: nat, at: Point, a: Answer) returns (t: State)
    requires Reachable(s) && s.cells == [c] && Loiters(s, i, at) && Handling(at) && Possible(c, at, a, s.now)
    ensures var x := s.execs[Sweeper(i)];
            t == s.(cells := [Effect(c, at, a, s.now)],
                    execs := s.execs[Sweeper(i) := x.(at := Following(c, at, a, x.attempts, x.maxAttempts))])
    ensures Reachable(t)
  {
    assert Enabled(s, Act(Sweeper(i), a));
    t := StepOn(s, Act(Sweeper(i), a));
    ActApplied(s, Sweeper(i), a);
  }

  /** Where a reconciler is that has just read the dispatched row. */
  function Bumping(o: Option<nat>, since: nat): Point {
    ReconcileBump(Sweeping, o, since)
  }

  /** One of the reconcilers reads the row. */
  lemma OneReads(s: State, c: Cell, o: Option<nat>, since: nat, i: nat) returns (t: State)
    requires Reachable(s) && s.cells == [c] && Loiters(s, i, WAITING)
    requires c.row.state == InFlight && c.row.dispatchedAt == Some(since) && c.row.draftId == o && c.row.reconcileAttempts <= 1
    ensures Reachable(t) && Sweeper(i) in s.execs
    ensures t == s.(execs := s.execs[Sweeper(i) := s.execs[Sweeper(i)].(at := Bumping(o, since))])
  {
    t := SweeperActs(s, c, i, WAITING, Done);
  }

  lemma CrowdMoves(s: State, t: State, i: nat, m: nat, p: Point, q: Point)
    requires i < m && Crowd(s, 0, i, q) && Crowd(s, i, m, p) && Sweeper(i) in s.execs
    requires t == s.(execs := s.execs[Sweeper(i) := s.execs[Sweeper(i)].(at := q)])
    ensures Crowd(t, 0, i + 1, q) && Crowd(t, i + 1, m, p)
  {
    StayPut(s, t, 0, i, q);
    StayPut(s, t, i + 1, m, p);
    assert Loiters(s, i, p);
  }

  /** The first `i` of the reconcilers have read the row. */
  ghost predicate PartRead(s: State, c: Cell, o: Option<nat>, n: nat, m: nat, i: nat) {
    && Reachable(s) && AtWork(s, c, n + 1, Call(o, 0, c.content))
    && Crowd(s, 0, i, Bumping(o, s.now)) && Crowd(s, i, m, WAITING)
  }

  lemma OneMoreReads(s: State, c: Cell, o: Option<nat>, n: nat, m: nat, i: nat) returns (t: State)
    requires n > 0 && i < m && PartRead(s, c, o, n, m, i) && Committed(c, o, n, s.now)
    ensures t.now == s.now && PartRead(t, c, o, n, m, i + 1)
  {
    assert Loiters(s, i, WAITING);
    t := OneReads(s, c, o, s.now, i);
    CrowdMoves(s, t, i, m, WAITING, Bumping(o, s.now));
    StaysAtWork(s, c, n + 1, Call(o, 0, c.content), i, t);
  }

  lemma StaysAtWork(s: State, c: Cell, k: nat, at: Point, i: nat, t: State)
    requires AtWork(s, c, k, at) && Sweeper(i) in s.execs && Sweeper(i) in t.execs
    requires t == s.(execs := s.execs[Sweeper(i) := t.execs[Sweeper(i)]])
    ensures AtWork(t, c, k, at)
  {
  }

  lemma {:induction false} AllRead(s: State, c: Cell, o: Option<nat>, n: nat, m: nat, i: nat) returns (t: State)
    requires n > 0 && AboutToCall(s, c, o, n, m) && i <= m
    ensures t.now == s.now && PartRead(t, c, o, n, m, i)
  {
    if i == 0 {
      t := s;
    } else {
      var u := AllRead(s, c, o, n, m, i - 1);
      t := OneMoreReads(u, c, o, n, m, i - 1);
    }
  }

  /** After `n` dispatches the last call is being made, and `m` reconcilers have read the row. */
  lemma CallsWatched(o: Option<nat>, n: nat, since: nat, m: nat) returns (t: State, c: Cell)
    requires n > 0 && since >= LATER
    ensures Reachable(t) && t.now == since && Crowd(t, 0, m, Bumping(o, since))
    ensures AtWork(t, c, n + 1, Call(o, 0, c.content)) && OnDuty(t, c, n + 1, Call(o, 0, c.content))
    ensures Committed(c, o, n, since)
  {
    var s: State;
    s, c := Rounds(o, n, since, m);
    t := AllRead(s, c, o, n, m, m);
  }

  /** The provider takes the message, the answer is lost, and the worker records a failure. */
  lemma LosesAnswer(s: State, c: Cell, o: Option<nat>, k: nat, m: nat, p: Point, cls: ErrorClass)
    returns (t: State, d: Cell)
    requires cls != Transient && Reachable(s) && OnDuty(s, c, k, Call(o, 0, c.content)) && Crowd(s, 0, m, p)
    requires c.sent == [] && c.channel == (if o.Some? then Gmail else Fake) && (o.Some? ==> o.value in c.drafts)
    ensures Reachable(t) && t.cells == [d] && Crowd(t, 0, m, p)
    ensures |d.sent| == 1 && d.row == SetTerminal(c.row, FailedPermanent, cls) && d.tally.forced == c.tally.forced
  {
    var accepted := Accepted(9, s.now, Some(cls));
    t := DutyActs(s, c, k, Call(o, 0, c.content), accepted, m, p);
    d := Effect(c, Call(o, 0, c.content), accepted, s.now);
    t := DutyActs(t, d, k, FailForGood(cls, o), Done, m, p);
    d := d.(row := SetTerminal(c.row, FailedPermanent, cls));
  }

  /** The reconcilers count their probes on the row, which is terminal by now: the one
      statement without a state guard. */
  lemma {:induction false} Bumps(s: State, c: Cell, m: nat, i: nat, o: Option<nat>, since: nat) returns (t: State, d: Cell)
    requires Reachable(s) && s.cells == [c] && i <= m && Crowd(s, 0, m, Bumping(o, since))
    ensures Reachable(t) && t.cells == [d] && Crowd(t, i, m, Bumping(o, since))
    ensures d.sent == c.sent && d.tally == c.tally && d.row == c.row.(reconcileAttempts := c.row.reconcileAttempts + i)
  {
    if i == 0 {
      t, d := s, c;
    } else {
      var u, f := Bumps(s, c, m, i - 1, o, since);
      assert Loiters(u, i - 1, Bumping(o, since));
      t := SweeperActs(u, f, i - 1, Bumping(o, since), Done);
      d := Effect(f, Bumping(o, since), Done, u.now);
      StayPut(u, t, i, m, Bumping(o, since));
    }
  }

  /** The row that `n` dispatches and `m` late reconcilers leave behind. */
  function Remains(o: Option<nat>, n: nat, since: nat, m: nat, cls: ErrorClass): Row {
    Row(FailedPermanent, o, None, n, Probed(n) + m, Some(since), None, Some(cls))
  }

  lemma GoesOut(o: Option<nat>, n: nat, since: nat, m: nat, cls: ErrorClass) returns (steps: seq<Step>)
    requires n > 0 && since >= LATER && cls != Transient
    ensures Ends(steps, 0, Remains(o, n, since, m, cls)) && |After(steps).value.cells[0].sent| == 1
  {
    var u, c := CallsWatched(o, n, since, m);
    var v, f := LosesAnswer(u, c, o, n + 1, m, Bumping(o, since), cls);
    var t, d := Bumps(v, f, m, m, o, since);
    steps :| Leads(steps, t);
  }

  // ------------------------------------------------------------------
  // Exactly when the row tells
  // ------------------------------------------------------------------

  /** A run without a forced resend of the send `x` ends with this row. */
  ghost predicate Ends(steps: seq<Step>, x: nat, row: Row) {
    Unforced(steps, x) && x < |After(steps).value.cells| && After(steps).value.cells[x].row == row
  }

  /** Whoever reads the row may be certain that nothing went out. */
  ghost predicate Certain(row: Row) {
    forall steps, x: nat :: Ends(steps, x, row) ==> After(steps).value.cells[x].sent == []
  }

  /** The same row, dispatched later by the clock. */
  function Later(row: Row, delay: nat): Row {
    if row.dispatchedAt.None? then row else row.(dispatchedAt := Some(row.dispatchedAt.value + delay))
  }

  lemma {:induction false} UncountedWhenAbsent(steps: seq<Step>, step: Step)
    requires step !in steps
    ensures CountOf(steps, step) == 0
  {
    if steps != [] {
      UncountedWhenAbsent(steps[..|steps| - 1], step);
    }
  }

  lemma UnforcedKnows(steps: seq<Step>, x: nat)
    requires Unforced(steps, x) && x < |After(steps).value.cells|
    ensures var (s, c) := (After(steps).value, After(steps).value.cells[x]);
            CellInv(c, s.now) && Shape(c) && c.tally.forced == 0
  {
    ReachableInv(steps);
    AllShapely(steps);
    TalliesCount(steps, x);
    UncountedWhenAbsent(steps, OperatorResends(x));
  }

  lemma UndispatchedIsCertain(row: Row)
    requires row.dispatchedAt.None?
    ensures Certain(row)
  {
    forall steps, x: nat | Ends(steps, x, row) ensures After(steps).value.cells[x].sent == [] {
      UnforcedKnows(steps, x);
      RowTruthful(After(steps).value.cells[x], After(steps).value.now);
    }
  }

  /** Every row of the kind that arises is one the runs above end with. */
  lemma IsRemains(row: Row, delay: nat)
    requires row.state == FailedPermanent && row.dispatchedAt.Some? && exists steps, x: nat :: Ends(steps, x, row)
    ensures row.attempts > 0 && row.reconcileAttempts >= Probed(row.attempts)
    ensures row.lastError.Some? && row.lastError.value != Transient
    ensures Later(row, delay) == Remains(row.draftId, row.attempts, row.dispatchedAt.value + delay,
                                         row.reconcileAttempts - Probed(row.attempts), row.lastError.value)
  {
    var steps, x: nat :| Ends(steps, x, row);
    UnforcedKnows(steps, x);
  }

  /** A send that shows `failed_permanent` went nowhere, for certain, exactly when its row
      shows no dispatch. For every row with a dispatch that a run without a forced
      resend of its send ends with, another such run ends with the same row and a
      message out, whatever else the row shows; the instant of the dispatch need only be
      later than one lease after the clock began. */
  lemma FailedPermanentIsUnsentExactly(row: Row)
    requires row.state == FailedPermanent && exists steps, x: nat :: Ends(steps, x, row)
    ensures (forall delay: nat :: Certain(Later(row, delay))) <==> row.dispatchedAt.None?
    ensures row.dispatchedAt.Some? && row.dispatchedAt.value >= LATER ==> !Certain(row)
  {
    if row.dispatchedAt.None? {
      UndispatchedIsCertain(row);
    } else {
      StaysOpen(row, LATER);
      if row.dispatchedAt.value >= LATER {
        StaysOpen(row, 0);
        assert Later(row, 0) == row;
      }
    }
  }

  lemma StaysOpen(row: Row, delay: nat)
    requires row.state == FailedPermanent && row.dispatchedAt.Some? && exists steps, x: nat :: Ends(steps, x, row)
    requires row.dispatchedAt.value + delay >= LATER
    ensures !Certain(Later(row, delay))
  {
    IsRemains(row, delay);
    var steps := GoesOut(row.draftId, row.attempts, row.dispatchedAt.value + delay,
                         row.reconcileAttempts - Probed(row.attempts), row.lastError.value);
    assert Ends(steps, 0, Later(row, delay));
  }
}
