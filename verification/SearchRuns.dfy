/** A search fanned out into runs, each handled in commits of its own, and the
    step that closes it (`packages/core/adapters/orchestrator.py`,
    `packages/core/jobs/handlers.py`). */
module SearchRuns {
  import opened Basics

  datatype Status = Pending | Running | Done | Failed | NeedsReconnect

  /** The run's job: waiting to be claimed, leased to its latest claim, or over. */
  datatype Work = Waiting | Leased(serial: nat) | Over

  datatype Run = Run(status: Status, count: nat, work: Work, attempts: nat, maxAttempts: nat)

  /** A row of `search_results`. */
  datatype Stored = Stored(run: nat, item: string)

  /** One claim of a run's job, numbered by its attempt. Several may be alive at once, after
      a lease ran out, but only the latest can still write (`InTime`). */
  datatype Handler = Handler(run: nat, serial: nat)

  /** Where a handler is, and what it will have raised when it ends. */
  datatype Phase = Starting | Searching | Closing | Reporting(raised: Option<ErrorClass>)

  /** `raised` is what the run failed with, once it has. */
  datatype Active = Active(phase: Phase, raised: Option<ErrorClass>)

  datatype Search = Search(finished: bool, runs: seq<Run>, results: seq<Stored>, active: map<Handler, Active>)

  /** What one commit does; an adapter's answer marks what it could not normalize. `Raise` is
      an exception anywhere outside the adapter call, `Expire` the sweep of a lease. */
  datatype Step =
    | Claim(run: nat)
    | Start(h: Handler)
    | Succeed(h: Handler, answer: seq<Option<string>>)
    | Fail(h: Handler, why: ErrorClass)
    | Close(h: Handler)
    | Raise(h: Handler, cls: ErrorClass)
    | Report(h: Handler)
    | Expire(run: nat)
    | Die(h: Handler)

  /** How many runs, and how many attempts each of their jobs has. */
  datatype Plan = Plan(sources: nat, ceiling: nat)

  predicate Outstanding(s: Status) {
    s == Pending || s == Running
  }

  predicate Quiet(runs: seq<Run>) {
    forall i :: 0 <= i < |runs| ==> !Outstanding(runs[i].status)
  }

  /** `plan_search` writes the search, its runs and their jobs together. */
  function Planned(plan: Plan): Search {
    Search(false, seq(plan.sources, _ => Run(Pending, 0, Waiting, 0, plan.ceiling)), [], map[])
  }

  function Kept(answer: seq<Option<string>>): seq<string> {
    if answer == [] then []
    else Kept(answer[..|answer| - 1]) + if answer[|answer| - 1].Some? then [answer[|answer| - 1].value] else []
  }

  function RowsOf(results: seq<Stored>, run: nat): seq<string> {
    if results == [] then []
    else
      RowsOf(results[..|results| - 1], run)
      + if results[|results| - 1].run == run then [results[|results| - 1].item] else []
  }

  function Others(results: seq<Stored>, run: nat): seq<Stored> {
    if results == [] then []
    else
      Others(results[..|results| - 1], run)
      + if results[|results| - 1].run != run then [results[|results| - 1]] else []
  }

  function Tagged(run: nat, items: seq<string>): seq<Stored> {
    if items == [] then [] else Tagged(run, items[..|items| - 1]) + [Stored(run, items[|items| - 1])]
  }

  /** The ladder of the job queue, read with the attempts of the claim. */
  predicate WillRetry(why: ErrorClass, h: Handler, r: Run) {
    why == Transient && h.serial < r.maxAttempts
  }

  predicate InPhase(s: Search, h: Handler, phase: Phase) {
    h.run < |s.runs| && h in s.active && s.active[h].phase == phase
  }

  /** The claim's lease has not run out. A handler's deadline falls inside its lease, so all
      its transactions do. */
  predicate InTime(s: Search, h: Handler) {
    h.run < |s.runs| && s.runs[h.run].work == Leased(h.serial)
  }

  predicate Enabled(s: Search, step: Step) {
    match step
    case Claim(run) => run < |s.runs| && s.runs[run].work == Waiting && s.runs[run].attempts < s.runs[run].maxAttempts
    case Start(h) => InPhase(s, h, Starting) && InTime(s, h)
    case Succeed(h, _) => InPhase(s, h, Searching) && InTime(s, h)
    case Fail(h, _) => InPhase(s, h, Searching) && InTime(s, h)
    case Close(h) => InPhase(s, h, Closing) && InTime(s, h)
    case Raise(h, _) => h.run < |s.runs| && h in s.active && !s.active[h].phase.Reporting?
    case Report(h) => h.run < |s.runs| && h in s.active && s.active[h].phase.Reporting?
    case Expire(run) => run < |s.runs| && s.runs[run].work.Leased?
    case Die(h) => h in s.active
  }

  function WithStatus(s: Search, run: nat, status: Status): Search
    requires run < |s.runs|
  {
    s.(runs := s.runs[run := s.runs[run].(status := status)])
  }

  function WithWork(s: Search, run: nat, work: Work): Search
    requires run < |s.runs|
  {
    s.(runs := s.runs[run := s.runs[run].(work := work)])
  }

  function Moved(s: Search, h: Handler, phase: Phase): Search
    requires h in s.active
  {
    s.(active := s.active[h := s.active[h].(phase := phase)])
  }

  function Gone(s: Search, h: Handler): Search {
    s.(active := s.active - {h})
  }

  /** What a claim's report makes of its job. */
  function Reported(r: Run, h: Handler, raised: Option<ErrorClass>): Work {
    if r.work != Leased(h.serial) then r.work
    else if raised.Some? && WillRetry(raised.value, h, r) then Waiting
    else Over
  }

  function Apply(s: Search, step: Step): Search
    requires Enabled(s, step)
  {
    match step
    case Claim(run) =>
      var r := s.runs[run];
      s.(runs := s.runs[run := r.(work := Leased(r.attempts + 1), attempts := r.attempts + 1)],
         active := s.active[Handler(run, r.attempts + 1) := Active(Starting, None)])
    case Start(h) => Moved(WithStatus(s, h.run, Running), h, Searching)
    case Succeed(h, answer) =>
      Moved(s, h, Closing).(
        runs := s.runs[h.run := s.runs[h.run].(status := Done, count := |Kept(answer)|)],
        results := Others(s.results, h.run) + Tagged(h.run, Kept(answer)))
    case Fail(h, why) =>
      var failed := WithStatus(s, h.run, if why == ErrorClass.NeedsReconnect then Status.NeedsReconnect else Failed);
      if WillRetry(why, h, s.runs[h.run]) then Moved(failed, h, Reporting(Some(why)))
      else failed.(active := s.active[h := Active(Closing, Some(why))])
    case Close(h) => Moved(s, h, Reporting(s.active[h].raised)).(finished := s.finished || Quiet(s.runs))
    case Raise(h, cls) => Moved(s, h, Reporting(Some(cls)))
    case Report(h) => Gone(WithWork(s, h.run, Reported(s.runs[h.run], h, s.active[h].phase.raised)), h)
    case Expire(run) =>
      WithWork(s, run, if s.runs[run].attempts < s.runs[run].maxAttempts then Waiting else Over)
    case Die(h) => Gone(s, h)
  }

  ghost function After(plan: Plan, steps: seq<Step>): Option<Search> {
    if steps == [] then Some(Planned(plan))
    else
      var before := After(plan, steps[..|steps| - 1]);
      if before.Some? && Enabled(before.value, steps[|steps| - 1])
      then Some(Apply(before.value, steps[|steps| - 1]))
      else None
  }

  // ------------------------------------------------------------------
  // Closing
  // ------------------------------------------------------------------

  /** A commit that writes a run's status. */
  predicate WritesStatus(step: Step, run: nat) {
    (step.Start? || step.Succeed? || step.Fail?) && step.h.run == run
  }

  /** The run ended, and a handler of it ran the closing step after that. */
  ghost predicate Settled(steps: seq<Step>, s: Search, run: nat) {
    && run < |s.runs| && !Outstanding(s.runs[run].status)
    && exists c :: 0 <= c < |steps| && steps[c].Close? && steps[c].h.run == run
                && forall k :: c < k < |steps| ==> !WritesStatus(steps[k], run)
  }

  lemma {:induction false} RunsStay(plan: Plan, steps: seq<Step>)
    requires After(plan, steps).Some?
    ensures |After(plan, steps).value.runs| == plan.sources
  {
    if steps != [] {
      RunsStay(plan, steps[..|steps| - 1]);
    }
  }

  predicate SameStatus(before: seq<Run>, after: seq<Run>) {
    |before| == |after| && forall i :: 0 <= i < |before| ==> before[i].status == after[i].status
  }

  lemma SettledBefore(steps: seq<Step>, s: Search, before: Search, run: nat)
    requires Settled(steps, s, run) && steps != [] && SameStatus(before.runs, s.runs)
    requires !steps[|steps| - 1].Close?
    ensures Settled(steps[..|steps| - 1], before, run)
  {
    var c :| 0 <= c < |steps| && steps[c].Close? && steps[c].h.run == run
          && forall k :: c < k < |steps| ==> !WritesStatus(steps[k], run);
    var init := steps[..|steps| - 1];
    assert init[c] == steps[c];
    assert forall k :: c < k < |init| ==> init[k] == steps[k];
  }

  lemma SettledMeans(steps: seq<Step>, s: Search, run: nat)
    requires Settled(steps, s, run)
    ensures !Outstanding(s.runs[run].status) && steps != [] && !WritesStatus(steps[|steps| - 1], run)
  {
    var c :| 0 <= c < |steps| && steps[c].Close? && steps[c].h.run == run
          && forall k :: c < k < |steps| ==> !WritesStatus(steps[k], run);
    if c == |steps| - 1 {
    } else {
      assert !WritesStatus(steps[|steps| - 1], run);
    }
  }

  lemma NoWriterNoChange(s: Search, step: Step)
    requires Enabled(s, step) && forall run :: 0 <= run < |s.runs| ==> !WritesStatus(step, run)
    ensures SameStatus(s.runs, Apply(s, step).runs)
  {
    WriterHasRun(s, step);
  }

  lemma WriterHasRun(s: Search, step: Step)
    requires Enabled(s, step)
    ensures step.Start? || step.Succeed? || step.Fail? ==> step.h.run < |s.runs| && WritesStatus(step, step.h.run)
  {
  }

  /** Once every run has ended and been followed by its own closing step, in whatever
      order all of that happened, the search is finished. */
  lemma {:induction false} LastCloserFinishes(plan: Plan, steps: seq<Step>)
    requires After(plan, steps).Some? && plan.sources > 0
    requires forall run :: 0 <= run < plan.sources ==> Settled(steps, After(plan, steps).value, run)
    ensures After(plan, steps).value.finished
  {
    RunsStay(plan, steps);
    assert Settled(steps, After(plan, steps).value, 0);
    var n := |steps| - 1;
    var (init, last) := (steps[..n], steps[n]);
    var (before, now) := (After(plan, init).value, After(plan, steps).value);
    forall run | 0 <= run < plan.sources ensures !Outstanding(now.runs[run].status) && !WritesStatus(last, run) {
      SettledMeans(steps, now, run);
    }
    NoWriterNoChange(before, last);
    if !last.Close? {
      forall run | 0 <= run < plan.sources ensures Settled(init, before, run) {
        SettledBefore(steps, now, before, run);
      }
      LastCloserFinishes(plan, init);
    }
  }

  /** The step that stamps `finished_at`. */
  ghost predicate Stamps(plan: Plan, steps: seq<Step>, k: nat) {
    && k < |steps| && After(plan, steps[..k]).Some? && After(plan, steps[..k + 1]).Some?
    && !After(plan, steps[..k]).value.finished && After(plan, steps[..k + 1]).value.finished
  }

  lemma {:induction false} Prefix(plan: Plan, steps: seq<Step>, k: nat)
    requires k <= |steps| && After(plan, steps).Some?
    ensures After(plan, steps[..k]).Some?
    ensures After(plan, steps[..k]).value.finished ==> After(plan, steps).value.finished
  {
    if k == |steps| {
      assert steps[..k] == steps;
    } else {
      Prefix(plan, steps[..|steps| - 1], k);
      assert steps[..|steps| - 1][..k] == steps[..k];
    }
  }

  /** It is a closing step, taken when no run is pending or running, and it happens once. */
  lemma StampedOnceWhenQuiet(plan: Plan, steps: seq<Step>, k: nat, m: nat)
    requires Stamps(plan, steps, k)
    ensures steps[k].Close?
    ensures forall run :: 0 <= run < |After(plan, steps[..k]).value.runs| ==>
              After(plan, steps[..k]).value.runs[run].status != Pending && After(plan, steps[..k]).value.runs[run].status != Running
    ensures Stamps(plan, steps, m) ==> m == k
  {
    assert steps[..k + 1][..k] == steps[..k];
    if Stamps(plan, steps, m) && m != k {
      var (first, second) := if k < m then (k, m) else (m, k);
      assert steps[..second][..first + 1] == steps[..first + 1];
      Prefix(plan, steps[..second], first + 1);
    }
  }

  lemma WriterStarts(s: Search, step: Step, run: nat)
    requires Enabled(s, step) && WritesStatus(step, run) && Outstanding(Apply(s, step).runs[run].status)
    ensures step.Start? && Apply(s, step).finished == s.finished
  {
  }

  lemma OthersLeave(s: Search, step: Step, run: nat)
    requires Enabled(s, step) && run < |s.runs| && !WritesStatus(step, run)
    ensures |Apply(s, step).runs| == |s.runs| && Apply(s, step).runs[run].status == s.runs[run].status
    ensures Outstanding(s.runs[run].status) ==> Apply(s, step).finished == s.finished
  {
  }

  /** At step `k`, after the stamp, the run was started, and nothing wrote its status since. */
  ghost predicate RestartedAt(plan: Plan, steps: seq<Step>, run: nat, k: nat) {
    && k < |steps| && steps[k].Start? && steps[k].h.run == run
    && After(plan, steps[..k]).Some? && After(plan, steps[..k]).value.finished
    && forall j :: k < j < |steps| ==> !WritesStatus(steps[j], run)
  }

  lemma RestartedLonger(plan: Plan, steps: seq<Step>, last: Step, run: nat, k: nat)
    requires RestartedAt(plan, steps, run, k) && !WritesStatus(last, run)
    ensures RestartedAt(plan, steps + [last], run, k)
  {
    assert (steps + [last])[..k] == steps[..k];
  }

  /** A finished search with a run still outstanding is one where that run was started
      again after the stamp. */
  lemma {:induction false} OutstandingWasRestarted(plan: Plan, steps: seq<Step>, run: nat) returns (k: nat)
    requires After(plan, steps).Some? && run < |After(plan, steps).value.runs|
    requires After(plan, steps).value.finished && Outstanding(After(plan, steps).value.runs[run].status)
    ensures RestartedAt(plan, steps, run, k)
  {
    var n := |steps| - 1;
    var (init, last) := (steps[..n], steps[n]);
    RunsStay(plan, init);
    RunsStay(plan, steps);
    if WritesStatus(last, run) {
      WriterStarts(After(plan, init).value, last, run);
      k := n;
    } else {
      OthersLeave(After(plan, init).value, last, run);
      k := OutstandingWasRestarted(plan, init, run);
      RestartedLonger(plan, init, last, run, k);
      assert init + [last] == steps;
    }
  }

  lemma Extend(plan: Plan, steps: seq<Step>, s: Search, step: Step)
    requires After(plan, steps) == Some(s) && Enabled(s, step)
    ensures After(plan, steps + [step]) == Some(Apply(s, step))
  {
    assert (steps + [step])[..|steps|] == steps;
  }

  // ------------------------------------------------------------------
  // Whether the stamp is final
  // ------------------------------------------------------------------

  /** The run may yet be started: its job can be claimed, now or once its lease is swept, or
      its present claim is about to start. */
  predicate Startable(s: Search, run: nat)
    requires run < |s.runs|
  {
    || (s.runs[run].work != Over && s.runs[run].attempts < s.runs[run].maxAttempts)
    || (s.runs[run].work.Leased? && InPhase(s, Handler(run, s.runs[run].work.serial), Starting))
  }

  /** Its present claim is searching. */
  predicate UnderSearch(s: Search, run: nat)
    requires run < |s.runs|
  {
    s.runs[run].work.Leased? && InPhase(s, Handler(run, s.runs[run].work.serial), Searching)
  }

  /** No run may be started, and none is being searched. */
  predicate Final(s: Search) {
    forall run :: 0 <= run < |s.runs| ==> !Startable(s, run) && !UnderSearch(s, run)
  }

  /** Every run shows what it showed: its status, its count and its rows. */
  predicate SameSources(s: Search, t: Search) {
    SameStatus(s.runs, t.runs) && t.results == s.results
    && forall run :: 0 <= run < |s.runs| ==> t.runs[run].count == s.runs[run].count
  }

  /** A lease is the latest claim's, and a run under search shows that it is running. */
  predicate LeasesShow(s: Search) {
    forall run :: 0 <= run < |s.runs| && s.runs[run].work.Leased? ==>
      s.runs[run].work.serial == s.runs[run].attempts && (UnderSearch(s, run) ==> s.runs[run].status == Running)
  }

  lemma LeasesStillShow(s: Search, step: Step)
    requires LeasesShow(s) && Enabled(s, step)
    ensures LeasesShow(Apply(s, step))
  {
  }

  lemma {:induction false} LeasesAlwaysShow(plan: Plan, steps: seq<Step>)
    requires After(plan, steps).Some?
    ensures LeasesShow(After(plan, steps).value)
  {
    if steps != [] {
      LeasesAlwaysShow(plan, steps[..|steps| - 1]);
      LeasesStillShow(After(plan, steps[..|steps| - 1]).value, steps[|steps| - 1]);
    }
  }

  /** A step that writes what a run shows, or claims one. */
  predicate Moves(step: Step) {
    step.Claim? || step.Start? || step.Succeed? || step.Fail?
  }

  lemma MoverShows(s: Search, step: Step)
    requires Enabled(s, step) && Moves(step)
    ensures !Final(s)
  {
    var run := if step.Claim? then step.run else step.h.run;
    assert Startable(s, run) || UnderSearch(s, run);
  }

  lemma FinalStays(s: Search, step: Step)
    requires LeasesShow(s) && Final(s) && Enabled(s, step)
    ensures Final(Apply(s, step)) && SameSources(s, Apply(s, step))
  {
    var t := Apply(s, step);
    if Moves(step) { MoverShows(s, step); }
    forall run | 0 <= run < |t.runs| ensures !Startable(t, run) && !UnderSearch(t, run) {
      assert !Startable(s, run) && !UnderSearch(s, run);
    }
  }

  /** From such a state on nothing changes. */
  lemma {:induction false} FinalForGood(plan: Plan, steps: seq<Step>, more: seq<Step>)
    requires After(plan, steps).Some? && Final(After(plan, steps).value)
    requires After(plan, steps + more).Some?
    ensures Final(After(plan, steps + more).value)
    ensures SameSources(After(plan, steps).value, After(plan, steps + more).value)
  {
    if more == [] {
      assert steps + more == steps;
    } else {
      var n := |more| - 1;
      assert (steps + more)[..|steps + more| - 1] == steps + more[..n];
      FinalForGood(plan, steps, more[..n]);
      LeasesAlwaysShow(plan, steps + more[..n]);
      FinalStays(After(plan, steps + more[..n]).value, more[n]);
    }
  }

  /** A state that a continuation reaches. */
  ghost predicate Follows(plan: Plan, steps: seq<Step>, t: Search) {
    exists more :: After(plan, steps + more) == Some(t)
  }

  lemma FollowsNext(plan: Plan, steps: seq<Step>, s: Search, step: Step)
    requires Follows(plan, steps, s) && Enabled(s, step)
    ensures Follows(plan, steps, Apply(s, step))
  {
    var more :| After(plan, steps + more) == Some(s);
    Extend(plan, steps + more, s, step);
    assert steps + (more + [step]) == steps + more + [step];
  }

  lemma StartFollows(plan: Plan, steps: seq<Step>, s: Search, h: Handler) returns (t: Search)
    requires Follows(plan, steps, s) && Enabled(s, Start(h))
    ensures Follows(plan, steps, t) && |t.runs| == |s.runs| && t.runs[h.run].status == Running && UnderSearch(t, h.run)
  {
    FollowsNext(plan, steps, s, Start(h));
    t := Apply(s, Start(h));
  }

  /** A run that may be started is started, its lease swept and its job claimed if need be. */
  lemma Starts(plan: Plan, steps: seq<Step>, s: Search, run: nat) returns (t: Search)
    requires Follows(plan, steps, s) && run < |s.runs| && Startable(s, run)
    ensures Follows(plan, steps, t) && |t.runs| == |s.runs| && t.runs[run].status == Running && UnderSearch(t, run)
    decreases s.runs[run].work.Leased?
  {
    var r := s.runs[run];
    if r.work.Leased? && InPhase(s, Handler(run, r.work.serial), Starting) {
      t := StartFollows(plan, steps, s, Handler(run, r.work.serial));
    } else if r.work == Waiting {
      FollowsNext(plan, steps, s, Claim(run));
      t := StartFollows(plan, steps, Apply(s, Claim(run)), Handler(run, r.attempts + 1));
    } else {
      FollowsNext(plan, steps, s, Expire(run));
      t := Starts(plan, steps, Apply(s, Expire(run)), run);
    }
  }

  lemma Itself(plan: Plan, steps: seq<Step>)
    requires After(plan, steps).Some?
    ensures Follows(plan, steps, After(plan, steps).value)
  {
    assert steps + [] == steps;
  }

  /** A run that may be started, or is under search, can still change what it shows. */
  lemma Changes(plan: Plan, steps: seq<Step>, run: nat) returns (t: Search)
    requires After(plan, steps).Some? && run < |After(plan, steps).value.runs|
    requires Startable(After(plan, steps).value, run) || UnderSearch(After(plan, steps).value, run)
    ensures Follows(plan, steps, t) && !SameSources(After(plan, steps).value, t)
  {
    var s := After(plan, steps).value;
    LeasesAlwaysShow(plan, steps);
    Itself(plan, steps);
    t := s;
    if Startable(s, run) {
      t := Starts(plan, steps, s, run);
    }
    if s.runs[run].status == Running {
      var fail := Fail(Handler(run, t.runs[run].work.serial), Permanent);
      FollowsNext(plan, steps, t, fail);
      t := Apply(t, fail);
    }
    assert t.runs[run].status != s.runs[run].status;
  }

  /** No source will change again. */
  ghost predicate Unchanging(plan: Plan, steps: seq<Step>)
    requires After(plan, steps).Some?
  {
    forall t :: Follows(plan, steps, t) ==> SameSources(After(plan, steps).value, t)
  }

  /** Some continuation leaves a run pending or running. */
  ghost predicate MayReopen(plan: Plan, steps: seq<Step>) {
    exists t :: Follows(plan, steps, t) && !Quiet(t.runs)
  }

  /** No source will change again, whatever happens, exactly when no run can still be claimed
      or started and none is being searched: every job is over, or at its attempt ceiling
      with its last claim past its search. All of that can be read when the search is
      closed. */
  lemma StampFinalExactly(plan: Plan, steps: seq<Step>)
    requires After(plan, steps).Some?
    ensures Unchanging(plan, steps) <==> Final(After(plan, steps).value)
  {
    var s := After(plan, steps).value;
    if Final(s) {
      forall t | Follows(plan, steps, t) ensures SameSources(s, t) {
        var more :| After(plan, steps + more) == Some(t);
        FinalForGood(plan, steps, more);
      }
    } else {
      var run :| 0 <= run < |s.runs| && (Startable(s, run) || UnderSearch(s, run));
      var t := Changes(plan, steps, run);
    }
  }

  /** On a search with no run outstanding, that is exactly when none will be again. */
  lemma ReopensExactly(plan: Plan, steps: seq<Step>)
    requires After(plan, steps).Some? && Quiet(After(plan, steps).value.runs)
    ensures MayReopen(plan, steps) <==> !Unchanging(plan, steps)
  {
    var s := After(plan, steps).value;
    StampFinalExactly(plan, steps);
    if Unchanging(plan, steps) {
      forall t | Follows(plan, steps, t) ensures Quiet(t.runs) {
        assert SameSources(s, t);
      }
    } else {
      LeasesAlwaysShow(plan, steps);
      var run :| 0 <= run < |s.runs| && (Startable(s, run) || UnderSearch(s, run));
      Itself(plan, steps);
      var t := Starts(plan, steps, s, run);
      assert Outstanding(t.runs[run].status);
    }
  }

  // ------------------------------------------------------------------
  // Why a transaction may count as one step
  // ------------------------------------------------------------------

  /** How often the run's job has been claimed. */
  ghost function Claims(plan: Plan, steps: seq<Step>, run: nat): nat {
    var s := After(plan, steps);
    if s.Some? && run < |s.value.runs| then s.value.runs[run].attempts else 0
  }

  ghost predicate Holds(plan: Plan, steps: seq<Step>, h: Handler) {
    After(plan, steps).Some? && InTime(After(plan, steps).value, h)
  }

  lemma {:induction false} ClaimsRise(plan: Plan, steps: seq<Step>, k: nat, run: nat)
    requires After(plan, steps).Some? && k <= |steps|
    ensures After(plan, steps[..k]).Some? && Claims(plan, steps[..k], run) <= Claims(plan, steps, run)
  {
    if k == |steps| {
      assert steps[..k] == steps;
    } else {
      var init := steps[..|steps| - 1];
      ClaimsRise(plan, init, k, run);
      RunsStay(plan, init);
      RunsStay(plan, steps);
      assert init[..k] == steps[..k];
    }
  }

  lemma HolderIsLatest(plan: Plan, steps: seq<Step>, h: Handler)
    requires Holds(plan, steps, h)
    ensures Claims(plan, steps, h.run) == h.serial
  {
    LeasesAlwaysShow(plan, steps);
  }

  /** A commit that a claim makes. */
  predicate Writes(step: Step, h: Handler) {
    (step.Start? || step.Succeed? || step.Fail? || step.Close?) && step.h == h
  }

  lemma WriterHolds(plan: Plan, steps: seq<Step>, k: nat, g: Handler)
    requires k < |steps| && After(plan, steps[..k + 1]).Some? && Writes(steps[k], g)
    ensures Holds(plan, steps[..k], g)
  {
    assert steps[..k + 1][..k] == steps[..k];
  }

  lemma ClaimsBetween(plan: Plan, steps: seq<Step>, i: nat, k: nat, run: nat)
    requires After(plan, steps).Some? && i <= k <= |steps|
    ensures After(plan, steps[..k]).Some?
    ensures Claims(plan, steps[..i], run) <= Claims(plan, steps[..k], run) <= Claims(plan, steps, run)
  {
    ClaimsRise(plan, steps, k, run);
    ClaimsRise(plan, steps[..k], i, run);
    assert steps[..k][..i] == steps[..i];
  }

  /** If a claim is in time at one moment and again later, no other claim of its run commits
      anything in between: the statements of one transaction on a run's rows have
      nothing of another's between them. */
  lemma NoWriterBetween(plan: Plan, steps: seq<Step>, i: nat, k: nat, h: Handler, g: Handler)
    requires i <= k < |steps| && g.run == h.run && Writes(steps[k], g)
    requires Holds(plan, steps[..i], h) && Holds(plan, steps, h)
    ensures g == h
  {
    HolderIsLatest(plan, steps[..i], h);
    HolderIsLatest(plan, steps, h);
    ClaimsBetween(plan, steps, i, k, h.run);
    ClaimsBetween(plan, steps, i, k + 1, h.run);
    WriterHolds(plan, steps, k, g);
    HolderIsLatest(plan, steps[..k], g);
  }

  /** One handler from its claim to its last write of the status, with nobody else active. */
  lemma Handled(plan: Plan, steps: seq<Step>, s: Search, run: nat, last: Step) returns (more: seq<Step>)
    requires After(plan, steps) == Some(s) && s.active == map[] && Enabled(s, Claim(run))
    requires var h := Handler(run, s.runs[run].attempts + 1); last == Succeed(h, []) || last == Fail(h, Transient)
    ensures var started := Apply(Apply(s, Claim(run)), Start(last.h));
            Enabled(started, last) && After(plan, more) == Some(Apply(started, last))
  {
    var h := last.h;
    Extend(plan, steps, s, Claim(run));
    Extend(plan, steps + [Claim(run)], Apply(s, Claim(run)), Start(h));
    Extend(plan, steps + [Claim(run)] + [Start(h)], Apply(Apply(s, Claim(run)), Start(h)), last);
    more := steps + [Claim(run)] + [Start(h)] + [last];
  }

  const TWO_RUNS: Plan := Plan(2, 6)

  /** One of two runs fails in a way that is retried, and its job waits. */
  lemma OneWaits() returns (steps: seq<Step>)
    ensures After(TWO_RUNS, steps)
              == Some(Planned(TWO_RUNS).(runs := [Run(Failed, 0, Waiting, 1, 6), Run(Pending, 0, Waiting, 0, 6)]))
  {
    var a := Handler(0, 1);
    steps := Handled(TWO_RUNS, [], Planned(TWO_RUNS), 0, Fail(a, Transient));
    var failed := After(TWO_RUNS, steps).value;
    Extend(TWO_RUNS, steps, failed, Report(a));
    steps := steps + [Report(a)];
    var s := After(TWO_RUNS, steps).value;
    assert s.active == map[];
    assert s.runs == [Run(Failed, 0, Waiting, 1, 6), Run(Pending, 0, Waiting, 0, 6)];
  }

  /** It does happen: a run waiting for its retry is `failed`, so its sibling closes the
      search before the retry starts. */
  lemma FinishedMayRunAgain() returns (plan: Plan, steps: seq<Step>)
    ensures var end := After(plan, steps);
            end.Some? && end.value.finished && Quiet(end.value.runs) && MayReopen(plan, steps)
  {
    plan := TWO_RUNS;
    var b := Handler(1, 1);
    steps := OneWaits();
    steps := Handled(plan, steps, After(plan, steps).value, 1, Succeed(b, []));
    var done := After(plan, steps).value;
    assert done.runs == [Run(Failed, 0, Waiting, 1, 6), Run(Done, 0, Leased(1), 1, 6)];
    Extend(plan, steps, done, Close(b));
    steps := steps + [Close(b)];
    assert Startable(After(plan, steps).value, 0);
    StampFinalExactly(plan, steps);
    ReopensExactly(plan, steps);
  }

  // ------------------------------------------------------------------
  // Results
  // ------------------------------------------------------------------

  /** What the run's last successful handler kept. */
  function LastKept(steps: seq<Step>, run: nat): seq<string> {
    if steps == [] then []
    else
      var last := steps[|steps| - 1];
      if last.Succeed? && last.h.run == run then Kept(last.answer) else LastKept(steps[..|steps| - 1], run)
  }

  lemma {:induction false} RowsOfConcat(a: seq<Stored>, b: seq<Stored>, run: nat)
    ensures RowsOf(a + b, run) == RowsOf(a, run) + RowsOf(b, run)
  {
    if b == [] {
      assert a + b == a;
    } else {
      assert (a + b)[..|a + b| - 1] == a + b[..|b| - 1];
      RowsOfConcat(a, b[..|b| - 1], run);
    }
  }

  lemma {:induction false} RowsOfOthers(results: seq<Stored>, run: nat, other: nat)
    ensures RowsOf(Others(results, run), other) == if other == run then [] else RowsOf(results, other)
  {
    if results != [] {
      var (init, last) := (results[..|results| - 1], results[|results| - 1]);
      RowsOfOthers(init, run, other);
      var one := if last.run != run then [last] else [];
      RowsOfConcat(Others(init, run), one, other);
      assert [last][..0] == [] && RowsOf([last], other) == if last.run == other then [last.item] else [];
    }
  }

  lemma {:induction false} RowsOfTagged(run: nat, items: seq<string>, other: nat)
    ensures RowsOf(Tagged(run, items), other) == if other == run then items else []
  {
    if items != [] {
      var init := items[..|items| - 1];
      RowsOfTagged(run, init, other);
      assert Tagged(run, items)[..|Tagged(run, items)| - 1] == Tagged(run, init);
      assert items == init + [items[|items| - 1]];
    }
  }

  lemma SuccessStores(s: Search, h: Handler, answer: seq<Option<string>>, run: nat)
    requires Enabled(s, Succeed(h, answer)) && run < |s.runs|
    ensures var t := Apply(s, Succeed(h, answer));
            && RowsOf(t.results, run) == (if h.run == run then Kept(answer) else RowsOf(s.results, run))
            && t.runs[run].count == (if h.run == run then |Kept(answer)| else s.runs[run].count)
  {
    ReplacedRows(s.results, h.run, Kept(answer), run);
  }

  lemma ReplacedRows(results: seq<Stored>, run: nat, items: seq<string>, other: nat)
    ensures RowsOf(Others(results, run) + Tagged(run, items), other) == if other == run then items else RowsOf(results, other)
  {
    RowsOfConcat(Others(results, run), Tagged(run, items), other);
    RowsOfOthers(results, run, other);
    RowsOfTagged(run, items, other);
  }

  lemma OthersStoreNothing(s: Search, step: Step, run: nat)
    requires Enabled(s, step) && !step.Succeed? && run < |s.runs|
    ensures var t := Apply(s, step);
            t.results == s.results && |t.runs| == |s.runs| && t.runs[run].count == s.runs[run].count
  {
  }

  /** A run's stored rows are its last success's, once each however often it was rerun,
      and `result_count` is their number. */
  lemma {:induction false} CountIsStoredRows(plan: Plan, steps: seq<Step>, run: nat)
    requires After(plan, steps).Some? && run < |After(plan, steps).value.runs|
    ensures var s := After(plan, steps).value;
            RowsOf(s.results, run) == LastKept(steps, run) && s.runs[run].count == |LastKept(steps, run)|
  {
    if steps != [] {
      var (init, last) := (steps[..|steps| - 1], steps[|steps| - 1]);
      RunsStay(plan, steps);
      RunsStay(plan, init);
      CountIsStoredRows(plan, init, run);
      if last.Succeed? {
        SuccessStores(After(plan, init).value, last.h, last.answer, run);
      } else {
        OthersStoreNothing(After(plan, init).value, last, run);
      }
    }
  }

  // ------------------------------------------------------------------
  // Statuses
  // ------------------------------------------------------------------

  /** The last commit that wrote the run's status, if any did. */
  function LastWriter(steps: seq<Step>, run: nat): Option<Step> {
    if steps == [] then None
    else if WritesStatus(steps[|steps| - 1], run) then Some(steps[|steps| - 1])
    else LastWriter(steps[..|steps| - 1], run)
  }

  /** A run shows what its last commit recorded: that it is being searched, that it is done,
      or why it failed; an expired grant is a status of its own, and no other error is. */
  lemma {:induction false} StatusIsLastWrite(plan: Plan, steps: seq<Step>, run: nat)
    requires After(plan, steps).Some? && run < |After(plan, steps).value.runs|
    ensures var status := After(plan, steps).value.runs[run].status;
            var last := LastWriter(steps, run);
            && (status == Pending <==> last.None?)
            && (status == Running <==> last.Some? && last.value.Start?)
            && (status == Done <==> last.Some? && last.value.Succeed?)
            && (status == Status.NeedsReconnect <==> last.Some? && last.value.Fail? && last.value.why == ErrorClass.NeedsReconnect)
            && (status == Failed <==> last.Some? && last.value.Fail? && last.value.why != ErrorClass.NeedsReconnect)
  {
    if steps != [] {
      var (init, last) := (steps[..|steps| - 1], steps[|steps| - 1]);
      RunsStay(plan, steps);
      RunsStay(plan, init);
      StatusIsLastWrite(plan, init, run);
      if !WritesStatus(last, run) {
        OthersLeave(After(plan, init).value, last, run);
      }
    }
  }

  /** At step `k` the claim recorded how its search ended, and the run showed it. */
  ghost predicate RecordsEnd(plan: Plan, steps: seq<Step>, h: Handler, k: nat) {
    && k < |steps| && After(plan, steps[..k + 1]).Some? && h.run < |After(plan, steps[..k + 1]).value.runs|
    && var status := After(plan, steps[..k + 1]).value.runs[h.run].status;
       match steps[k]
       case Succeed(g, _) => g == h && status == Done
       case Fail(g, why) => g == h && status == if why == ErrorClass.NeedsReconnect then Status.NeedsReconnect else Failed
       case _ => false
  }

  lemma EndRecorded(plan: Plan, steps: seq<Step>)
    requires After(plan, steps).Some? && steps != []
    requires steps[|steps| - 1].Succeed? || steps[|steps| - 1].Fail?
    ensures RecordsEnd(plan, steps, steps[|steps| - 1].h, |steps| - 1)
  {
    var h := steps[|steps| - 1].h;
    assert steps[..|steps| - 1 + 1] == steps;
    RunsStay(plan, steps);
    RunsStay(plan, steps[..|steps| - 1]);
    StatusIsLastWrite(plan, steps, h.run);
  }

  lemma EndStaysRecorded(plan: Plan, before: seq<Step>, after: seq<Step>, h: Handler, k: nat)
    requires RecordsEnd(plan, before, h, k) && before <= after
    ensures RecordsEnd(plan, after, h, k)
  {
    assert after[..k + 1] == before[..k + 1];
  }

  // ------------------------------------------------------------------
  // What is kept of an answer
  // ------------------------------------------------------------------

  lemma {:induction false} KeptOfConcat(a: seq<Option<string>>, b: seq<Option<string>>)
    ensures Kept(a + b) == Kept(a) + Kept(b)
  {
    if b == [] {
      assert a + b == a;
    } else {
      assert (a + b)[..|a + b| - 1] == a + b[..|b| - 1];
      KeptOfConcat(a, b[..|b| - 1]);
    }
  }

  /** What could be normalized is kept, in order, and nothing else. */
  lemma KeptIsNormalized(before: seq<Option<string>>, result: Option<string>, after: seq<Option<string>>)
    ensures Kept(before + [result] + after) == Kept(before) + (if result.Some? then [result.value] else []) + Kept(after)
    ensures |Kept(before)| <= |before| && Kept([]) == []
  {
    KeptOfConcat(before + [result], after);
    KeptOfConcat(before, [result]);
    assert [result][..0] == [];
    KeptIsShort(before);
  }

  lemma {:induction false} KeptIsShort(answer: seq<Option<string>>)
    ensures |Kept(answer)| <= |answer|
  {
    if answer != [] {
      KeptIsShort(answer[..|answer| - 1]);
    }
  }

  // ------------------------------------------------------------------
  // The ladder of a run
  // ------------------------------------------------------------------

  /** Whether a claim that raised this is tried again: one of the errors that may pass, below
      the attempt ceiling. */
  predicate MayPass(raised: Option<ErrorClass>, serial: nat, maxAttempts: nat) {
    raised == Some(Transient) && serial < maxAttempts
  }

  /** A waiting run can be claimed. */
  predicate WaitsClaimable(s: Search) {
    forall run :: 0 <= run < |s.runs| && s.runs[run].work == Waiting ==> s.runs[run].attempts < s.runs[run].maxAttempts
  }

  lemma ClaimableStays(s: Search, step: Step)
    requires WaitsClaimable(s) && LeasesShow(s) && Enabled(s, step)
    ensures WaitsClaimable(Apply(s, step))
  {
  }

  /** No run's job waits where no claim will ever take it. */
  lemma {:induction false} WaitingIsClaimable(plan: Plan, steps: seq<Step>)
    requires After(plan, steps).Some? && plan.ceiling > 0
    ensures WaitsClaimable(After(plan, steps).value)
  {
    if steps != [] {
      WaitingIsClaimable(plan, steps[..|steps| - 1]);
      LeasesAlwaysShow(plan, steps[..|steps| - 1]);
      ClaimableStays(After(plan, steps[..|steps| - 1]).value, steps[|steps| - 1]);
    }
  }

  /** A claim in time whose search fails goes on to close the search exactly when its job
      will not be tried again, and its report then leaves the job as it said: waiting to
      be tried again, or over. */
  lemma FailureClosesExactly(s: Search, h: Handler, why: ErrorClass)
    requires Enabled(s, Fail(h, why))
    ensures var t := Apply(s, Fail(h, why));
            var again := MayPass(Some(why), h.serial, s.runs[h.run].maxAttempts);
            && (t.active[h].phase == Closing <==> !again)
            && (again ==> Enabled(t, Report(h)) && Apply(t, Report(h)).runs[h.run].work == Waiting)
            && (!again ==>
                  && Enabled(t, Close(h)) && Enabled(Apply(t, Close(h)), Report(h))
                  && Apply(Apply(t, Close(h)), Report(h)).runs[h.run].work == Over)
  {
  }

  /** A claim that succeeds and closes leaves its job over. */
  lemma SuccessEndsJob(s: Search, h: Handler, answer: seq<Option<string>>)
    requires Enabled(s, Succeed(h, answer)) && s.active[h].raised.None?
    ensures var t := Apply(s, Succeed(h, answer));
            && Enabled(t, Close(h)) && Enabled(Apply(t, Close(h)), Report(h))
            && Apply(Apply(t, Close(h)), Report(h)).runs[h.run].work == Over
  {
  }
}
