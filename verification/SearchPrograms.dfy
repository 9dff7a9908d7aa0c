/** The run handler in the shape it is written in: `run_adapter` and the commits it
    makes, with every other handler free to run at each `await`
    (`packages/core/jobs/handlers.py`, `packages/core/adapters/orchestrator.py`).
    Each commit is a step of the machine in `SearchRuns`. */
module SearchPrograms {
  import opened Basics
  import opened SearchRuns

  class Deployment {
    var st: Search
    const plan: Plan
    ghost var history: seq<Step>

    /** The present state is one a run of the system reaches. */
    ghost predicate Valid()
      reads this
    {
      After(plan, history) == Some(st)
    }

    constructor (plan: Plan)
      ensures Valid() && this.plan == plan && st == Planned(plan)
    {
      this.plan := plan;
      st := Planned(plan);
      history := [];
    }

    predicate At(h: Handler, phase: Phase)
      reads this
    {
      InPhase(st, h, phase) && InTime(st, h)
    }

    /** One commit. */
    ghost method Commit(before: Search, step: Step)
      requires After(plan, history) == Some(before) && Enabled(before, step) && st == Apply(before, step)
      modifies this`history
      ensures Valid() && history == old(history) + [step]
    {
      Extend(plan, history, before, step);
      history := history + [step];
    }

    method Take(step: Step)
      requires Valid() && Enabled(st, step)
      modifies this
      ensures Valid() && st == Apply(old(st), step) && history == old(history) + [step]
    {
      ghost var before := st;
      st := Apply(st, step);
      Commit(before, step);
    }

    /** An `await`: everybody else runs, and the handler resumes where it was, or never,
        its process dead, its deadline passed or a statement raised. */
    method Await(h: Handler) returns (resumed: bool)
      requires Valid() && h.run < |st.runs| && h in st.active
      modifies this
      ensures Valid() && old(history) <= history
      ensures resumed ==> InTime(st, h) && h in st.active && st.active[h] == old(st.active[h])
    {
      var mine := st.active[h];
      var more: seq<Step> := *;
      for i := 0 to |more|
        invariant Valid() && old(history) <= history
      {
        if Enabled(st, more[i]) {
          Take(more[i]);
        }
      }
      resumed := InTime(st, h) && h in st.active && st.active[h] == mine;
    }

    /** The results and the terminal status, committed together. No other claim of the run
        commits between the statements of this transaction (`SearchRuns.NoWriterBetween`). */
    method StoreResults(h: Handler, answer: seq<Option<string>>)
      requires Valid() && At(h, Searching)
      modifies this
      ensures Valid() && st == Apply(old(st), Succeed(h, answer)) && history == old(history) + [Succeed(h, answer)]
      ensures At(h, Closing) && RecordsEnd(plan, history, h, |old(history)|)
    {
      var kept := [];
      for i := 0 to |answer|
        invariant kept == Kept(answer[..i])
      {
        assert answer[..i + 1][..i] == answer[..i];
        if answer[i].Some? {
          kept := kept + [answer[i].value];
        }
      }
      assert answer[..|answer|] == answer;
      var results := [];
      for i := 0 to |st.results|
        invariant results == SearchRuns.Others(st.results[..i], h.run)
      {
        assert st.results[..i + 1][..i] == st.results[..i];
        if st.results[i].run != h.run {
          results := results + [st.results[i]];
        }
      }
      assert st.results[..|st.results|] == st.results;
      ghost var rest := results;
      for i := 0 to |kept|
        invariant results == rest + Tagged(h.run, kept[..i])
      {
        assert kept[..i + 1][..i] == kept[..i];
        results := results + [Stored(h.run, kept[i])];
      }
      assert kept[..|kept|] == kept;
      ghost var before := st;
      st := Moved(st, h, Closing).(
        runs := st.runs[h.run := st.runs[h.run].(status := Done, count := |kept|)], results := results);
      Commit(before, Succeed(h, answer));
      EndRecorded(plan, history);
    }

    /** `close_search_if_complete`: one conditional update. */
    method CloseIfComplete(h: Handler)
      requires Valid() && At(h, Closing)
      modifies this
      ensures Valid() && history == old(history) + [Close(h)]
      ensures st.finished == (old(st).finished || Quiet(old(st).runs))
      ensures st.runs == old(st).runs && st.results == old(st).results
    {
      ghost var before := st;
      var outstanding := false;
      for i := 0 to |st.runs|
        invariant outstanding <==> exists j :: 0 <= j < i && Outstanding(st.runs[j].status)
      {
        outstanding := outstanding || Outstanding(st.runs[i].status);
      }
      st := Moved(st, h, Reporting(st.active[h].raised)).(finished := st.finished || !outstanding);
      Commit(before, Close(h));
    }

    /** `_record_run_failure`, first part: the status, in a commit of its own. */
    method RecordFailure(h: Handler, why: ErrorClass) returns (again: bool)
      requires Valid() && At(h, Searching)
      modifies this
      ensures Valid() && history == old(history) + [Fail(h, why)] && h.run < |st.runs|
      ensures RecordsEnd(plan, history, h, |old(history)|)
      ensures again <==> why == Transient && h.serial < st.runs[h.run].maxAttempts
      ensures !again ==> At(h, Closing)
    {
      again := WillRetry(why, h, st.runs[h.run]);
      Take(Fail(h, why));
      EndRecorded(plan, history);
    }

    /** The last commit closed the search, or recorded an error that may pass, below the
        ceiling of the run's job. */
    predicate LastGotThrough(h: Handler, last: Step)
      reads this
    {
      && h.run < |st.runs|
      && (last == Close(h)
          || (last.Fail? && last.h == h && last.why == Transient && h.serial < st.runs[h.run].maxAttempts))
    }

    ghost predicate GotThrough(h: Handler)
      reads this
    {
      history != [] && LastGotThrough(h, history[|history| - 1])
    }

    /** The search and the one commit that records how it ended. */
    method SearchOnce(h: Handler) returns (again: bool)
      requires Valid() && At(h, Searching)
      modifies this
      ensures Valid() && old(history) < history && RecordsEnd(plan, history, h, |old(history)|)
      ensures !again ==> At(h, Closing)
      ensures again ==> GotThrough(h)
    {
      var raised: Option<ErrorClass> := *;
      if raised.Some? {
        again := RecordFailure(h, raised.value);
      } else {
        var answer: seq<Option<string>> := *;
        StoreResults(h, answer);
        again := false;
      }
    }

    method Begin(h: Handler) returns (begun: bool)
      requires Valid() && InPhase(st, h, Starting)
      modifies this
      ensures Valid() && old(history) <= history && (begun ==> At(h, Searching))
    {
      begun := Await(h);
      if !begun { return; }
      Take(Start(h));
      begun := Await(h);
    }

    method CloseBehind(h: Handler) returns (closed: bool)
      requires Valid() && At(h, Closing)
      modifies this
      ensures Valid() && old(history) <= history
      ensures closed ==> old(history) < history && GotThrough(h)
    {
      closed := Await(h);
      if closed {
        CloseIfComplete(h);
      }
    }

    /** `run_adapter` for one claim. A handler that gets through has recorded how its search
        ended, and closed the search behind itself unless its run is to be tried again. */
    method RunAdapter(h: Handler) returns (returned: bool, ghost k: nat)
      requires Valid() && InPhase(st, h, Starting)
      modifies this
      ensures Valid() && old(history) <= history
      ensures returned ==> old(history) < history && GotThrough(h)
      ensures returned ==> |old(history)| <= k && RecordsEnd(plan, history, h, k)
    {
      k := 0;
      var begun := Begin(h);
      if !begun { return false, k; }
      k := |history|;
      var again := SearchOnce(h);
      if again { return true, k; }
      ghost var recorded := history;
      returned := CloseBehind(h);
      EndStaysRecorded(plan, recorded, history, h, k);
    }
  }
}
