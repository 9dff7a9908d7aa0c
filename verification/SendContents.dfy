/** What the messages of a send say: each carries the draft as one statement of the
    handler read it (`packages/core/send/handler.py`), so it is as confirmed exactly
    when that read was. */
module SendContents {
  import opened Basics
  import opened Probes
  import JobRows
  import opened JobTable
  import opened SendHandler
  import opened SendInvariant
  import opened SendSystem
  import opened SystemInvariant
  import opened SendSafety

  // ------------------------------------------------------------------
  // Reading, creating, accepting
  // ------------------------------------------------------------------

  /** The program point of step `k`'s executor on the send `x`, when it is a statement there. */
  ghost predicate Runs(steps: seq<Step>, k: nat, x: nat) {
    && k < |steps| && steps[k].Act? && After(steps[..k]).Some?
    && var s := After(steps[..k]).value;
       steps[k].exec in s.execs && s.execs[steps[k].exec].ref == x && x < |s.cells|
  }

  ghost function PointAt(steps: seq<Step>, k: nat, x: nat): Point
    requires Runs(steps, k, x)
  {
    After(steps[..k]).value.execs[steps[k].exec].at
  }

  ghost function CellAt(steps: seq<Step>, k: nat, x: nat): Cell
    requires Runs(steps, k, x)
  {
    After(steps[..k]).value.cells[x]
  }

  /** Step `k` loads the draft and prepares the provider: it read `content`. */
  ghost predicate Reads(steps: seq<Step>, k: nat, x: nat, content: nat) {
    Runs(steps, k, x) && PointAt(steps, k, x).Prepare? && CellAt(steps, k, x).content == content
  }

  /** The provider's draft that a Prepare step created, whether or not its answer arrived. */
  function DraftOf(a: Answer): Option<nat> {
    match a
    case Prepared(draft) => draft
    case Raised(_, littered) => littered
    case _ => None
  }

  ghost predicate Creates(steps: seq<Step>, k: nat, x: nat, draft: nat, content: nat) {
    Reads(steps, k, x, content) && DraftOf(steps[k].answer) == Some(draft)
  }

  /** Step `a` is the call that put message `i` on the ledger. */
  ghost predicate Accepts(steps: seq<Step>, a: nat, x: nat, i: nat) {
    Runs(steps, a, x) && PointAt(steps, a, x).Call? && steps[a].answer.Accepted? && |CellAt(steps, a, x).sent| == i
  }

  /** A message from a stored draft says what was read when the draft was created; any other
      says what the calling claim itself read. */
  ghost predicate Origin(steps: seq<Step>, x: nat, i: nat, m: Message, a: nat, k: nat) {
    && k < a && Accepts(steps, a, x, i)
    && if m.draft.Some? then Creates(steps, k, x, m.draft.value, m.content)
       else Reads(steps, k, x, m.content) && steps[k].exec == steps[a].exec
  }

  ghost predicate HasOrigin(steps: seq<Step>, x: nat, i: nat, m: Message) {
    exists a, k :: Origin(steps, x, i, m, a, k)
  }

  ghost predicate WasRead(steps: seq<Step>, x: nat, e: ExecId, content: nat) {
    exists k: nat :: Reads(steps, k, x, content) && steps[k].exec == e
  }

  ghost predicate WasCreated(steps: seq<Step>, x: nat, draft: nat, content: nat) {
    exists k :: Creates(steps, k, x, draft, content)
  }

  // ------------------------------------------------------------------
  // They last
  // ------------------------------------------------------------------

  lemma RunsLonger(steps: seq<Step>, step: Step, k: nat, x: nat)
    requires Runs(steps, k, x)
    ensures Runs(steps + [step], k, x)
    ensures PointAt(steps + [step], k, x) == PointAt(steps, k, x) && CellAt(steps + [step], k, x) == CellAt(steps, k, x)
  {
    assert (steps + [step])[..k] == steps[..k];
  }

  lemma OriginLonger(steps: seq<Step>, step: Step, x: nat, i: nat, m: Message)
    requires HasOrigin(steps, x, i, m)
    ensures HasOrigin(steps + [step], x, i, m)
  {
    var a, k :| Origin(steps, x, i, m, a, k);
    RunsLonger(steps, step, a, x);
    RunsLonger(steps, step, k, x);
    assert Origin(steps + [step], x, i, m, a, k);
  }

  lemma ReadLonger(steps: seq<Step>, step: Step, x: nat, e: ExecId, content: nat)
    requires WasRead(steps, x, e, content)
    ensures WasRead(steps + [step], x, e, content)
  {
    var k: nat :| Reads(steps, k, x, content) && steps[k].exec == e;
    RunsLonger(steps, step, k, x);
    assert Reads(steps + [step], k, x, content) && (steps + [step])[k].exec == e;
  }

  lemma CreatedLonger(steps: seq<Step>, step: Step, x: nat, draft: nat, content: nat)
    requires WasCreated(steps, x, draft, content)
    ensures WasCreated(steps + [step], x, draft, content)
  {
    var k :| Creates(steps, k, x, draft, content);
    RunsLonger(steps, step, k, x);
    assert Creates(steps + [step], k, x, draft, content);
  }

  // ------------------------------------------------------------------
  // The state knows where its contents come from
  // ------------------------------------------------------------------

  /** The content a worker is about to hand to the provider. */
  function InHand(at: Point): Option<nat> {
    match at
    case Commit(_, _, _, content) => Some(content)
    case Call(_, _, content) => Some(content)
    case _ => None
  }

  ghost predicate HandsTraced(steps: seq<Step>, s: State) {
    forall e :: e in s.execs && InHand(s.execs[e].at).Some? ==>
      WasRead(steps, s.execs[e].ref, e, InHand(s.execs[e].at).value)
  }

  ghost predicate CellTraced(steps: seq<Step>, x: nat, c: Cell) {
    && (forall d :: d in c.drafts ==> WasCreated(steps, x, d, c.drafts[d]))
    && (forall i :: 0 <= i < |c.sent| ==> HasOrigin(steps, x, i, c.sent[i]))
  }

  ghost predicate CellsTraced(steps: seq<Step>, s: State) {
    forall x :: 0 <= x < |s.cells| ==> CellTraced(steps, x, s.cells[x])
  }

  lemma CellTracedLonger(steps: seq<Step>, step: Step, x: nat, c: Cell)
    requires CellTraced(steps, x, c)
    ensures CellTraced(steps + [step], x, c)
  {
    forall d | d in c.drafts ensures WasCreated(steps + [step], x, d, c.drafts[d]) {
      CreatedLonger(steps, step, x, d, c.drafts[d]);
    }
    forall i | 0 <= i < |c.sent| ensures HasOrigin(steps + [step], x, i, c.sent[i]) {
      OriginLonger(steps, step, x, i, c.sent[i]);
    }
  }

  /** From `s` to `t` ledgers, drafts and hands stay as they are. */
  ghost predicate HandledNothing(s: State, t: State) {
    SameHands(s, t) && SameLedgers(s, t)
  }

  ghost predicate SameHands(s: State, t: State) {
    forall e :: e in t.execs && InHand(t.execs[e].at).Some? ==>
      e in s.execs && t.execs[e].at == s.execs[e].at && t.execs[e].ref == s.execs[e].ref
  }

  ghost predicate SameLedgers(s: State, t: State) {
    && |t.cells| >= |s.cells|
    && (forall x :: 0 <= x < |t.cells| ==>
          if x < |s.cells| then t.cells[x].sent == s.cells[x].sent && t.cells[x].drafts == s.cells[x].drafts
          else t.cells[x].sent == [] && t.cells[x].drafts == map[])
  }

  /** A step of the API. */
  predicate IsApi(step: Step) {
    step.SubmitSend? || step.EditDraft? || step.SubmitRun? || step.OperatorRetries? || step.OperatorAttests?
    || step.OperatorResends?
  }

  lemma ApiHandlesNothing(s: State, step: Step)
    requires Enabled(s, step) && IsApi(step)
    ensures HandledNothing(s, Apply(s, step))
  {
    assert Apply(s, step).execs == s.execs;
  }

  lemma ClaimHandlesNothing(s: State, worker: nat, limit: nat, locked: set<nat>)
    ensures HandledNothing(s, Apply(s, Claim(worker, limit, locked)))
  {
    var t := Apply(s, Claim(worker, limit, locked));
    assert t.cells == s.cells;
    forall e | e in t.execs && InHand(t.execs[e].at).Some? ensures e in s.execs && t.execs[e] == s.execs[e] {
      NewHandsEmpty(s.jobs, ToClaim(s.jobs, s.now, locked, limit), worker, s.now, e);
    }
  }

  lemma NewHandsEmpty(jobs: seq<JobRows.Job>, picked: set<nat>, worker: nat, now: nat, e: ExecId)
    requires forall i :: i in picked ==> i < |jobs|
    ensures e in NewExecs(jobs, picked, worker, now) ==> InHand(NewExecs(jobs, picked, worker, now)[e].at).None?
  {
  }

  lemma RestHandlesNothing(s: State, step: Step)
    requires Enabled(s, step) && !IsApi(step) && !step.Claim? && !step.Act?
    ensures HandledNothing(s, Apply(s, step))
  {
    assert Apply(s, step).cells == s.cells;
  }

  /** A step that is no statement leaves ledgers, drafts and hands alone. */
  lemma OthersHandleNothing(s: State, step: Step)
    requires Enabled(s, step) && !step.Act?
    ensures HandledNothing(s, Apply(s, step))
  {
    if IsApi(step) {
      ApiHandlesNothing(s, step);
    } else if step.Claim? {
      ClaimHandlesNothing(s, step.worker, step.limit, step.locked);
    } else {
      RestHandlesNothing(s, step);
    }
  }

  lemma OthersTraced(steps: seq<Step>, s: State, step: Step)
    requires HandsTraced(steps, s) && CellsTraced(steps, s) && Enabled(s, step) && !step.Act?
    ensures HandsTraced(steps + [step], Apply(s, step)) && CellsTraced(steps + [step], Apply(s, step))
  {
    var t := Apply(s, step);
    OthersHandleNothing(s, step);
    forall e | e in t.execs && InHand(t.execs[e].at).Some?
      ensures WasRead(steps + [step], t.execs[e].ref, e, InHand(t.execs[e].at).value)
    {
      ReadLonger(steps, step, t.execs[e].ref, e, InHand(t.execs[e].at).value);
    }
    forall x | 0 <= x < |t.cells| ensures CellTraced(steps + [step], x, t.cells[x]) {
      if x < |s.cells| {
        CellTracedLonger(steps, step, x, s.cells[x]);
      }
    }
  }

  // ------------------------------------------------------------------
  // Statements
  // ------------------------------------------------------------------

  lemma HandAfter(c: Cell, at: Point, a: Answer, attempts: nat, maxAttempts: nat)
    ensures var next := InHand(Following(c, at, a, attempts, maxAttempts));
            next.Some? ==> if at.Prepare? then next.value == c.content else InHand(at) == next
  {
  }

  /** What the acting executor has in hand afterwards. */
  lemma ActorTraced(steps: seq<Step>, s: State, e: ExecId, a: Answer)
    requires After(steps) == Some(s) && Enabled(s, Act(e, a)) && HandsTraced(steps, s)
    ensures var (more, t) := (steps + [Act(e, a)], Apply(s, Act(e, a)));
            InHand(t.execs[e].at).Some? ==> WasRead(more, t.execs[e].ref, e, InHand(t.execs[e].at).value)
  {
    var (x, more, t) := (s.execs[e], steps + [Act(e, a)], Apply(s, Act(e, a)));
    HandAfter(s.cells[x.ref], x.at, a, x.attempts, x.maxAttempts);
    if InHand(t.execs[e].at).Some? {
      if x.at.Prepare? {
        assert more[..|steps|] == steps;
        assert Reads(more, |steps|, x.ref, s.cells[x.ref].content) && more[|steps|].exec == e;
      } else {
        ReadLonger(steps, Act(e, a), x.ref, e, InHand(x.at).value);
      }
    }
  }

  lemma HandsStayTraced(steps: seq<Step>, s: State, e: ExecId, a: Answer)
    requires After(steps) == Some(s) && Enabled(s, Act(e, a)) && HandsTraced(steps, s)
    ensures HandsTraced(steps + [Act(e, a)], Apply(s, Act(e, a)))
  {
    var t := Apply(s, Act(e, a));
    forall f | f in t.execs && InHand(t.execs[f].at).Some?
      ensures WasRead(steps + [Act(e, a)], t.execs[f].ref, f, InHand(t.execs[f].at).value)
    {
      if f == e {
        ActorTraced(steps, s, e, a);
      } else {
        ReadLonger(steps, Act(e, a), t.execs[f].ref, f, InHand(t.execs[f].at).value);
      }
    }
  }

  /** What a statement does to the drafts and the ledger. */
  predicate Handled(c: Cell, at: Point, a: Answer, d: Cell) {
    && (forall k :: k in d.drafts ==>
          (k in c.drafts && d.drafts[k] == c.drafts[k])
          || (at.Prepare? && DraftOf(a) == Some(k) && d.drafts[k] == c.content))
    && (if at.Call? && a.Accepted?
        then |d.sent| == |c.sent| + 1 && d.sent[..|c.sent|] == c.sent
             && d.sent[|c.sent|].draft == at.draft
             && d.sent[|c.sent|].content ==
                  (if at.draft.Some? && at.draft.value in c.drafts then c.drafts[at.draft.value] else at.content)
        else d.sent == c.sent)
  }

  lemma EffectOnContents(c: Cell, at: Point, a: Answer, now: nat)
    ensures Handled(c, at, a, Effect(c, at, a, now))
  {
  }

  /** The step just taken, as a step of the run. */
  lemma RunsNow(steps: seq<Step>, s: State, e: ExecId, a: Answer)
    requires After(steps) == Some(s) && Enabled(s, Act(e, a))
    ensures var (more, x) := (steps + [Act(e, a)], s.execs[e].ref);
            && Runs(more, |steps|, x) && more[|steps|] == Act(e, a)
            && PointAt(more, |steps|, x) == s.execs[e].at && CellAt(more, |steps|, x) == s.cells[x]
  {
    assert (steps + [Act(e, a)])[..|steps|] == steps;
  }

  lemma FromDraft(steps: seq<Step>, step: Step, x: nat, i: nat, m: Message)
    requires Accepts(steps + [step], |steps|, x, i) && m.draft.Some? && WasCreated(steps, x, m.draft.value, m.content)
    ensures HasOrigin(steps + [step], x, i, m)
  {
    var k :| Creates(steps, k, x, m.draft.value, m.content);
    RunsLonger(steps, step, k, x);
    assert Origin(steps + [step], x, i, m, |steps|, k);
  }

  lemma FromHand(steps: seq<Step>, step: Step, x: nat, i: nat, m: Message)
    requires Accepts(steps + [step], |steps|, x, i) && m.draft.None? && step.Act? && WasRead(steps, x, step.exec, m.content)
    ensures HasOrigin(steps + [step], x, i, m)
  {
    var k: nat :| Reads(steps, k, x, m.content) && steps[k].exec == step.exec;
    RunsLonger(steps, step, k, x);
    assert Origin(steps + [step], x, i, m, |steps|, k);
  }

  /** The accepted message has an origin. */
  lemma AcceptedTraced(steps: seq<Step>, s: State, e: ExecId, a: Answer, m: Message)
    requires After(steps) == Some(s) && Enabled(s, Act(e, a)) && s.execs[e].at.Call? && a.Accepted?
    requires HandsTraced(steps, s) && CellTraced(steps, s.execs[e].ref, s.cells[s.execs[e].ref])
    requires var x := s.execs[e];
             var c := s.cells[x.ref];
             && m.draft == x.at.draft && (x.at.draft.Some? ==> x.at.draft.value in c.drafts)
             && m.content == if x.at.draft.Some? then c.drafts[x.at.draft.value] else x.at.content
    ensures HasOrigin(steps + [Act(e, a)], s.execs[e].ref, |s.cells[s.execs[e].ref].sent|, m)
  {
    var x := s.execs[e];
    RunsNow(steps, s, e, a);
    if m.draft.Some? {
      FromDraft(steps, Act(e, a), x.ref, |s.cells[x.ref].sent|, m);
    } else {
      assert WasRead(steps, x.ref, e, InHand(x.at).value);
      FromHand(steps, Act(e, a), x.ref, |s.cells[x.ref].sent|, m);
    }
  }

  /** Only Gmail sends from a draft, and only from one that is there. */
  lemma CallFromDraft(c: Cell, at: Point, a: Answer, now: nat)
    requires CellInv(c, now) && WorkerInv(c, at, now) && at.Call? && a.Accepted? && Possible(c, at, a, now)
    ensures at.draft.Some? ==> at.draft.value in c.drafts
  {
  }

  /** The statement takes the send from `c` to `d`. */
  ghost predicate Acts(steps: seq<Step>, s: State, e: ExecId, a: Answer, x: nat, c: Cell, at: Point, d: Cell) {
    && After(steps) == Some(s) && Inv(s) && Enabled(s, Act(e, a)) && s.execs[e].ref == x
    && s.cells[x] == c && s.execs[e].at == at && Handled(c, at, a, d)
    && HandsTraced(steps, s) && CellTraced(steps, x, c)
  }

  lemma DraftsTraced(steps: seq<Step>, s: State, e: ExecId, a: Answer, x: nat, c: Cell, at: Point, d: Cell, k: nat)
    requires Acts(steps, s, e, a, x, c, at, d) && k in d.drafts
    ensures WasCreated(steps + [Act(e, a)], x, k, d.drafts[k])
  {
    if k in c.drafts && d.drafts[k] == c.drafts[k] {
      CreatedLonger(steps, Act(e, a), x, k, c.drafts[k]);
    } else {
      RunsNow(steps, s, e, a);
      assert Creates(steps + [Act(e, a)], |steps|, x, k, c.content);
    }
  }

  lemma EarlierTraced(steps: seq<Step>, step: Step, x: nat, c: Cell, i: nat, m: Message)
    requires CellTraced(steps, x, c) && i < |c.sent| && m == c.sent[i]
    ensures HasOrigin(steps + [step], x, i, m)
  {
    OriginLonger(steps, step, x, i, m);
  }

  lemma SentBefore(c: Cell, at: Point, a: Answer, d: Cell, i: nat)
    requires Handled(c, at, a, d) && i < |d.sent|
    ensures if i < |c.sent| then d.sent[i] == c.sent[i]
            else at.Call? && a.Accepted? && i == |c.sent| && |d.sent| == |c.sent| + 1
  {
    if i < |c.sent| {
      assert d.sent[i] == d.sent[..|c.sent|][i];
    }
  }

  lemma SentTraced(steps: seq<Step>, s: State, e: ExecId, a: Answer, x: nat, c: Cell, at: Point, d: Cell, i: nat)
    requires Acts(steps, s, e, a, x, c, at, d) && i < |d.sent|
    ensures HasOrigin(steps + [Act(e, a)], x, i, d.sent[i])
  {
    SentBefore(c, at, a, d, i);
    if i < |c.sent| {
      EarlierTraced(steps, Act(e, a), x, c, i, d.sent[i]);
    } else {
      NewlySentTraced(steps, s, e, a, x, c, at, d);
    }
  }

  lemma NewlySentTraced(steps: seq<Step>, s: State, e: ExecId, a: Answer, x: nat, c: Cell, at: Point, d: Cell)
    requires Acts(steps, s, e, a, x, c, at, d) && at.Call? && a.Accepted? && |d.sent| == |c.sent| + 1
    ensures HasOrigin(steps + [Act(e, a)], x, |c.sent|, d.sent[|c.sent|])
  {
    CallerIsWorker(s, e, a);
    CallFromDraft(c, at, a, s.now);
    AcceptedTraced(steps, s, e, a, d.sent[|c.sent|]);
  }

  lemma CallerIsWorker(s: State, e: ExecId, a: Answer)
    requires Inv(s) && Enabled(s, Act(e, a)) && s.execs[e].at.Call?
    ensures CellInv(s.cells[s.execs[e].ref], s.now) && WorkerInv(s.cells[s.execs[e].ref], s.execs[e].at, s.now)
  {
    assert ExecInv(s, e, s.execs[e]);
  }

  lemma ActedCellTraced(steps: seq<Step>, s: State, e: ExecId, a: Answer, x: nat, c: Cell, at: Point, d: Cell)
    requires Acts(steps, s, e, a, x, c, at, d)
    ensures CellTraced(steps + [Act(e, a)], x, d)
  {
    forall k | k in d.drafts ensures WasCreated(steps + [Act(e, a)], x, k, d.drafts[k]) {
      DraftsTraced(steps, s, e, a, x, c, at, d, k);
    }
    forall i | 0 <= i < |d.sent| ensures HasOrigin(steps + [Act(e, a)], x, i, d.sent[i]) {
      SentTraced(steps, s, e, a, x, c, at, d, i);
    }
  }

  lemma ActTraced(steps: seq<Step>, s: State, e: ExecId, a: Answer)
    requires After(steps) == Some(s) && Inv(s) && Enabled(s, Act(e, a))
    requires HandsTraced(steps, s) && CellsTraced(steps, s)
    ensures HandsTraced(steps + [Act(e, a)], Apply(s, Act(e, a))) && CellsTraced(steps + [Act(e, a)], Apply(s, Act(e, a)))
  {
    HandsStayTraced(steps, s, e, a);
    var y := s.execs[e];
    EffectOnContents(s.cells[y.ref], y.at, a, s.now);
    ActedCellTraced(steps, s, e, a, y.ref, s.cells[y.ref], y.at, Effect(s.cells[y.ref], y.at, a, s.now));
    var t := Apply(s, Act(e, a));
    forall x | 0 <= x < |t.cells| ensures CellTraced(steps + [Act(e, a)], x, t.cells[x]) {
      if x != s.execs[e].ref {
        CellTracedLonger(steps, Act(e, a), x, s.cells[x]);
      }
    }
  }

  lemma {:induction false} AllTraced(steps: seq<Step>)
    requires After(steps).Some?
    ensures HandsTraced(steps, After(steps).value) && CellsTraced(steps, After(steps).value)
  {
    if steps != [] {
      var n := |steps| - 1;
      LastStep(steps);
      AllTraced(steps[..n]);
      ReachableInv(steps[..n]);
      var s := After(steps[..n]).value;
      assert steps == steps[..n] + [steps[n]];
      if steps[n].Act? {
        ActTraced(steps[..n], s, steps[n].exec, steps[n].answer);
      } else {
        OthersTraced(steps[..n], s, steps[n]);
      }
    }
  }

  // ------------------------------------------------------------------
  // What went out
  // ------------------------------------------------------------------

  lemma {:induction false} ConfirmedFixed(steps: seq<Step>, k: nat, x: nat)
    requires k <= |steps| && After(steps).Some? && After(steps[..k]).Some? && x < |After(steps[..k]).value.cells|
    ensures x < |After(steps).value.cells|
    ensures After(steps).value.cells[x].confirmed == After(steps[..k]).value.cells[x].confirmed
  {
    if k == |steps| {
      assert steps[..k] == steps;
    } else {
      var n := |steps| - 1;
      LastStep(steps);
      assert steps[..n][..k] == steps[..k];
      ConfirmedFixed(steps[..n], k, x);
      StepKeepsConfirmed(After(steps[..n]).value, steps[n], x);
    }
  }

  lemma StepKeepsConfirmed(s: State, step: Step, x: nat)
    requires Enabled(s, step) && x < |s.cells|
    ensures x < |Apply(s, step).cells| && Apply(s, step).cells[x].confirmed == s.cells[x].confirmed
  {
  }

  /** Every message was accepted by one call, and carries the draft as it was read for that
      call: by the calling claim itself, or, when it was sent from a stored draft, when
      that draft was created. So it is as confirmed exactly when that read was. */
  lemma SentAsConfirmedExactly(steps: seq<Step>, x: nat, i: nat) returns (a: nat, k: nat)
    requires After(steps).Some? && x < |After(steps).value.cells| && i < |After(steps).value.cells[x].sent|
    ensures Origin(steps, x, i, After(steps).value.cells[x].sent[i], a, k)
    ensures var c := After(steps).value.cells[x];
            c.sent[i].content == c.confirmed <==> CellAt(steps, k, x).content == CellAt(steps, k, x).confirmed
  {
    AllTraced(steps);
    var c := After(steps).value.cells[x];
    assert CellTraced(steps, x, c) && HasOrigin(steps, x, i, c.sent[i]);
    a, k :| Origin(steps, x, i, c.sent[i], a, k);
    ConfirmedFixed(steps, k, x);
  }

  /** What goes out is what was confirmed, as long as the draft is not edited between the
      claim and the read for that message; what happens to the draft afterwards does not
      matter. */
  lemma ConfirmedContentGoesOut(steps: seq<Step>, x: nat, i: nat) returns (a: nat, k: nat)
    requires After(steps).Some? && x < |After(steps).value.cells| && i < |After(steps).value.cells[x].sent|
    ensures var c := After(steps).value.cells[x];
            Origin(steps, x, i, c.sent[i], a, k)
            && (NeverEdited(steps[..k], x) ==> c.sent[i].content == c.confirmed)
  {
    a, k := SentAsConfirmedExactly(steps, x, i);
    if NeverEdited(steps[..k], x) {
      ReachableInv(steps[..k]);
      NoEditsCounted(steps[..k], x);
      assert CellInv(CellAt(steps, k, x), After(steps[..k]).value.now);
    }
  }
}
