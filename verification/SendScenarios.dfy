/** Runs that show where a promise of the send gate stops. */
module SendScenarios {
  import opened Basics
  import opened SendRows
  import opened Probes
  import opened JobRows
  import opened JobTable
  import opened SendHandler
  import opened SendSystem

  const FIRST: ExecId := Worker(0, 1)

  function Opening(content: nat): seq<Step> {
    [SubmitSend(Fake, 0, content, 1), Claim(7, 1, {}), Begin(FIRST)]
  }

  lemma Extend(steps: seq<Step>, step: Step)
    requires After(steps).Some? && Enabled(After(steps).value, step)
    ensures After(steps + [step]) == Some(Apply(After(steps).value, step))
  {
    assert (steps + [step])[..|steps|] == steps;
  }

  function TheJob(): Job {
    Enqueued(SendJob, 0, Some(ForSend(0)), Some(Partition(Fake, 0)), 0, 0, 1)
  }

  function TheCell(content: nat): Cell {
    Cell(0, Fake, 0, FRESH, Tally(0, 0, 0, 0, 0), content, content, [], map[])
  }

  lemma Submitted(content: nat)
    ensures After(Opening(content)[..1]) == Some(State([TheCell(content)], [TheJob()], map[], 0))
  {
    assert After([]) == Some(INITIAL);
    Extend([], SubmitSend(Fake, 0, content, 1));
    assert [] + [SubmitSend(Fake, 0, content, 1)] == Opening(content)[..1];
    assert !Conflicts([], TheJob().dedupeKey);
    assert [] + [TheJob()] == [TheJob()] && [] + [TheCell(content)] == [TheCell(content)];
  }

  lemma OnlyJobIsTaken()
    ensures ToClaim([TheJob()], 0, {}, 1) == {0}
  {
    assert Eligible([TheJob()], 0, 0);
    ClaimTakesPartitionLeaders([TheJob()], 0, {}, 1);
    var picked := ToClaim([TheJob()], 0, {}, 1);
    assert forall i :: i in picked ==> Eligible([TheJob()], 0, i);
    assert forall i :: i in picked ==> i == 0;
  }

  lemma Taken(content: nat)
    ensures After(Opening(content)[..2]).Some?
    ensures var s := After(Opening(content)[..2]).value;
            && s.cells == [TheCell(content)] && s.now == 0
            && FIRST in s.execs && s.execs[FIRST] == NewExec(0, TheJob(), 7, 0)
  {
    Submitted(content);
    OnlyJobIsTaken();
    Extend(Opening(content)[..1], Claim(7, 1, {}));
    assert Opening(content)[..1] + [Claim(7, 1, {})] == Opening(content)[..2];
  }

  /** The worker of the one send is at a program point, in time. */
  predicate AtPoint(s: State, c: Cell, at: Point) {
    && s.cells == [c] && s.now == 0 && FIRST in s.execs
    && s.execs[FIRST].at == at && s.execs[FIRST].ref == 0 && s.execs[FIRST].until == SEND_DEADLINE
    && s.execs[FIRST].attempts == 1 && s.execs[FIRST].maxAttempts == 1
  }

  /** A send is submitted, claimed and begun: its worker is about to load it. */
  lemma Opened(content: nat)
    ensures After(Opening(content)).Some? && AtPoint(After(Opening(content)).value, TheCell(content), Load)
  {
    Taken(content);
    Extend(Opening(content)[..2], Begin(FIRST));
    assert Opening(content)[..2] + [Begin(FIRST)] == Opening(content);
  }

  /** Some run without a forced resend brings the worker here. */
  ghost predicate CanReach(c: Cell, at: Point) {
    exists steps :: Reaches(steps, c, at)
  }

  ghost predicate Reaches(steps: seq<Step>, c: Cell, at: Point) {
    After(steps).Some? && AtPoint(After(steps).value, c, at) && OperatorResends(0) !in steps
  }

  /** The send the system holds at the end of some run without a forced resend. */
  ghost predicate Arises(c: Cell) {
    exists steps :: EndsWith(steps, c)
  }

  ghost predicate EndsWith(steps: seq<Step>, c: Cell) {
    After(steps).Some? && After(steps).value.cells == [c] && OperatorResends(0) !in steps
  }

  lemma ReachedArises(c: Cell, at: Point)
    requires CanReach(c, at)
    ensures Arises(c)
  {
    var steps :| Reaches(steps, c, at);
    assert EndsWith(steps, c);
  }

  lemma CanOpen(content: nat)
    ensures CanReach(TheCell(content), Load)
  {
    Opened(content);
    assert Reaches(Opening(content), TheCell(content), Load);
  }

  /** One more statement of the worker. */
  lemma CanRun(c: Cell, at: Point, a: Answer)
    requires CanReach(c, at) && Handling(at) && Possible(c, at, a, 0)
    ensures CanReach(Effect(c, at, a, 0), Following(c, at, a, 1, 1))
  {
    var steps :| Reaches(steps, c, at);
    Extend(steps, Act(FIRST, a));
    assert Reaches(steps + [Act(FIRST, a)], Effect(c, at, a, 0), Following(c, at, a, 1, 1));
  }

  function Edited(c: Cell, content: nat): Cell {
    c.(content := content, tally := c.tally.(edits := c.tally.edits + 1))
  }

  lemma EditStep(s: State, c: Cell, at: Point, content: nat)
    requires AtPoint(s, c, at)
    ensures Enabled(s, EditDraft(0, content)) && AtPoint(Apply(s, EditDraft(0, content)), Edited(c, content), at)
  {
  }

  /** An edit of the draft, which nothing forbids. */
  lemma CanEdit(c: Cell, at: Point, content: nat)
    requires CanReach(c, at)
    ensures CanReach(Edited(c, content), at)
  {
    var steps :| Reaches(steps, c, at);
    EditStep(After(steps).value, c, at, content);
    Extend(steps, EditDraft(0, content));
    assert Reaches(steps + [EditDraft(0, content)], Edited(c, content), at);
  }

  /** From loading the row to the point of the provider call. */
  lemma CanCall(c: Cell)
    requires CanReach(c, Load) && c.row == FRESH && c.channel == Fake && c.tally.forced == 0
    ensures CanReach(c.(row := CommitDispatchAttempt(FRESH, None, 0)), Call(None, 0, c.content))
  {
    CanRun(c, Load, Done);
    CanRun(c, Prepare(None, true, 0), Prepared(None));
    CanRun(c, Commit(None, true, 0, c.content), Done);
  }

  /** The provider takes the message; its answer may be lost. */
  function Sent(c: Cell, content: nat): Cell {
    c.(tally := c.tally.(calls := c.tally.calls + 1), sent := c.sent + [Message(9, 0, 0, 0, None, content)])
  }

  lemma CanBeAccepted(c: Cell, content: nat, lost: Option<ErrorClass>)
    requires CanReach(c, Call(None, 0, content)) && c.channel == Fake
    ensures CanReach(Sent(c, content), if lost.None? then Deliver(9, None) else Ladder(lost.value, 1, 1, None))
  {
    CanRun(c, Call(None, 0, content), Accepted(9, 0, lost));
  }

  lemma CanFailForGood(c: Cell)
    requires CanReach(c, FailForGood(Permanent, None))
    ensures Arises(c.(row := SetTerminal(c.row, FailedPermanent, Permanent)))
  {
    CanRun(c, FailForGood(Permanent, None), Done);
    ReachedArises(c.(row := SetTerminal(c.row, FailedPermanent, Permanent)), Settle(RaisedError(Permanent)));
  }

  lemma CanDeliver(c: Cell) returns (d: Cell)
    requires CanReach(c, Load) && c.row == FRESH && c.channel == Fake && c.tally.forced == 0 && c.sent == []
    ensures Arises(d) && |d.sent| == 1 && d.sent[0].content == c.content && d.confirmed == c.confirmed
  {
    var called := c.(row := CommitDispatchAttempt(FRESH, None, 0));
    CanCall(c);
    CanBeAccepted(called, c.content, None);
    d := Sent(called, c.content);
    ReachedArises(d, Deliver(9, None));
  }

  lemma CanLoseAnswer(c: Cell) returns (d: Cell)
    requires CanReach(c, Load) && c.row == FRESH && c.channel == Fake && c.tally.forced == 0 && c.sent == []
    ensures Arises(d) && |d.sent| == 1 && d.row.state == FailedPermanent
  {
    var called := c.(row := CommitDispatchAttempt(FRESH, None, 0));
    CanCall(c);
    CanBeAccepted(called, c.content, Some(Permanent));
    var sent := Sent(called, c.content);
    CanFailForGood(sent);
    d := sent.(row := SetTerminal(sent.row, FailedPermanent, Permanent));
  }

  /** `failed_permanent` does not say that nothing went out: the provider may
      accept the message and the answer still be lost to an error that is not
      transient. No operator is involved. */
  lemma FailedPermanentMayHaveGoneOut()
    ensures exists c :: Arises(c) && c.row.state == FailedPermanent && |c.sent| == 1
  {
    CanOpen(5);
    var c := CanLoseAnswer(TheCell(5));
  }

  /** An edit between the claim and the dispatch goes out unconfirmed. */
  lemma EditedDraftGoesOut()
    ensures exists c :: Arises(c) && |c.sent| == 1 && c.sent[0].content != c.confirmed
  {
    CanOpen(5);
    CanEdit(TheCell(5), Load, 6);
    var c := CanDeliver(Edited(TheCell(5), 6));
  }
}
