/** The claim: any number of `send_draft` calls racing for one (user, key)
    (`packages/core/send/claim.py`, `packages/core/send/service.py`). One step per
    statement; the unique constraint makes an insert wait while another call's
    insert is uncommitted. */
module SendGate {
  import opened Basics

  const CLAIM_RETRIES: nat := 3

  /** The `sends` row as far as the gate reads it. */
  datatype Claim = Claim(id: nat, digest: nat)

  datatype Refusal = ConfirmationRequired | BodyChanged | BodyMismatch | Contention

  datatype Reply =
    | Created(claim: Claim)                    // 201: this call owns the dispatch
    | Replayed(claim: Claim)                   // 200: somebody else's row
    | Refused(why: Refusal)
    | RolledBack

  datatype Phase =
    | Reading                                  // get_draft
    | Looking(expected: nat)                   // load_send_by_key
    | Inserting(tries: nat)
    | Selecting(tries: nat)
    | Enqueueing(claim: Claim)
    | Committing(claim: Claim)
    | Ended(reply: Reply)

  datatype Call = Call(confirmed: Option<nat>, phase: Phase)

  /** `draft` is the digest of the draft's content now; `jobs` the send ids of the
      jobs committed so far; `erased` counts rows removed with their user. */
  datatype Gate = Gate(
    draft: nat,
    row: Option<Claim>,
    holder: Option<nat>,
    jobs: seq<nat>,
    calls: seq<Call>,
    nextId: nat,
    erased: nat)

  function Empty(draft: nat): Gate {
    Gate(draft, None, None, [], [], 0, 0)
  }

  datatype Step = Arrive(confirmed: Option<nat>) | Edit(draft: nat) | Advance(call: nat) | Fail(call: nat) | Erase

  /** `_replay`: the row answers only a call that confirmed the same content. */
  function Replay(claim: Claim, confirmed: nat): Reply {
    if claim.digest != confirmed then Refused(BodyMismatch) else Replayed(claim)
  }

  predicate Enabled(g: Gate, step: Step) {
    match step
    case Advance(i) =>
      && i < |g.calls| && !g.calls[i].phase.Ended?
      && (g.calls[i].phase.Inserting? ==> g.holder.None?)
    case Fail(i) => i < |g.calls| && !g.calls[i].phase.Ended?
    case Erase => g.holder.None?
    case _ => true
  }

  /** The phase after one statement of a call. */
  function NextPhase(g: Gate, c: Call): Phase {
    match c.phase
    case Reading =>
      if c.confirmed.None? then Ended(Refused(ConfirmationRequired)) else Looking(g.draft)
    case Looking(expected) =>
      if c.confirmed.None? then c.phase
      else if g.row.Some? then Ended(Replay(g.row.value, c.confirmed.value))
      else if c.confirmed.value != expected then Ended(Refused(BodyChanged))
      else Inserting(0)
    case Inserting(tries) =>
      if c.confirmed.None? then c.phase
      else if g.row.None? then Enqueueing(Claim(g.nextId, c.confirmed.value))
      else Selecting(tries)
    case Selecting(tries) =>
      if c.confirmed.None? then c.phase
      else if g.row.Some? then Ended(Replay(g.row.value, c.confirmed.value))
      else if tries + 1 < CLAIM_RETRIES then Inserting(tries + 1)
      else Ended(Refused(Contention))
    case Enqueueing(claim) => Committing(claim)
    case Committing(claim) => Ended(Created(claim))
    case Ended(_) => c.phase
  }

  function Apply(g: Gate, step: Step): Gate
    requires Enabled(g, step)
  {
    match step
    case Arrive(confirmed) => g.(calls := g.calls + [Call(confirmed, Reading)])
    case Edit(draft) => g.(draft := draft)
    case Erase => g.(row := None, erased := g.erased + if g.row.Some? then 1 else 0)
    case Fail(i) =>
      g.(calls := g.calls[i := g.calls[i].(phase := Ended(RolledBack))],
         holder := if g.holder == Some(i) then None else g.holder)
    case Advance(i) =>
      var c := g.calls[i];
      var next := NextPhase(g, c);
      var moved := g.(calls := g.calls[i := c.(phase := next)]);
      if next.Enqueueing? then moved.(holder := Some(i), nextId := g.nextId + 1)
      else if c.phase.Committing? then
        moved.(row := Some(c.phase.claim), jobs := g.jobs + [c.phase.claim.id], holder := None)
      else moved
  }

  ghost function After(start: nat, steps: seq<Step>): Option<Gate> {
    if steps == [] then Some(Empty(start))
    else
      var before := After(start, steps[..|steps| - 1]);
      if before.Some? && Enabled(before.value, steps[|steps| - 1])
      then Some(Apply(before.value, steps[|steps| - 1]))
      else None
  }

  // ------------------------------------------------------------------
  // The invariant
  // ------------------------------------------------------------------

  predicate Holding(p: Phase) {
    p.Enqueueing? || p.Committing?
  }

  function Winners(calls: seq<Call>): nat {
    if calls == [] then 0
    else Winners(calls[..|calls| - 1]) +
         if calls[|calls| - 1].phase.Ended? && calls[|calls| - 1].phase.reply.Created? then 1 else 0
  }

  lemma {:induction false} WinnersAfterUpdate(calls: seq<Call>, i: nat, c: Call)
    requires i < |calls| && !calls[i].phase.Ended?
    ensures Winners(calls[i := c]) ==
            Winners(calls) + if c.phase.Ended? && c.phase.reply.Created? then 1 else 0
  {
    var n := |calls| - 1;
    if i == n {
      assert calls[i := c][..n] == calls[..n];
    } else {
      WinnersAfterUpdate(calls[..n], i, c);
      assert calls[i := c][..n] == calls[..n][i := c];
    }
  }

  /** What one call knows. */
  predicate CallInv(g: Gate, i: nat)
    requires i < |g.calls|
  {
    var c := g.calls[i];
    && (!c.phase.Reading? && !c.phase.Ended? ==> c.confirmed.Some?)
    && (Holding(c.phase) <==> g.holder == Some(i))
    && (Holding(c.phase) ==> c.phase.claim.id < g.nextId && c.phase.claim.id !in g.jobs
                             && c.confirmed == Some(c.phase.claim.digest))
    && (c.phase.Selecting? && g.erased == 0 ==> g.row.Some?)
    && (c.phase.Ended? ==> ReplyInv(g, c))
  }

  predicate ReplyInv(g: Gate, c: Call)
    requires c.phase.Ended?
  {
    match c.phase.reply
    case Created(claim) =>
      && claim.id in g.jobs && c.confirmed == Some(claim.digest)
      && (g.erased == 0 ==> g.row == Some(claim))
    case Replayed(claim) =>
      && claim.id in g.jobs && c.confirmed == Some(claim.digest)
      && (g.erased == 0 ==> g.row == Some(claim))
    case Refused(why) =>
      && (why == ConfirmationRequired ==> c.confirmed.None?)
      && (why == BodyMismatch && g.erased == 0 ==> g.row.Some? && c.confirmed != Some(g.row.value.digest))
      && (why == Contention ==> g.erased > 0)
    case RolledBack => true
  }

  predicate Inv(g: Gate) {
    && (forall i :: 0 <= i < |g.calls| ==> CallInv(g, i))
    && (g.holder.Some? ==> g.holder.value < |g.calls| && g.row.None?)
    && (g.row.Some? ==> g.row.value.id in g.jobs)
    && Distinct(g.jobs) && (forall id :: id in g.jobs ==> id < g.nextId)
    && |g.jobs| == Winners(g.calls) == g.erased + if g.row.Some? then 1 else 0
  }

  lemma AdvanceKeepsOthers(g: Gate, i: nat, k: nat)
    requires Inv(g) && Enabled(g, Advance(i)) && k < |g.calls| && k != i
    ensures CallInv(Apply(g, Advance(i)), k)
  {
    assert CallInv(g, k) && CallInv(g, i);
  }

  lemma AdvanceKeepsOwn(g: Gate, i: nat)
    requires Inv(g) && Enabled(g, Advance(i))
    ensures CallInv(Apply(g, Advance(i)), i)
  {
    assert CallInv(g, i);
  }

  lemma AdvanceKeeps(g: Gate, i: nat)
    requires Inv(g) && Enabled(g, Advance(i))
    ensures Inv(Apply(g, Advance(i)))
  {
    var t := Apply(g, Advance(i));
    assert CallInv(g, i);
    WinnersAfterUpdate(g.calls, i, t.calls[i]);
    AdvanceKeepsOwn(g, i);
    forall k | 0 <= k < |t.calls| && k != i ensures CallInv(t, k) {
      AdvanceKeepsOthers(g, i, k);
    }
  }

  lemma StepKeeps(g: Gate, step: Step)
    requires Inv(g) && Enabled(g, step)
    ensures Inv(Apply(g, step))
  {
    match step {
      case Advance(i) => AdvanceKeeps(g, i);
      case Fail(i) => FailKeeps(g, i);
      case Arrive(confirmed) => ArriveKeeps(g, confirmed);
      case Edit(draft) => EditKeeps(g, draft);
      case Erase => EraseKeeps(g);
    }
  }

  lemma FailKeeps(g: Gate, i: nat)
    requires Inv(g) && Enabled(g, Fail(i))
    ensures Inv(Apply(g, Fail(i)))
  {
    var t := Apply(g, Fail(i));
    WinnersAfterUpdate(g.calls, i, t.calls[i]);
    forall k | 0 <= k < |t.calls| ensures CallInv(t, k) { assert CallInv(g, k); }
  }

  lemma ArriveKeeps(g: Gate, confirmed: Option<nat>)
    requires Inv(g)
    ensures Inv(Apply(g, Arrive(confirmed)))
  {
    var t := Apply(g, Arrive(confirmed));
    assert t.calls[..|t.calls| - 1] == g.calls;
    forall k | 0 <= k < |g.calls| ensures CallInv(t, k) { assert CallInv(g, k); }
  }

  lemma EditKeeps(g: Gate, draft: nat)
    requires Inv(g)
    ensures Inv(Apply(g, Edit(draft)))
  {
    var t := Apply(g, Edit(draft));
    forall k | 0 <= k < |t.calls| ensures CallInv(t, k) { assert CallInv(g, k); }
  }

  lemma EraseKeeps(g: Gate)
    requires Inv(g) && Enabled(g, Erase)
    ensures Inv(Apply(g, Erase))
  {
    var t := Apply(g, Erase);
    forall k | 0 <= k < |t.calls| ensures CallInv(t, k) { assert CallInv(g, k); }
  }

  lemma {:induction false} ReachableInv(start: nat, steps: seq<Step>)
    ensures After(start, steps).Some? ==> Inv(After(start, steps).value)
  {
    if steps != [] {
      ReachableInv(start, steps[..|steps| - 1]);
      var before := After(start, steps[..|steps| - 1]);
      if before.Some? && Enabled(before.value, steps[|steps| - 1]) {
        StepKeeps(before.value, steps[|steps| - 1]);
      }
    }
  }

  // ------------------------------------------------------------------
  // The guarantees
  // ------------------------------------------------------------------

  /** A call that was told of a row was told of the one row there is, and only for
      content it confirmed; one refused for its content confirmed other content. */
  predicate ToldTheRow(g: Gate, c: Call) {
    c.phase.Ended? ==>
      var r := c.phase.reply;
      && (r.Created? || r.Replayed? ==> g.row == Some(r.claim) && c.confirmed == Some(r.claim.digest))
      && (r == Refused(BodyMismatch) ==> g.row.Some? && c.confirmed != Some(g.row.value.digest))
      && r != Refused(Contention)
  }

  /** Each committed row has exactly one winner and exactly one initial job;
      replays and refusals book none. Unless the row was erased with its user
      there is at most one, and every call that got a row got that one. */
  lemma OneWinnerOneJob(start: nat, steps: seq<Step>)
    requires After(start, steps).Some?
    ensures var g := After(start, steps).value;
            && Winners(g.calls) == |g.jobs| == g.erased + (if g.row.Some? then 1 else 0)
            && Distinct(g.jobs)
            && (g.row.Some? ==> g.row.value.id in g.jobs)
            && (g.erased == 0 ==> |g.jobs| <= 1 && forall i :: 0 <= i < |g.calls| ==> ToldTheRow(g, g.calls[i]))
  {
    ReachableInv(start, steps);
    var g := After(start, steps).value;
    forall i | 0 <= i < |g.calls| ensures g.erased == 0 ==> ToldTheRow(g, g.calls[i]) {
      assert CallInv(g, i);
    }
  }

  // ------------------------------------------------------------------
  // What a call read
  // ------------------------------------------------------------------

  /** At step `k` call `i` read the draft, which was then `draft`. */
  ghost predicate ReadsDraft(start: nat, steps: seq<Step>, i: nat, draft: nat, k: nat) {
    && k < |steps| && steps[k] == Advance(i) && After(start, steps[..k]).Some?
    && var g := After(start, steps[..k]).value;
       i < |g.calls| && g.calls[i].phase.Reading? && g.draft == draft
  }

  ghost predicate HasRead(start: nat, steps: seq<Step>, i: nat, draft: nat) {
    exists k: nat :: ReadsDraft(start, steps, i, draft, k)
  }

  /** At step `k` call `i` looked for the row of its key, and there was none. */
  ghost predicate LooksInVain(start: nat, steps: seq<Step>, i: nat, k: nat) {
    && k < |steps| && steps[k] == Advance(i) && After(start, steps[..k]).Some?
    && var g := After(start, steps[..k]).value;
       i < |g.calls| && g.calls[i].phase.Looking? && g.row.None?
  }

  ghost predicate HasLooked(start: nat, steps: seq<Step>, i: nat) {
    exists k: nat :: LooksInVain(start, steps, i, k)
  }

  /** At step `k` call `i` was shown this row, by its first look or after a conflict. */
  ghost predicate SeesRow(start: nat, steps: seq<Step>, i: nat, claim: Claim, k: nat) {
    && k < |steps| && steps[k] == Advance(i) && After(start, steps[..k]).Some?
    && var g := After(start, steps[..k]).value;
       i < |g.calls| && (g.calls[i].phase.Looking? || g.calls[i].phase.Selecting?) && g.row == Some(claim)
  }

  ghost predicate HasSeen(start: nat, steps: seq<Step>, i: nat, claim: Claim) {
    exists k: nat :: SeesRow(start, steps, i, claim, k)
  }

  /** It was shown a row with other content than it confirmed. */
  ghost predicate SawOther(start: nat, steps: seq<Step>, i: nat, confirmed: Option<nat>) {
    exists claim: Claim :: HasSeen(start, steps, i, claim) && confirmed != Some(claim.digest)
  }

  /** How many inserts call `i` has tried. */
  ghost function InsertsOf(start: nat, steps: seq<Step>, i: nat): nat {
    if steps == [] then 0
    else
      var (init, last) := (steps[..|steps| - 1], steps[|steps| - 1]);
      var g := After(start, init);
      InsertsOf(start, init, i)
      + if last == Advance(i) && g.Some? && i < |g.value.calls| && g.value.calls[i].phase.Inserting? then 1 else 0
  }

  /** It read other content than it confirmed. */
  ghost predicate ReadOther(start: nat, steps: seq<Step>, i: nat, confirmed: Option<nat>) {
    exists draft: nat :: HasRead(start, steps, i, draft) && confirmed != Some(draft)
  }

  /** What the phase of a call says of the draft it read. */
  ghost predicate PhaseTraced(start: nat, steps: seq<Step>, i: nat, c: Call) {
    && TriesTraced(start, steps, i, c)
    && ReadTraced(start, steps, i, c)
  }

  /** How often it has tried to insert by then. */
  ghost predicate TriesTraced(start: nat, steps: seq<Step>, i: nat, c: Call) {
    var n := InsertsOf(start, steps, i);
    match c.phase
    case Reading => n == 0
    case Looking(_) => n == 0
    case Inserting(tries) => n == tries < 3
    case Selecting(tries) => n == tries + 1 <= 3
    case Ended(reply) => n <= 3 && (reply == Refused(Contention) ==> n == 3)
    case _ => n <= 3
  }

  ghost predicate ReadTraced(start: nat, steps: seq<Step>, i: nat, c: Call) {
    match c.phase
    case Reading => true
    case Looking(expected) => HasRead(start, steps, i, expected)
    case Inserting(_) => ReadAsConfirmed(start, steps, i, c.confirmed)
    case Selecting(_) => ReadAsConfirmed(start, steps, i, c.confirmed)
    case Enqueueing(_) => ReadAsConfirmed(start, steps, i, c.confirmed)
    case Committing(_) => ReadAsConfirmed(start, steps, i, c.confirmed)
    case Ended(reply) =>
      && (reply.Created? ==> ReadAsConfirmed(start, steps, i, c.confirmed))
      && (reply == Refused(BodyChanged) ==> ReadOther(start, steps, i, c.confirmed) && HasLooked(start, steps, i))
      && (reply == Refused(ConfirmationRequired) ==> c.confirmed.None?)
      && (reply.Replayed? ==> HasSeen(start, steps, i, reply.claim) && c.confirmed == Some(reply.claim.digest))
      && (reply == Refused(BodyMismatch) ==> SawOther(start, steps, i, c.confirmed))
  }

  ghost predicate ReadAsConfirmed(start: nat, steps: seq<Step>, i: nat, confirmed: Option<nat>) {
    confirmed.Some? && HasRead(start, steps, i, confirmed.value) && HasLooked(start, steps, i)
  }

  lemma ReadLonger(start: nat, steps: seq<Step>, step: Step, i: nat, draft: nat)
    requires HasRead(start, steps, i, draft)
    ensures HasRead(start, steps + [step], i, draft)
  {
    var k: nat :| ReadsDraft(start, steps, i, draft, k);
    assert (steps + [step])[..k] == steps[..k];
    assert ReadsDraft(start, steps + [step], i, draft, k);
  }

  lemma LookedLonger(start: nat, steps: seq<Step>, step: Step, i: nat)
    requires HasLooked(start, steps, i)
    ensures HasLooked(start, steps + [step], i)
  {
    var k: nat :| LooksInVain(start, steps, i, k);
    assert (steps + [step])[..k] == steps[..k];
    assert LooksInVain(start, steps + [step], i, k);
  }

  lemma SeenLonger(start: nat, steps: seq<Step>, step: Step, i: nat, claim: Claim)
    requires HasSeen(start, steps, i, claim)
    ensures HasSeen(start, steps + [step], i, claim)
  {
    var k: nat :| SeesRow(start, steps, i, claim, k);
    assert (steps + [step])[..k] == steps[..k];
    assert SeesRow(start, steps + [step], i, claim, k);
  }

  lemma TracedLonger(start: nat, steps: seq<Step>, step: Step, i: nat, c: Call)
    requires ReadTraced(start, steps, i, c)
    ensures ReadTraced(start, steps + [step], i, c)
  {
    forall claim: Claim | HasSeen(start, steps, i, claim) ensures HasSeen(start, steps + [step], i, claim) {
      SeenLonger(start, steps, step, i, claim);
    }
    if HasLooked(start, steps, i) {
      LookedLonger(start, steps, step, i);
    }
    forall draft: nat | HasRead(start, steps, i, draft) ensures HasRead(start, steps + [step], i, draft) {
      ReadLonger(start, steps, step, i, draft);
    }
  }

  lemma AdvanceTraced(start: nat, steps: seq<Step>, g: Gate, i: nat)
    requires After(start, steps) == Some(g) && Inv(g) && Enabled(g, Advance(i)) && PhaseTraced(start, steps, i, g.calls[i])
    ensures PhaseTraced(start, steps + [Advance(i)], i, Apply(g, Advance(i)).calls[i])
  {
    var (c, more) := (g.calls[i], steps + [Advance(i)]);
    assert CallInv(g, i);
    assert more[..|steps|] == steps && more[..|more| - 1] == steps;
    TracedLonger(start, steps, Advance(i), i, c);
    if g.row.Some? && (c.phase.Looking? || c.phase.Selecting?) {
      assert SeesRow(start, more, i, g.row.value, |steps|);
    }
    if c.phase.Reading? {
      assert ReadsDraft(start, more, i, g.draft, |steps|);
    } else if c.phase.Looking? && g.row.None? {
      assert LooksInVain(start, more, i, |steps|);
    }
  }

  lemma {:induction false} AllTraced(start: nat, steps: seq<Step>, i: nat)
    requires After(start, steps).Some? && i < |After(start, steps).value.calls|
    ensures PhaseTraced(start, steps, i, After(start, steps).value.calls[i])
  {
    if steps != [] {
      var (init, last) := (steps[..|steps| - 1], steps[|steps| - 1]);
      var g := After(start, init).value;
      assert steps == init + [last];
      ReachableInv(start, init);
      if i < |g.calls| {
        AllTraced(start, init, i);
        if last == Advance(i) {
          AdvanceTraced(start, init, g, i);
        } else {
          TracedLonger(start, init, last, i, g.calls[i]);
          assert (init + [last])[..|init|] == init;
        }
      } else {
        NoInserts(start, init, i);
        assert (init + [last])[..|init|] == init;
      }
    }
  }

  lemma {:induction false} NoInserts(start: nat, steps: seq<Step>, i: nat)
    requires After(start, steps).Some? && i >= |After(start, steps).value.calls|
    ensures InsertsOf(start, steps, i) == 0
  {
    if steps != [] {
      NoInserts(start, steps[..|steps| - 1], i);
    }
  }

  /** A call gets a new row only for the content it confirmed, when that was the content of
      the draft as the call itself read it and the call found no row of its key. One
      refused because the draft had changed found no row either, and read other content
      than it confirmed; one refused for want of a confirmation brought none. One that was
      given an existing row was shown that row and had confirmed its content; one refused
      for another body was shown a row with other content; and one that gave up had
      tried to insert three times. */
  ghost predicate Justified(start: nat, steps: seq<Step>, i: nat, confirmed: Option<nat>, reply: Reply) {
    match reply
    case Created(claim) =>
      confirmed == Some(claim.digest) && HasRead(start, steps, i, claim.digest) && HasLooked(start, steps, i)
    case Refused(why) =>
      && (why == BodyChanged ==> ReadOther(start, steps, i, confirmed) && HasLooked(start, steps, i))
      && (why == ConfirmationRequired ==> confirmed.None?)
      && (why == BodyMismatch ==> SawOther(start, steps, i, confirmed))
      && (why == Contention ==> InsertsOf(start, steps, i) == 3)
    case Replayed(claim) => HasSeen(start, steps, i, claim) && confirmed == Some(claim.digest)
    case RolledBack => true
  }

  lemma RepliesJustified(start: nat, steps: seq<Step>, i: nat)
    requires After(start, steps).Some? && i < |After(start, steps).value.calls|
    requires After(start, steps).value.calls[i].phase.Ended?
    ensures var c := After(start, steps).value.calls[i];
            Justified(start, steps, i, c.confirmed, c.phase.reply)
  {
    AllTraced(start, steps, i);
    ReachableInv(start, steps);
    assert CallInv(After(start, steps).value, i);
  }

  /** A call reads the draft once. */
  lemma {:induction false} ReadsOnce(start: nat, steps: seq<Step>, i: nat, k: nat, m: nat, a: nat, b: nat)
    requires After(start, steps).Some? && k < m
    requires ReadsDraft(start, steps, i, a, k)
    ensures !ReadsDraft(start, steps, i, b, m)
  {
    if ReadsDraft(start, steps, i, b, m) {
      assert steps[..k + 1][..k] == steps[..k];
      assert steps[..m][..k + 1] == steps[..k + 1];
      PastReading(start, steps[..m], k + 1, i);
    }
  }

  lemma {:induction false} PastReading(start: nat, steps: seq<Step>, k: nat, i: nat)
    requires k <= |steps| && After(start, steps).Some? && After(start, steps[..k]).Some?
    requires i < |After(start, steps[..k]).value.calls| && !After(start, steps[..k]).value.calls[i].phase.Reading?
    ensures i < |After(start, steps).value.calls| && !After(start, steps).value.calls[i].phase.Reading?
  {
    if k == |steps| {
      assert steps[..k] == steps;
    } else {
      assert steps[..|steps| - 1][..k] == steps[..k];
      PastReading(start, steps[..|steps| - 1], k, i);
    }
  }

  // ------------------------------------------------------------------
  // The call as it is written
  // ------------------------------------------------------------------

  /** How `claim_send` ends; a call that never resumed is interrupted. */
  datatype ClaimResult = Won(claim: Claim) | Existing(claim: Claim) | Contended | Interrupted

  /** Where each ending leaves the call. */
  function Outcome(r: ClaimResult, confirmed: nat): Phase
    requires !r.Interrupted?
  {
    match r
    case Won(claim) => Enqueueing(claim)
    case Existing(claim) => Ended(Replay(claim, confirmed))
    case Contended => Ended(Refused(Contention))
  }

  class Api {
    var g: Gate
    const start: nat
    ghost var history: seq<Step>

    ghost predicate Valid()
      reads this
    {
      After(start, history) == Some(g)
    }

    constructor (draft: nat)
      ensures Valid() && g == Empty(draft)
    {
      g := Empty(draft);
      start := draft;
      history := [];
    }

    predicate At(i: nat, c: Call)
      reads this
    {
      i < |g.calls| && g.calls[i] == c
    }

    method Take(step: Step)
      requires Valid() && Enabled(g, step)
      modifies this
      ensures Valid() && g == Apply(old(g), step) && history == old(history) + [step]
    {
      g := Apply(g, step);
      history := history + [step];
      assert history[..|history| - 1] == old(history);
    }

    /** Waits for the other calls, then runs one statement of call `i`: the state
        it ran in, or None when the call never resumed. */
    method Statement(i: nat) returns (seen: Option<Gate>)
      requires Valid() && i < |g.calls| && !g.calls[i].phase.Ended?
      modifies this
      ensures Valid() && old(history) <= history
      ensures seen.Some? ==> At(i, old(g.calls[i]).(phase := NextPhase(seen.value, old(g.calls[i]))))
    {
      var call := g.calls[i];
      var more: seq<Step> := *;
      for k := 0 to |more|
        invariant Valid() && old(history) <= history
      {
        if Enabled(g, more[k]) {
          Take(more[k]);
        }
      }
      if !At(i, call) || !Enabled(g, Advance(i)) {
        return None;
      }
      seen := Some(g);
      Take(Advance(i));
    }

    /** `claim_send`: insert, and on a conflict read the winner's row, at most
        three times. */
    method ClaimSend(i: nat, confirmed: nat) returns (r: ClaimResult)
      requires Valid() && At(i, Call(Some(confirmed), Inserting(0)))
      modifies this
      ensures Valid() && old(history) <= history
      ensures !r.Interrupted? ==> At(i, Call(Some(confirmed), Outcome(r, confirmed)))
    {
      for tries := 0 to CLAIM_RETRIES
        invariant Valid() && old(history) <= history
        invariant At(i, Call(Some(confirmed), if tries < CLAIM_RETRIES then Inserting(tries) else Ended(Refused(Contention))))
      {
        var inserted := Statement(i);
        if inserted.None? {
          return Interrupted;
        }
        if inserted.value.row.None? {
          return Won(Claim(inserted.value.nextId, confirmed));
        }
        var existing := Statement(i);
        if existing.None? {
          return Interrupted;
        }
        if existing.value.row.Some? {
          return Existing(existing.value.row.value);
        }
      }
      return Contended;
    }

    /** `send_draft` on an arriving call. Whatever happens meanwhile, the reply it
        gives is the one its call ended with, and the one row has one job. */
    method SendDraft(confirmed: Option<nat>) returns (i: nat, reply: Option<Reply>)
      requires Valid()
      modifies this
      ensures Valid() && old(history) <= history
      ensures reply.Some? ==> At(i, Call(confirmed, Ended(reply.value)))
      ensures reply.Some? ==> Justified(start, history, i, confirmed, reply.value)
      ensures Winners(g.calls) == |g.jobs| <= 1 + g.erased
    {
      i := |g.calls|;
      Take(Arrive(confirmed));
      reply := Decide(i, confirmed);
      ReachableInv(start, history);
      if reply.Some? {
        RepliesJustified(start, history, i);
      }
    }

    method Decide(i: nat, confirmed: Option<nat>) returns (reply: Option<Reply>)
      requires Valid() && At(i, Call(confirmed, Reading))
      modifies this
      ensures Valid() && old(history) <= history
      ensures reply.Some? ==> At(i, Call(confirmed, Ended(reply.value)))
    {
      var view := Statement(i);
      if view.None? { return None; }
      if confirmed.None? {
        return Some(Refused(ConfirmationRequired));
      }
      var existing := Statement(i);
      if existing.None? { return None; }
      if existing.value.row.Some? {
        return Some(Replay(existing.value.row.value, confirmed.value));
      }
      if confirmed.value != view.value.draft {
        return Some(Refused(BodyChanged));
      }
      var claimed := ClaimSend(i, confirmed.value);
      match claimed {
        case Interrupted => return None;
        case Contended => return Some(Refused(Contention));
        case Existing(claim) => return Some(Replay(claim, confirmed.value));
        case Won(claim) =>
          var enqueued := Statement(i);
          if enqueued.None? { return None; }
          var committed := Statement(i);
          return if committed.None? then None else Some(Created(claim));
      }
    }
  }
}
