/** What each provider can say about a send after a crash
    (`packages/core/send/slack.py`, `packages/core/send/gmail.py`, and the
    in-memory client of `packages/core/send/providers.py`). */
module Probes {
  import opened Basics

  /** A message the provider accepted for one fingerprint. `at` is our clock and
      `ts` the provider's stamp; `era` counts the forced resends ordered before
      the dispatch was cleared. `content` stands for recipient, subject and body. */
  datatype Message = Message(id: nat, era: nat, at: nat, ts: int, draft: Option<nat>, content: nat)

  datatype ProbeResult = Found(id: Option<nat>) | Absent | Inconclusive

  /** One entry of a channel's history: the key in its metadata, if any. */
  datatype Post = Post(key: Option<nat>, id: nat)

  const PROBE_WINDOW: nat := 60 * SECOND
  const PROBE_LIMIT: nat := 100

  function WindowStart(dispatchedAt: Option<nat>, now: nat): int {
    (if dispatchedAt.Some? then dispatchedAt.value else now) - PROBE_WINDOW
  }

  /** The first post carrying the key. */
  function FirstMatch(page: seq<Post>, key: nat): (r: Option<Post>)
    ensures r.Some? <==> exists p :: p in page && p.key == Some(key)
    ensures r.Some? ==> r.value in page && r.value.key == Some(key)
  {
    if page == [] then None
    else if page[0].key == Some(key) then Some(page[0])
    else FirstMatch(page[1..], key)
  }

  function SlackVerdict(page: seq<Post>, key: nat): ProbeResult {
    var hit := FirstMatch(page, key);
    if hit.Some? then Found(Some(hit.value.id))
    else if page == [] then Inconclusive
    else if forall p :: p in page ==> p.key.None? then Inconclusive
    else Absent
  }

  /** `drafts.get` on the recorded draft: `exists` is None when the call failed. */
  function GmailVerdict(draft: Option<nat>, found: Option<bool>): ProbeResult {
    if draft.None? || found.None? then Inconclusive
    else if found.value then Absent
    else Found(None)
  }

  /** The in-memory client looks the fingerprint up in its own ledger. */
  function FakeVerdict(sent: seq<Message>, forcedInconclusive: bool): ProbeResult {
    if forcedInconclusive then Inconclusive
    else if sent != [] then Found(Some(sent[0].id))
    else Absent
  }

  /** The provider's clock lags ours by less than the probe's margin. */
  predicate SkewBounded(sent: seq<Message>) {
    forall m :: m in sent ==> m.ts > m.at - 60_000_000
  }

  /** A page `conversations.history` may return for posts after `oldest`: it
      holds at most `PROBE_LIMIT` posts, only our own messages carry our key,
      and a page that is not full leaves out none of them. */
  predicate HistoryPage(page: seq<Post>, sent: seq<Message>, key: nat, oldest: int) {
    && |page| <= PROBE_LIMIT
    && (forall p :: p in page && p.key == Some(key) ==> exists m :: m in sent && m.id == p.id)
    && (|page| < PROBE_LIMIT ==>
          forall m :: m in sent && m.ts > oldest ==> Post(Some(key), m.id) in page)
  }

  lemma SlackVerdictMeaning(page: seq<Post>, key: nat)
    ensures SlackVerdict(page, key) == Absent <==>
            (exists p :: p in page && p.key.Some?) && (forall p :: p in page ==> p.key != Some(key))
    ensures SlackVerdict(page, key).Found? <==> exists p :: p in page && p.key == Some(key)
    ensures SlackVerdict(page, key).Found? ==>
              exists p :: p in page && p.key == Some(key) && SlackVerdict(page, key) == Found(Some(p.id))
  {
    if SlackVerdict(page, key).Found? {
      assert FirstMatch(page, key).value in page;
    }
  }

  /** Gmail's answer rests on the draft alone, and can never name a message. */
  lemma GmailVerdictMeaning(draft: Option<nat>, found: Option<bool>)
    ensures GmailVerdict(draft, found) == Absent <==> draft.Some? && found == Some(true)
    ensures GmailVerdict(draft, found) == Found(None) <==> draft.Some? && found == Some(false)
    ensures GmailVerdict(draft, found) == Inconclusive <==> draft.None? || found.None?
  {
  }

  /** The in-memory client names the first message it took, and denies exactly when it took none. */
  lemma FakeVerdictMeaning(sent: seq<Message>, forcedInconclusive: bool)
    ensures FakeVerdict(sent, forcedInconclusive) == Inconclusive <==> forcedInconclusive
    ensures FakeVerdict(sent, forcedInconclusive) == Absent <==> !forcedInconclusive && sent == []
    ensures FakeVerdict(sent, forcedInconclusive).Found? ==>
              sent != [] && FakeVerdict(sent, forcedInconclusive) == Found(Some(sent[0].id))
  {
  }

  /** On a page that is not full, Slack answers ABSENT only when nothing was
      posted at or after the dispatch the probe asks about. */
  lemma SlackAbsentIsUnsent(page: seq<Post>, sent: seq<Message>, key: nat, dispatchedAt: nat, now: nat)
    requires HistoryPage(page, sent, key, WindowStart(Some(dispatchedAt), now))
    requires |page| < PROBE_LIMIT && SkewBounded(sent)
    requires SlackVerdict(page, key) == Absent
    ensures forall m :: m in sent ==> m.at < dispatchedAt
  {
    SlackVerdictMeaning(page, key);
    forall m | m in sent ensures m.at < dispatchedAt {
      if m.at >= dispatchedAt {
        SeenInWindow(page, sent, key, WindowStart(Some(dispatchedAt), now), m);
        assert false;
      }
    }
  }

  lemma SeenInWindow(page: seq<Post>, sent: seq<Message>, key: nat, oldest: int, m: Message)
    requires HistoryPage(page, sent, key, oldest) && |page| < PROBE_LIMIT
    requires m in sent && m.ts > oldest
    ensures exists p :: p in page && p.key == Some(key)
  {
    assert Post(Some(key), m.id) in page;
  }

  /** Believing this page's ABSENT would not lead to a second copy. */
  ghost predicate AbsentHolds(page: seq<Post>, sent: seq<Message>, key: nat, dispatchedAt: nat) {
    && SkewBounded(sent)
    && HistoryPage(page, sent, key, WindowStart(Some(dispatchedAt), 0))
    && SlackVerdict(page, key) == Absent
    ==> forall m :: m in sent ==> m.at < dispatchedAt
  }

  /** The probe reads one page, and the length of that page decides whether its
      ABSENT can be believed. */
  lemma AbsentTrustworthyExactly(n: nat)
    requires n <= PROBE_LIMIT
    ensures (forall page: seq<Post>, sent: seq<Message>, key: nat, dispatchedAt: nat ::
               |page| == n ==> AbsentHolds(page, sent, key, dispatchedAt))
            <==> n < 100
  {
    if n < PROBE_LIMIT {
      forall page: seq<Post>, sent: seq<Message>, key: nat, dispatchedAt: nat | |page| == n
        ensures AbsentHolds(page, sent, key, dispatchedAt)
      {
        if SkewBounded(sent) && HistoryPage(page, sent, key, WindowStart(Some(dispatchedAt), 0))
           && SlackVerdict(page, key) == Absent
        {
          SlackAbsentIsUnsent(page, sent, key, dispatchedAt, 0);
        }
      }
    } else {
      // A hundred keyed posts of other senders push ours off the page.
      var page := seq(n, i => Post(Some(1), 7));
      var sent := [Message(3, 0, 10, 10, None, 0)];
      assert page[0] in page && page[0].key == Some(1);
      SlackVerdictMeaning(page, 0);
      assert sent[0] in sent && !(sent[0].at < 10);
      assert !AbsentHolds(page, sent, 0, 10);
    }
  }
}
