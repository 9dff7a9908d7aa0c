/** Walking a listing page by page (`page` in `apps/api/paging.py`, `list_sends` in
    `packages/core/send/service.py`), while rows are being added. */
module Paging {
  import opened Basics
  import opened Cursors

  /** How a position is turned into the text a client holds, and read back. */
  datatype Codec = Codec(encode: Cursor -> string, decode: string -> Option<Cursor>)

  const CURSORS := Codec(Encode, Decode)

  /** Positions come back, and none looks like no cursor at all. */
  ghost predicate Sound(codec: Codec) {
    forall c: Cursor :: c.Valid() ==> codec.decode(codec.encode(c)) == Some(c) && codec.encode(c) != ""
  }

  lemma CursorsSound()
    ensures Sound(CURSORS)
  {
    forall c: Cursor | c.Valid() ensures Decode(Encode(c)) == Some(c) && Encode(c) != "" {
      RoundTrip(c);
      NeverEmpty(c);
    }
  }

  /** A row of the listing; `id` is its primary key. */
  datatype Row = Row(key: Cursor, detail: string)

  predicate Newer(a: Cursor, b: Cursor) {
    a.at.Instant() > b.at.Instant() || (a.at.Instant() == b.at.Instant() && a.id > b.id)
  }

  /** One row comes before another when it was created later, or at the same instant with the
      larger id. */
  lemma NewerMeans(a: Cursor, b: Cursor)
    requires a.Valid() && b.Valid()
    ensures Newer(a, b) <==> Later(a.at, b.at) || (a.at == b.at && a.id > b.id)
  {
    InstantOrders(a.at, b.at);
  }

  /** A caller's rows, newest first. */
  predicate Listing(rows: seq<Row>) {
    && (forall i :: 0 <= i < |rows| ==> rows[i].key.Valid())
    && (forall i, j :: 0 <= i < j < |rows| ==> Newer(rows[i].key, rows[j].key))
  }

  /** The rows the keyset condition lets through. */
  function Below(rows: seq<Row>, before: Option<Cursor>): seq<Row> {
    if rows == [] then []
    else
      (if before.None? || Newer(before.value, rows[0].key) then [rows[0]] else []) + Below(rows[1..], before)
  }

  datatype Page = Page(rows: seq<Row>, next: Option<string>)

  /** Trims an over-fetched result and mints the next cursor. */
  function Trim(codec: Codec, rows: seq<Row>, limit: nat): Page
    requires limit > 0
  {
    if |rows| <= limit then Page(rows, None) else Page(rows[..limit], Some(codec.encode(rows[limit - 1].key)))
  }

  /** One request against the listing as it is. No value stands for `invalid_cursor`. */
  function Request(codec: Codec, rows: seq<Row>, limit: nat, cursor: Option<string>): Option<Page>
    requires limit > 0
  {
    if cursor.None? || cursor.value == "" then Some(Trim(codec, Take(Below(rows, None), limit + 1), limit))
    else
      match codec.decode(cursor.value)
      case None => None
      case Some(c) => Some(Trim(codec, Take(Below(rows, Some(c)), limit + 1), limit))
  }

  datatype Walked = Walked(rows: seq<Row>, ended: bool)

  /** A reader who follows each page's cursor, meeting the listing in a new state every time. */
  function Walk(codec: Codec, states: seq<seq<Row>>, limit: nat, cursor: Option<string>): Option<Walked>
    requires limit > 0
  {
    if states == [] then Some(Walked([], false))
    else
      match Request(codec, states[0], limit, cursor)
      case None => None
      case Some(page) =>
        if page.next.None? then Some(Walked(page.rows, true))
        else
          match Walk(codec, states[1..], limit, page.next)
          case None => None
          case Some(more) => Some(Walked(page.rows + more.rows, more.ended))
  }

  /** From `now` to `later` rows were only added, and none of them below `at`. */
  ghost predicate AddedAbove(now: seq<Row>, later: seq<Row>, at: Cursor) {
    && (forall r :: r in now ==> r in later)
    && (forall r :: r in later && r !in now ==> Newer(r.key, at))
  }

  /** What happens to the listing between a reader's requests, when the reader is at `at`. */
  ghost predicate Undisturbed(states: seq<seq<Row>>, limit: nat, at: Option<Cursor>)
    requires limit > 0
  {
    |states| >= 1 ==>
      && Listing(states[0])
      && var ahead := Below(states[0], at);
         (|states| >= 2 && |ahead| > limit ==>
            && AddedAbove(states[0], states[1], ahead[limit - 1].key)
            && Undisturbed(states[1..], limit, Some(ahead[limit - 1].key)))
  }

  // ------------------------------------------------------------------
  // What lies below a position
  // ------------------------------------------------------------------

  lemma {:induction false} BelowHolds(rows: seq<Row>, before: Option<Cursor>)
    ensures forall r :: r in Below(rows, before) <==> r in rows && (before.None? || Newer(before.value, r.key))
  {
    if rows != [] {
      BelowHolds(rows[1..], before);
    }
  }

  lemma {:induction false} BelowListing(rows: seq<Row>, before: Option<Cursor>)
    requires Listing(rows)
    ensures Listing(Below(rows, before))
  {
    if rows != [] {
      BelowListing(rows[1..], before);
      BelowHolds(rows[1..], before);
      var rest := Below(rows[1..], before);
      forall j | 0 <= j < |rest| ensures Newer(rows[0].key, rest[j].key) {
        assert rest[j] in rest;
        TailOlder(rows, rest[j]);
      }
      OneMore(rows[0], rest);
    }
  }

  lemma TailOlder(rows: seq<Row>, r: Row)
    requires Listing(rows) && rows != [] && r in rows[1..]
    ensures Newer(rows[0].key, r.key)
  {
    var i :| 0 <= i < |rows[1..]| && rows[1..][i] == r;
    assert rows[i + 1] == r;
  }

  lemma OneMore(r: Row, rest: seq<Row>)
    requires Listing(rest) && r.key.Valid() && forall j :: 0 <= j < |rest| ==> Newer(r.key, rest[j].key)
    ensures Listing([r] + rest)
  {
  }

  lemma {:induction false} BelowEverything(rows: seq<Row>)
    ensures Below(rows, None) == rows
  {
    if rows != [] {
      BelowEverything(rows[1..]);
    }
  }

  lemma FirstIn(rows: seq<Row>)
    requires rows != []
    ensures rows[0] in rows
  {
  }

  lemma SameFirst(a: seq<Row>, b: seq<Row>)
    requires Listing(a) && Listing(b) && a != [] && forall r :: r in a <==> r in b
    ensures b != [] && a[0] == b[0]
  {
    assert a[0] in b;
    var i :| 0 <= i < |b| && b[i] == a[0];
    assert b[0] in a;
    var j :| 0 <= j < |a| && a[j] == b[0];
  }

  /** A listing is settled by which rows it has. */
  lemma {:induction false} SameRowsSameListing(a: seq<Row>, b: seq<Row>)
    requires Listing(a) && Listing(b) && forall r :: r in a <==> r in b
    ensures a == b
  {
    if a == [] {
      if b != [] { FirstIn(b); }
    } else {
      SameFirst(a, b);
      forall r ensures r in a[1..] <==> r in b[1..] {
        TailMembers(a, r);
        TailMembers(b, r);
      }
      SameRowsSameListing(a[1..], b[1..]);
      assert a == [a[0]] + a[1..] && b == [b[0]] + b[1..];
    }
  }

  lemma TailMembers(rows: seq<Row>, r: Row)
    requires Listing(rows) && rows != []
    ensures r in rows[1..] <==> r in rows && r != rows[0]
  {
    if r in rows[1..] {
      var i :| 0 <= i < |rows[1..]| && rows[1..][i] == r;
      assert rows[i + 1] == r;
    }
    if r in rows && r != rows[0] {
      var i :| 0 <= i < |rows| && rows[i] == r;
      assert rows[1..][i - 1] == r;
    }
  }

  lemma BehindLast(ahead: seq<Row>, limit: nat, r: Row)
    requires Listing(ahead) && 0 < limit <= |ahead|
    ensures r in ahead[limit..] <==> r in ahead && Newer(ahead[limit - 1].key, r.key)
  {
    if r in ahead[limit..] {
      var i :| 0 <= i < |ahead[limit..]| && ahead[limit..][i] == r;
      assert ahead[limit + i] == r;
    }
    if r in ahead && Newer(ahead[limit - 1].key, r.key) {
      var i :| 0 <= i < |ahead| && ahead[i] == r;
      assert i >= limit;
      assert ahead[limit..][i - limit] == r;
    }
  }

  /** Below the last row of a page lies what the page left over. */
  lemma BelowLast(rows: seq<Row>, at: Option<Cursor>, limit: nat)
    requires Listing(rows) && 0 < limit < |Below(rows, at)|
    ensures var ahead := Below(rows, at);
            Below(rows, Some(ahead[limit - 1].key)) == ahead[limit..]
  {
    var ahead := Below(rows, at);
    var last := ahead[limit - 1];
    BelowHolds(rows, at);
    BelowHolds(rows, Some(last.key));
    BelowListing(rows, at);
    BelowListing(rows, Some(last.key));
    assert last in ahead;
    forall r ensures r in Below(rows, Some(last.key)) <==> r in ahead[limit..] {
      BehindLast(ahead, limit, r);
    }
    SameRowsSameListing(Below(rows, Some(last.key)), ahead[limit..]);
  }

  /** Rows added above a position do not show below it. */
  lemma AddedAboveInvisible(now: seq<Row>, later: seq<Row>, at: Cursor)
    requires Listing(now) && Listing(later) && AddedAbove(now, later, at)
    ensures Below(later, Some(at)) == Below(now, Some(at))
  {
    BelowHolds(now, Some(at));
    BelowHolds(later, Some(at));
    BelowListing(now, Some(at));
    BelowListing(later, Some(at));
    SameRowsSameListing(Below(later, Some(at)), Below(now, Some(at)));
  }

  // ------------------------------------------------------------------
  // The walk
  // ------------------------------------------------------------------

  /** The reader's cursor text, where it stands. */
  function TextOf(codec: Codec, at: Option<Cursor>): Option<string> {
    match at
    case None => None
    case Some(c) => Some(codec.encode(c))
  }

  predicate Stands(at: Option<Cursor>) {
    at.Some? ==> at.value.Valid()
  }

  lemma RequestReads(codec: Codec, rows: seq<Row>, limit: nat, at: Option<Cursor>)
    requires Sound(codec) && limit > 0 && Stands(at)
    ensures Request(codec, rows, limit, TextOf(codec, at)) == Some(Trim(codec, Take(Below(rows, at), limit + 1), limit))
  {
  }

  /** How many rows so many full pages hold. */
  function Quota(pages: nat, limit: nat): nat {
    if pages == 0 then 0 else limit + Quota(pages - 1, limit)
  }

  lemma {:induction false} QuotaIsProduct(pages: nat, limit: nat)
    ensures Quota(pages, limit) == pages * limit
  {
    if pages > 0 {
      QuotaIsProduct(pages - 1, limit);
    }
  }

  /** The first `n` rows ahead, and whether they are all. */
  function Read(ahead: seq<Row>, n: nat): Walked {
    Walked(Take(ahead, n), |ahead| <= n)
  }

  lemma WalkStep(codec: Codec, states: seq<seq<Row>>, limit: nat, at: Option<Cursor>, more: Walked)
    requires Sound(codec) && limit > 0 && Stands(at) && states != []
    requires var ahead := Below(states[0], at);
             |ahead| > limit ==> Walk(codec, states[1..], limit, Some(codec.encode(ahead[limit - 1].key))) == Some(more)
    ensures var ahead := Below(states[0], at);
            Walk(codec, states, limit, TextOf(codec, at))
              == Some(if |ahead| <= limit then Walked(ahead, true) else Walked(ahead[..limit] + more.rows, more.ended))
  {
    var ahead := Below(states[0], at);
    RequestReads(codec, states[0], limit, at);
    if |ahead| > limit {
      assert Take(ahead, limit + 1)[..limit] == ahead[..limit];
      assert Take(ahead, limit + 1)[limit - 1] == ahead[limit - 1];
    }
  }

  /** At every request, what lay ahead at first is what lies ahead now behind what was read. */
  predicate StillAhead(states: seq<seq<Row>>, limit: nat, at: Option<Cursor>, ahead: seq<Row>)
    requires limit > 0
  {
    states != [] ==>
      && Below(states[0], at) == ahead
      && (|ahead| > limit ==>
            && ahead[limit - 1].key.Valid()
            && StillAhead(states[1..], limit, Some(ahead[limit - 1].key), ahead[limit..]))
  }

  lemma {:induction false} UndisturbedStays(states: seq<seq<Row>>, limit: nat, at: Option<Cursor>)
    requires limit > 0 && states != [] && Undisturbed(states, limit, at)
    ensures StillAhead(states, limit, at, Below(states[0], at))
  {
    var ahead := Below(states[0], at);
    if |ahead| > limit {
      KeyValid(states[0], at, limit - 1);
      if |states| >= 2 {
        BelowNext(states, limit, at);
        UndisturbedStays(states[1..], limit, Some(ahead[limit - 1].key));
      }
    }
  }

  lemma {:induction false} WalkReads(codec: Codec, states: seq<seq<Row>>, limit: nat, at: Option<Cursor>, ahead: seq<Row>)
    requires Sound(codec) && limit > 0 && Stands(at) && states != [] && StillAhead(states, limit, at, ahead)
    ensures Walk(codec, states, limit, TextOf(codec, at)) == Some(Read(ahead, Quota(|states|, limit)))
  {
    if |ahead| <= limit || |states| == 1 {
      WalkStep(codec, states, limit, at, Walked([], false));
      LastRead(ahead, |states|, limit);
    } else {
      var last := Some(ahead[limit - 1].key);
      WalkReads(codec, states[1..], limit, last, ahead[limit..]);
      WalkStep(codec, states, limit, at, Read(ahead[limit..], Quota(|states| - 1, limit)));
      ReadMore(ahead, |states|, limit);
    }
  }

  /** After `n` requests the reader holds the first `n * limit` rows that lay ahead when the
      walk began, in order and each once, whatever was added above; and has been told
      that there is no more exactly when those are all of them. */
  lemma WalkReadsListing(codec: Codec, states: seq<seq<Row>>, limit: nat, at: Option<Cursor>)
    requires Sound(codec) && limit > 0 && Stands(at) && states != [] && Undisturbed(states, limit, at)
    ensures var (ahead, walked) := (Below(states[0], at), Walk(codec, states, limit, TextOf(codec, at)));
            && walked.Some? && walked.value.rows == Take(ahead, |states| * limit)
            && (walked.value.ended <==> |ahead| <= |states| * limit)
  {
    UndisturbedStays(states, limit, at);
    WalkReads(codec, states, limit, at, Below(states[0], at));
    QuotaIsProduct(|states|, limit);
  }

  lemma KeyValid(rows: seq<Row>, at: Option<Cursor>, i: nat)
    requires Listing(rows) && i < |Below(rows, at)|
    ensures Below(rows, at)[i].key.Valid()
  {
    BelowListing(rows, at);
  }

  lemma BelowNext(states: seq<seq<Row>>, limit: nat, at: Option<Cursor>)
    requires limit > 0 && |states| >= 2 && Undisturbed(states, limit, at) && |Below(states[0], at)| > limit
    ensures var ahead := Below(states[0], at);
            Below(states[1], Some(ahead[limit - 1].key)) == ahead[limit..]
  {
    var last := Below(states[0], at)[limit - 1].key;
    assert Undisturbed(states[1..], limit, Some(last));
    AddedAboveInvisible(states[0], states[1], last);
    BelowLast(states[0], at, limit);
  }

  lemma LastRead(ahead: seq<Row>, n: nat, limit: nat)
    requires n > 0 && (|ahead| <= limit || n == 1)
    ensures Read(ahead, Quota(n, limit)) == if |ahead| <= limit then Walked(ahead, true) else Walked(ahead[..limit] + [], false)
  {
  }

  lemma ReadMore(ahead: seq<Row>, n: nat, limit: nat)
    requires n > 0 && |ahead| > limit
    ensures Read(ahead, Quota(n, limit)) == (var more := Read(ahead[limit..], Quota(n - 1, limit));
                                             Walked(ahead[..limit] + more.rows, more.ended))
  {
  }

  /** From the first page: enough requests read the listing of that moment, whole. */
  lemma WalkFromTheTop(codec: Codec, states: seq<seq<Row>>, limit: nat)
    requires Sound(codec) && limit > 0 && states != [] && Undisturbed(states, limit, None)
    requires |states[0]| <= |states| * limit
    ensures Walk(codec, states, limit, None) == Some(Walked(states[0], true))
  {
    BelowEverything(states[0]);
    WalkReadsListing(codec, states, limit, None);
    var n := |states| * limit;
    assert Take(states[0], n) == states[0];
    assert TextOf(codec, None) == None;
  }

  /** A page carries no cursor exactly when nothing lies beyond it. */
  lemma NullCursorAtEnd(codec: Codec, rows: seq<Row>, limit: nat, at: Option<Cursor>)
    requires Sound(codec) && limit > 0 && Listing(rows) && Stands(at)
    ensures var page := Request(codec, rows, limit, TextOf(codec, at));
            && page.Some? && page.value.rows == Take(Below(rows, at), limit)
            && (page.value.next.None? <==> |Below(rows, at)| <= limit)
            && (page.value.next.Some? ==> Below(rows, codec.decode(page.value.next.value)) == Below(rows, at)[limit..])
  {
    RequestReads(codec, rows, limit, at);
    if |Below(rows, at)| > limit {
      KeyValid(rows, at, limit - 1);
      BelowLast(rows, at, limit);
    }
  }

  // ------------------------------------------------------------------
  // A walk while rows come and go anywhere
  // ------------------------------------------------------------------

  predicate Listings(states: seq<seq<Row>>) {
    forall k :: 0 <= k < |states| ==> Listing(states[k])
  }

  predicate IsBelow(at: Option<Cursor>, c: Cursor) {
    at.None? || Newer(at.value, c)
  }

  predicate AllBelow(at: Option<Cursor>, rows: seq<Row>) {
    forall i :: 0 <= i < |rows| ==> IsBelow(at, rows[i].key)
  }

  predicate Throughout(states: seq<seq<Row>>, r: Row) {
    forall k :: 0 <= k < |states| ==> r in states[k]
  }

  /** `r` is not behind the last row read. */
  predicate Reached(walked: Walked, r: Row) {
    walked.ended || (walked.rows != [] && !Newer(walked.rows[|walked.rows| - 1].key, r.key))
  }

  /** What a walk gives whatever happens to the listing: rows in strictly descending order,
      so none twice, and each row that was there all along once the walk has passed it. */
  ghost predicate Sane(states: seq<seq<Row>>, at: Option<Cursor>, walked: Walked) {
    Listing(walked.rows) && AllBelow(at, walked.rows) && MissesNone(states, at, walked)
  }

  ghost predicate MissesNone(states: seq<seq<Row>>, at: Option<Cursor>, walked: Walked) {
    forall r :: Throughout(states, r) && IsBelow(at, r.key) && Reached(walked, r) ==> r in walked.rows
  }

  /** The rows ahead of a position, as they are in one state of the listing. */
  lemma AheadIsBelow(rows: seq<Row>, at: Option<Cursor>)
    requires Listing(rows)
    ensures Listing(Below(rows, at)) && AllBelow(at, Below(rows, at))
    ensures forall r :: r in rows && IsBelow(at, r.key) ==> r in Below(rows, at)
  {
    BelowHolds(rows, at);
    BelowListing(rows, at);
    forall i | 0 <= i < |Below(rows, at)| ensures IsBelow(at, Below(rows, at)[i].key) {
      assert Below(rows, at)[i] in Below(rows, at);
    }
  }

  lemma JoinedListing(page: seq<Row>, more: seq<Row>)
    requires Listing(page) && page != [] && Listing(more) && AllBelow(Some(page[|page| - 1].key), more)
    ensures Listing(page + more)
  {
    var last := page[|page| - 1].key;
    forall i, j | 0 <= i < |page| <= j < |page + more| ensures Newer((page + more)[i].key, (page + more)[j].key) {
      assert IsBelow(Some(last), more[j - |page|].key);
    }
  }

  lemma JoinedBelow(at: Option<Cursor>, page: seq<Row>, more: seq<Row>)
    requires page != [] && AllBelow(at, page) && AllBelow(Some(page[|page| - 1].key), more)
    ensures AllBelow(at, page + more)
  {
    var last := page[|page| - 1].key;
    assert IsBelow(at, last);
    forall j | 0 <= j < |more| ensures IsBelow(at, more[j].key) {
      assert IsBelow(Some(last), more[j].key);
    }
  }

  /** A row ahead is on the page or behind the page's last row. */
  lemma OnPageOrBehind(ahead: seq<Row>, limit: nat, r: Row)
    requires Listing(ahead) && 0 < limit <= |ahead| && r in ahead
    ensures r in ahead[..limit] || Newer(ahead[limit - 1].key, r.key)
  {
    var i :| 0 <= i < |ahead| && ahead[i] == r;
    if i < limit { assert ahead[..limit][i] == r; }
  }

  lemma JoinedReaches(states: seq<seq<Row>>, at: Option<Cursor>, ahead: seq<Row>, limit: nat, more: Walked, r: Row)
    requires states != [] && Listing(ahead) && 0 < limit < |ahead|
    requires forall q :: q in states[0] && IsBelow(at, q.key) ==> q in ahead
    requires MissesNone(states[1..], Some(ahead[limit - 1].key), more)
    requires Throughout(states, r) && IsBelow(at, r.key) && Reached(Walked(ahead[..limit] + more.rows, more.ended), r)
    ensures r in ahead[..limit] + more.rows
  {
    assert r in states[0];
    OnPageOrBehind(ahead, limit, r);
    if r !in ahead[..limit] {
      assert Throughout(states[1..], r);
      assert Reached(more, r);
    }
  }

  lemma JoinedSane(states: seq<seq<Row>>, at: Option<Cursor>, ahead: seq<Row>, limit: nat, more: Walked)
    requires states != [] && Listing(ahead) && AllBelow(at, ahead) && 0 < limit < |ahead|
    requires forall q :: q in states[0] && IsBelow(at, q.key) ==> q in ahead
    requires Sane(states[1..], Some(ahead[limit - 1].key), more)
    ensures Sane(states, at, Walked(ahead[..limit] + more.rows, more.ended))
  {
    JoinedListing(ahead[..limit], more.rows);
    JoinedBelow(at, ahead[..limit], more.rows);
    JoinedMissesNone(states, at, ahead, limit, more);
  }

  lemma JoinedMissesNone(states: seq<seq<Row>>, at: Option<Cursor>, ahead: seq<Row>, limit: nat, more: Walked)
    requires states != [] && Listing(ahead) && 0 < limit < |ahead|
    requires forall q :: q in states[0] && IsBelow(at, q.key) ==> q in ahead
    requires MissesNone(states[1..], Some(ahead[limit - 1].key), more)
    ensures MissesNone(states, at, Walked(ahead[..limit] + more.rows, more.ended))
  {
    var joined := Walked(ahead[..limit] + more.rows, more.ended);
    forall r | Throughout(states, r) && IsBelow(at, r.key) && Reached(joined, r) ensures r in joined.rows {
      JoinedReaches(states, at, ahead, limit, more, r);
    }
  }

  lemma WholeSane(states: seq<seq<Row>>, at: Option<Cursor>, ahead: seq<Row>)
    requires states != [] && Listing(ahead) && AllBelow(at, ahead)
    requires forall q :: q in states[0] && IsBelow(at, q.key) ==> q in ahead
    ensures Sane(states, at, Walked(ahead, true))
  {
    forall r | Throughout(states, r) && IsBelow(at, r.key) ensures r in ahead {
      assert r in states[0];
    }
  }

  /** Whatever rows appear or go, above or below, between two requests, a walk reads in
      strictly descending order, repeats nothing, and misses no row that was in every
      listing it was answered from. */
  lemma {:induction false} WalkStaysSane(codec: Codec, states: seq<seq<Row>>, limit: nat, at: Option<Cursor>)
    requires Sound(codec) && limit > 0 && Stands(at) && Listings(states)
    ensures var walked := Walk(codec, states, limit, TextOf(codec, at)); walked.Some? && Sane(states, at, walked.value)
  {
    if states != [] {
      var ahead := Below(states[0], at);
      AheadIsBelow(states[0], at);
      if |ahead| <= limit {
        WalkStep(codec, states, limit, at, Walked([], false));
        WholeSane(states, at, ahead);
      } else {
        var last := Some(ahead[limit - 1].key);
        WalkStaysSane(codec, states[1..], limit, last);
        var more := Walk(codec, states[1..], limit, TextOf(codec, last)).value;
        WalkStep(codec, states, limit, at, more);
        JoinedSane(states, at, ahead, limit, more);
      }
    }
  }
}
