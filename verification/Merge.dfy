/** The round-robin merge of several sources' results
    (`packages/core/adapters/merge.py`). */
module Merge {
  import opened Basics
  import opened Ordering

  /** A result, the position its source gave it, and the score that places it; `detail` is
      all the rest of the result, which the merge never reads. */
  datatype Ranked = Ranked(source: string, id: string, rank: nat, score: real, detail: string)

  // The cap unless a caller says otherwise.
  const PER_SOURCE_CAP: nat := 10

  function ById(r: Ranked): Key { Key(r.score, r.id) }

  function BySource(r: Ranked): Key { Key(r.score, r.source) }

  /** A Python dict: its keys in insertion order, and a list under each. */
  datatype Buckets = Buckets(names: seq<string>, rows: map<string, seq<Ranked>>) {

    function Lane(source: string): seq<Ranked> {
      if source in rows then rows[source] else []
    }

    /** Drops the first `k` rows of a source. */
    function Rest(source: string, k: nat): seq<Ranked> {
      if k <= |Lane(source)| then Lane(source)[k..] else []
    }

    ghost predicate Valid() {
      && (forall i, j :: 0 <= i < j < |names| ==> names[i] != names[j])
      && (forall s :: s in names <==> s in rows)
      && (forall s, i :: s in rows && 0 <= i < |rows[s]| ==> rows[s][i].source == s)
    }

    predicate Capped(cap: nat) {
      forall s :: s in rows ==> |rows[s]| <= cap
    }
  }

  /** The rows of one source, in order. */
  function Only(rows: seq<Ranked>, source: string): seq<Ranked> {
    if rows == [] then []
    else (if rows[0].source == source then [rows[0]] else []) + Only(rows[1..], source)
  }

  /** The sources in the order they first appear. */
  function Sources(ranked: seq<Ranked>): (r: seq<string>)
    ensures forall i, j :: 0 <= i < j < |r| ==> r[i] != r[j]
    ensures forall s :: s in r <==> exists i :: 0 <= i < |ranked| && ranked[i].source == s
  {
    if ranked == [] then []
    else
      var n := |ranked| - 1;
      var before := Sources(ranked[..n]);
      assert forall i :: 0 <= i < n ==> ranked[..n][i] == ranked[i];
      if ranked[n].source in before then before else before + [ranked[n].source]
  }

  /** A source's best rows, best first, at most `cap` of them. */
  function Best(ranked: seq<Ranked>, cap: nat, source: string): seq<Ranked> {
    Take(Sort(Only(ranked, source), ById), cap)
  }

  function Collected(ranked: seq<Ranked>, cap: nat): Buckets {
    Buckets(Sources(ranked), map s | s in Sources(ranked) :: Best(ranked, cap, s))
  }

  /** The row each source is at after `k` rounds, for the sources that have one. */
  function Heads(d: Buckets, names: seq<string>, k: nat): seq<Ranked> {
    if names == [] then []
    else
      var n := |names| - 1;
      Heads(d, names[..n], k) + if k < |d.Lane(names[n])| then [d.Lane(names[n])[k]] else []
  }

  function Round(d: Buckets, k: nat): seq<Ranked> {
    Sort(Heads(d, d.names, k), BySource)
  }

  /** Round after round from `k`, until no source has a row left. */
  function Interleaved(d: Buckets, cap: nat, k: nat): seq<Ranked>
    decreases cap - k
  {
    if k >= cap || Round(d, k) == [] then [] else Round(d, k) + Interleaved(d, cap, k + 1)
  }

  function Merged(ranked: seq<Ranked>, cap: nat := PER_SOURCE_CAP): seq<Ranked> {
    Interleaved(Collected(ranked, cap), cap, 0)
  }

  // ------------------------------------------------------------------
  // Filtering by source
  // ------------------------------------------------------------------

  lemma {:induction false} OnlyOfConcat(a: seq<Ranked>, b: seq<Ranked>, source: string)
    ensures Only(a + b, source) == Only(a, source) + Only(b, source)
  {
    if a == [] {
      assert a + b == b;
    } else {
      OnlyOfConcat(a[1..], b, source);
      var head := if a[0].source == source then [a[0]] else [];
      assert (a + b)[1..] == a[1..] + b && (a + b)[0] == a[0];
      assert head + (Only(a[1..], source) + Only(b, source)) == (head + Only(a[1..], source)) + Only(b, source);
    }
  }

  lemma {:induction false} OnlyHolds(rows: seq<Ranked>, source: string)
    ensures forall r :: r in Only(rows, source) <==> r in rows && r.source == source
    ensures forall i :: 0 <= i < |Only(rows, source)| ==> Only(rows, source)[i].source == source
  {
    if rows != [] {
      OnlyHolds(rows[1..], source);
    }
  }

  lemma {:induction false} OnlyNone(rows: seq<Ranked>, source: string)
    requires forall j :: 0 <= j < |rows| ==> rows[j].source != source
    ensures Only(rows, source) == []
  {
    if rows != [] {
      OnlyNone(rows[1..], source);
    }
  }

  lemma OnlyOne(rows: seq<Ranked>, source: string, j: nat)
    requires j < |rows| && rows[j].source == source
    requires forall i :: 0 <= i < |rows| && i != j ==> rows[i].source != source
    ensures Only(rows, source) == [rows[j]]
  {
    assert rows == rows[..j] + ([rows[j]] + rows[j + 1..]);
    OnlyNone(rows[..j], source);
    OnlyNone(rows[j + 1..], source);
    OnlyOfConcat(rows[..j], [rows[j]] + rows[j + 1..], source);
    OnlyOfConcat([rows[j]], rows[j + 1..], source);
  }

  lemma BestHolds(ranked: seq<Ranked>, cap: nat, source: string)
    ensures |Best(ranked, cap, source)| <= cap
    ensures forall r :: r in Best(ranked, cap, source) ==> r in ranked && r.source == source
  {
    OnlyHolds(ranked, source);
    SortSorts(Only(ranked, source), ById);
  }

  lemma CollectedValid(ranked: seq<Ranked>, cap: nat)
    ensures Collected(ranked, cap).Valid() && Collected(ranked, cap).Capped(cap)
  {
    var d := Collected(ranked, cap);
    forall s | s in d.rows ensures |d.rows[s]| <= cap && forall i :: 0 <= i < |d.rows[s]| ==> d.rows[s][i].source == s {
      BestHolds(ranked, cap, s);
      assert forall i :: 0 <= i < |d.rows[s]| ==> d.rows[s][i] in Best(ranked, cap, s);
    }
  }

  lemma CollectedLane(ranked: seq<Ranked>, cap: nat, source: string)
    ensures Collected(ranked, cap).Lane(source) == Best(ranked, cap, source)
  {
    if source !in Sources(ranked) {
      OnlyNone(ranked, source);
    }
  }

  // ------------------------------------------------------------------
  // One round
  // ------------------------------------------------------------------

  predicate DistinctSources(s: seq<Ranked>) {
    forall i, j :: 0 <= i < j < |s| ==> s[i].source != s[j].source
  }

  /** Each source in `names` that has a row left, once, with the row it is at. */
  ghost predicate Gathers(d: Buckets, names: seq<string>, k: nat, s: seq<Ranked>) {
    && DistinctSources(s)
    && (forall r :: r in s <==> r.source in names && k < |d.Lane(r.source)| && r == d.Lane(r.source)[k])
  }

  lemma {:induction false} HeadsGather(d: Buckets, names: seq<string>, k: nat)
    requires d.Valid()
    requires forall i, j :: 0 <= i < j < |names| ==> names[i] != names[j]
    ensures Gathers(d, names, k, Heads(d, names, k))
  {
    if names != [] {
      var n := |names| - 1;
      HeadsGather(d, names[..n], k);
      assert names == names[..n] + [names[n]];
      var before := Heads(d, names[..n], k);
      forall i | 0 <= i < |before| ensures before[i].source != names[n] {
        assert before[i] in before;
      }
    }
  }

  lemma RoundGathers(d: Buckets, k: nat)
    requires d.Valid()
    ensures Sorted(Round(d, k), BySource) && Gathers(d, d.names, k, Round(d, k))
  {
    var heads := Heads(d, d.names, k);
    HeadsGather(d, d.names, k);
    SortSorts(heads, BySource);
    forall i, j | 0 <= i < j < |Round(d, k)| && Round(d, k)[i].source == Round(d, k)[j].source ensures false {
      var r := Round(d, k)[i];
      assert r in heads && Round(d, k)[j] in heads;
      assert DistinctKeys(heads, BySource);
      DistinctCount(heads, BySource, r);
      TwiceCounted(Round(d, k), i, j);
    }
  }

  /** Where a source's row stands in a round. */
  lemma Place(d: Buckets, k: nat, source: string) returns (i: nat)
    requires d.Valid() && k < |d.Lane(source)|
    ensures i < |Round(d, k)| && Round(d, k)[i] == d.Lane(source)[k] && Round(d, k)[i].source == source
  {
    RoundGathers(d, k);
    assert d.Lane(source)[k] in Round(d, k);
    i :| 0 <= i < |Round(d, k)| && Round(d, k)[i] == d.Lane(source)[k];
  }

  lemma PrefixOfRound(d: Buckets, k: nat, n: nat, source: string, i: nat)
    requires d.Valid() && n <= |Round(d, k)| && i < |Round(d, k)| && Round(d, k)[i].source == source
    ensures Only(Round(d, k)[..n], source) == if i < n then [Round(d, k)[i]] else []
  {
    RoundGathers(d, k);
    if i < n { OnlyOne(Round(d, k)[..n], source, i); } else { OnlyNone(Round(d, k)[..n], source); }
  }

  lemma NoneInRound(d: Buckets, k: nat, n: nat, source: string)
    requires d.Valid() && n <= |Round(d, k)| && k >= |d.Lane(source)|
    ensures Only(Round(d, k)[..n], source) == []
  {
    RoundGathers(d, k);
    forall j | 0 <= j < n ensures Round(d, k)[..n][j].source != source {
      assert Round(d, k)[j] in Round(d, k);
    }
    OnlyNone(Round(d, k)[..n], source);
  }

  lemma RoundGivesOneEach(d: Buckets, k: nat, source: string)
    requires d.Valid()
    ensures Only(Round(d, k), source) == if k < |d.Lane(source)| then [d.Lane(source)[k]] else []
  {
    var n := |Round(d, k)|;
    assert Round(d, k)[..n] == Round(d, k);
    if k < |d.Lane(source)| {
      var i := Place(d, k, source);
      PrefixOfRound(d, k, n, source, i);
    } else {
      NoneInRound(d, k, n, source);
    }
  }

  // ------------------------------------------------------------------
  // All the rounds
  // ------------------------------------------------------------------

  lemma NothingLeft(d: Buckets, cap: nat, k: nat, source: string)
    requires d.Valid() && d.Capped(cap) && (k >= cap || Round(d, k) == [])
    ensures k >= |d.Lane(source)|
  {
    if k < |d.Lane(source)| {
      var i := Place(d, k, source);
    }
  }

  lemma {:induction false} RestInOrder(d: Buckets, cap: nat, k: nat, source: string)
    requires d.Valid() && d.Capped(cap)
    ensures Only(Interleaved(d, cap, k), source) == d.Rest(source, k)
    decreases cap - k
  {
    if k >= cap || Round(d, k) == [] {
      NothingLeft(d, cap, k, source);
    } else {
      RestInOrder(d, cap, k + 1, source);
      RoundGivesOneEach(d, k, source);
      OnlyOfConcat(Round(d, k), Interleaved(d, cap, k + 1), source);
      RestStep(d, source, k);
    }
  }

  lemma RestStep(d: Buckets, source: string, k: nat)
    ensures d.Rest(source, k) == (if k < |d.Lane(source)| then [d.Lane(source)[k]] else []) + d.Rest(source, k + 1)
  {
  }

  /** The merge gives up exactly each source's best rows, best first. */
  lemma EachSourceInOrder(ranked: seq<Ranked>, cap: nat, source: string)
    ensures Only(Merged(ranked, cap), source) == Take(Sort(Only(ranked, source), ById), cap)
  {
    CollectedValid(ranked, cap);
    CollectedLane(ranked, cap, source);
    RestInOrder(Collected(ranked, cap), cap, 0, source);
  }

  /** Of one source the higher score comes first, and of one score the id that comes first. */
  lemma SourceRowsInOrder(ranked: seq<Ranked>, cap: nat, source: string, i: nat, j: nat)
    requires i < j < |Only(Merged(ranked, cap), source)|
    ensures var (p, q) := (Only(Merged(ranked, cap), source)[i], Only(Merged(ranked, cap), source)[j]);
            p.score >= q.score && (p.score == q.score ==> Comes(p.id, q.id))
  {
    EachSourceInOrder(ranked, cap, source);
    var all := Sort(Only(ranked, source), ById);
    SortSorts(Only(ranked, source), ById);
    KeyLeMeans(ById(all[i]), ById(all[j]));
  }

  /** No source gives more rows than the cap, ten unless a caller says otherwise. */
  lemma CapHolds(ranked: seq<Ranked>, cap: nat, source: string)
    ensures |Only(Merged(ranked, cap), source)| <= cap && |Only(Merged(ranked), source)| <= 10
  {
    EachSourceInOrder(ranked, cap, source);
    EachSourceInOrder(ranked, PER_SOURCE_CAP, source);
  }

  function Count(rows: seq<Ranked>, source: string): nat {
    |Only(rows, source)|
  }

  lemma CountPrefix(rows: seq<Ranked>, n: nat, source: string)
    requires n <= |rows|
    ensures Count(rows[..n], source) <= Count(rows, source)
  {
    assert rows == rows[..n] + rows[n..];
    OnlyOfConcat(rows[..n], rows[n..], source);
  }

  /** Two sources that have given `x` and `y` rows from round `k` on: while `b` has a row
      left, `a` is at most one row ahead, and only by a row that goes before the one
      `b` is at. */
  ghost predicate Fair(d: Buckets, k: nat, a: string, x: nat, b: string, y: nat) {
    k + y < |d.Lane(b)| && x > y ==>
      && x == y + 1
      && k + y < |d.Lane(a)|
      && KeyLe(Key(d.Lane(a)[k + y].score, a), Key(d.Lane(b)[k + y].score, b))
  }

  lemma FairInRound(d: Buckets, k: nat, n: nat, a: string, b: string)
    requires d.Valid() && n <= |Round(d, k)|
    ensures Fair(d, k, a, Count(Round(d, k)[..n], a), b, Count(Round(d, k)[..n], b))
  {
    if k >= |d.Lane(a)| {
      NoneInRound(d, k, n, a);
    } else if k < |d.Lane(b)| {
      var i := Place(d, k, a);
      var j := Place(d, k, b);
      PrefixOfRound(d, k, n, a, i);
      PrefixOfRound(d, k, n, b, j);
      RoundGathers(d, k);
    }
  }

  lemma LaterCounts(d: Buckets, cap: nat, k: nat, m: nat, source: string)
    requires d.Valid() && d.Capped(cap) && m <= |Interleaved(d, cap, k + 1)|
    ensures var later := Interleaved(d, cap, k + 1)[..m];
            && Count(Round(d, k) + later, source) == (if k < |d.Lane(source)| then 1 else 0) + Count(later, source)
            && (k >= |d.Lane(source)| ==> Count(later, source) == 0)
  {
    var rest := Interleaved(d, cap, k + 1);
    OnlyOfConcat(Round(d, k), rest[..m], source);
    RoundGivesOneEach(d, k, source);
    RestInOrder(d, cap, k + 1, source);
    CountPrefix(rest, m, source);
  }

  lemma {:induction false} FairFrom(d: Buckets, cap: nat, k: nat, n: nat, a: string, b: string)
    requires d.Valid() && d.Capped(cap) && n <= |Interleaved(d, cap, k)|
    ensures Fair(d, k, a, Count(Interleaved(d, cap, k)[..n], a), b, Count(Interleaved(d, cap, k)[..n], b))
    decreases cap - k
  {
    var rows := Interleaved(d, cap, k);
    if k >= cap || Round(d, k) == [] {
      NothingLeft(d, cap, k, b);
    } else if n <= |Round(d, k)| {
      FairInRound(d, k, n, a, b);
      assert rows[..n] == Round(d, k)[..n];
    } else {
      var m := n - |Round(d, k)|;
      FairFrom(d, cap, k + 1, m, a, b);
      FairLater(d, cap, k, m, a, b);
      assert rows[..n] == Round(d, k) + Interleaved(d, cap, k + 1)[..m];
    }
  }

  lemma FairLater(d: Buckets, cap: nat, k: nat, m: nat, a: string, b: string)
    requires d.Valid() && d.Capped(cap) && m <= |Interleaved(d, cap, k + 1)|
    requires var later := Interleaved(d, cap, k + 1)[..m]; Fair(d, k + 1, a, Count(later, a), b, Count(later, b))
    ensures var prefix := Round(d, k) + Interleaved(d, cap, k + 1)[..m];
            Fair(d, k, a, Count(prefix, a), b, Count(prefix, b))
  {
    LaterCounts(d, cap, k, m, a);
    LaterCounts(d, cap, k, m, b);
    var later := Interleaved(d, cap, k + 1)[..m];
    FairShift(d, k, a, Count(later, a), b, Count(later, b));
  }

  lemma FairShift(d: Buckets, k: nat, a: string, x: nat, b: string, y: nat)
    requires Fair(d, k + 1, a, x, b, y) && (k >= |d.Lane(a)| ==> x == 0)
    ensures Fair(d, k, a, (if k < |d.Lane(a)| then 1 else 0) + x, b, (if k < |d.Lane(b)| then 1 else 0) + y)
  {
  }

  /** Wherever the reader stops, no source that still has rows to give is more than one
      row behind another, and the one ahead is the one with the stronger row. */
  lemma EveryPrefixFair(ranked: seq<Ranked>, cap: nat, n: nat, a: string, b: string)
    requires n <= |Merged(ranked, cap)|
    ensures var prefix := Merged(ranked, cap)[..n];
            var (x, y) := (Count(prefix, a), Count(prefix, b));
            var (bestA, bestB) := (Best(ranked, cap, a), Best(ranked, cap, b));
            y < |bestB| && x > y ==>
              && x == y + 1 && y < |bestA|
              && KeyLe(Key(bestA[y].score, a), Key(bestB[y].score, b))
  {
    CollectedValid(ranked, cap);
    CollectedLane(ranked, cap, a);
    CollectedLane(ranked, cap, b);
    FairFrom(Collected(ranked, cap), cap, 0, n, a, b);
  }

  lemma BestLedByBest(ranked: seq<Ranked>, cap: nat, r: Ranked)
    requires r in ranked && cap > 0
    ensures var best := Best(ranked, cap, r.source);
            best != [] && KeyLe(ById(best[0]), ById(r)) && KeyLe(Key(best[0].score, r.source), BySource(r))
  {
    OnlyHolds(ranked, r.source);
    SortSorts(Only(ranked, r.source), ById);
    var sorted := Sort(Only(ranked, r.source), ById);
    assert r in sorted;
    var i :| 0 <= i < |sorted| && sorted[i] == r;
    KeyLeTotal(ById(r), ById(r));
    NameLeTotal(r.source, r.source);
  }

  /** The strongest row leads; source names, then ids, break ties. */
  lemma StrongestRowLeads(ranked: seq<Ranked>, cap: nat, r: Ranked)
    requires r in ranked && cap > 0
    ensures var rows := Merged(ranked, cap);
            && rows != [] && rows[0] in ranked
            && rows[0].score >= r.score && (rows[0].score == r.score ==> Comes(rows[0].source, r.source))
            && (rows[0].source == r.source && rows[0].score == r.score ==> Comes(rows[0].id, r.id))
  {
    KeysLead(ranked, cap, r);
    var first := Merged(ranked, cap)[0];
    KeyLeMeans(BySource(first), BySource(r));
    KeyLeMeans(ById(first), ById(r));
  }

  lemma KeysLead(ranked: seq<Ranked>, cap: nat, r: Ranked)
    requires r in ranked && cap > 0
    ensures var rows := Merged(ranked, cap);
            && rows != [] && rows[0] in ranked
            && KeyLe(BySource(rows[0]), BySource(r))
            && (rows[0].source == r.source ==> KeyLe(ById(rows[0]), ById(r)))
  {
    var d := Collected(ranked, cap);
    CollectedValid(ranked, cap);
    CollectedLane(ranked, cap, r.source);
    BestLedByBest(ranked, cap, r);
    BestHolds(ranked, cap, r.source);
    var j := Place(d, 0, r.source);
    RoundGathers(d, 0);
    var first := Round(d, 0)[0];
    assert first in Round(d, 0);
    CollectedLane(ranked, cap, first.source);
    BestHolds(ranked, cap, first.source);
    KeyLeTotal(BySource(first), BySource(first));
    KeyLeTransitive(BySource(first), BySource(Round(d, 0)[j]), BySource(r));
    assert Merged(ranked, cap)[0] == first;
  }

  // ------------------------------------------------------------------
  // The order of the input
  // ------------------------------------------------------------------

  /** Two different rows that tie on score and id have at least `cap` rows of their source
      before them. */
  predicate NoTiesWithin(ranked: seq<Ranked>, cap: nat) {
    forall i, j :: 0 <= i < |ranked| && 0 <= j < |ranked| ==> NoTie(ranked, cap, ranked[i], ranked[j])
  }

  predicate NoTie(ranked: seq<Ranked>, cap: nat, r: Ranked, q: Ranked) {
    r.source == q.source && ById(r) == ById(q) && r != q ==> Ahead(Only(ranked, r.source), ById, ById(r)) >= cap
  }

  lemma {:induction false} OnlyCount(ranked: seq<Ranked>, source: string, r: Ranked)
    ensures multiset(Only(ranked, source))[r] == if r.source == source then multiset(ranked)[r] else 0
  {
    if ranked != [] {
      OnlyCount(ranked[1..], source, r);
      assert ranked == [ranked[0]] + ranked[1..];
    }
  }

  lemma OnlyPermute(a: seq<Ranked>, b: seq<Ranked>, source: string)
    requires multiset(a) == multiset(b)
    ensures multiset(Only(a, source)) == multiset(Only(b, source))
  {
    forall r ensures multiset(Only(a, source))[r] == multiset(Only(b, source))[r] {
      OnlyCount(a, source, r);
      OnlyCount(b, source, r);
    }
  }

  /** The row at a place within the cap is the same for both. */
  lemma SamePlace(a: seq<Ranked>, b: seq<Ranked>, cap: nat, source: string, p: nat)
    requires multiset(a) == multiset(b) && NoTiesWithin(a, cap)
    requires p < cap && p < |Sort(Only(a, source), ById)|
    ensures |Sort(Only(b, source), ById)| == |Sort(Only(a, source), ById)|
    ensures Sort(Only(a, source), ById)[p] == Sort(Only(b, source), ById)[p]
  {
    var (x, y) := (Sort(Only(a, source), ById), Sort(Only(b, source), ById));
    OnlyPermute(a, b, source);
    SortSorts(Only(a, source), ById);
    SortSorts(Only(b, source), ById);
    SortedKeysAgree(x, y, ById, p);
    AheadAtMost(x, ById, p);
    AheadPermute(x, Only(a, source), ById, ById(x[p]));
    assert x[p] in x && y[p] in y;
    OnlyHolds(a, source);
    OnlyHolds(b, source);
    SameMembers(a, b);
    var i :| 0 <= i < |a| && a[i] == x[p];
    var j :| 0 <= j < |a| && a[j] == y[p];
    assert NoTie(a, cap, a[i], a[j]);
  }

  lemma BestPermute(a: seq<Ranked>, b: seq<Ranked>, cap: nat, source: string)
    requires multiset(a) == multiset(b) && NoTiesWithin(a, cap)
    ensures Best(a, cap, source) == Best(b, cap, source)
  {
    var (x, y) := (Sort(Only(a, source), ById), Sort(Only(b, source), ById));
    OnlyPermute(a, b, source);
    SortSorts(Only(a, source), ById);
    SortSorts(Only(b, source), ById);
    assert |x| == |multiset(x)| == |multiset(y)| == |y|;
    forall p | 0 <= p < cap && p < |x| ensures x[p] == y[p] {
      SamePlace(a, b, cap, source, p);
    }
  }

  lemma {:induction false} SameHeadsCount(s: seq<Ranked>, r: Ranked)
    requires DistinctSources(s)
    ensures multiset(s)[r] == if r in s then 1 else 0
  {
    assert DistinctKeys(s, BySource);
    DistinctCount(s, BySource, r);
  }

  /** A round does not depend on the order in which the sources were first met. */
  lemma RoundPermute(c: Buckets, d: Buckets, k: nat)
    requires c.Valid() && d.Valid() && c.rows == d.rows
    ensures Round(c, k) == Round(d, k)
  {
    HeadsGather(c, c.names, k);
    HeadsGather(d, d.names, k);
    var (x, y) := (Heads(c, c.names, k), Heads(d, d.names, k));
    forall r ensures multiset(x)[r] == multiset(y)[r] {
      SameHeadsCount(x, r);
      SameHeadsCount(y, r);
      assert r.source in c.names <==> r.source in d.names;
    }
    assert multiset(x) == multiset(y);
    assert DistinctKeys(x, BySource);
    SortPermute(x, y, BySource);
  }

  lemma {:induction false} InterleavedPermute(c: Buckets, d: Buckets, cap: nat, k: nat)
    requires c.Valid() && d.Valid() && c.rows == d.rows
    ensures Interleaved(c, cap, k) == Interleaved(d, cap, k)
    decreases cap - k
  {
    RoundPermute(c, d, k);
    if k < cap {
      InterleavedPermute(c, d, cap, k + 1);
    }
  }

  lemma SourcesPermute(a: seq<Ranked>, b: seq<Ranked>, s: string)
    requires multiset(a) == multiset(b) && s in Sources(a)
    ensures s in Sources(b)
  {
    SameMembers(a, b);
    var i :| 0 <= i < |a| && a[i].source == s;
    assert a[i] in b;
  }

  lemma CollectedPermute(a: seq<Ranked>, b: seq<Ranked>, cap: nat)
    requires multiset(a) == multiset(b) && NoTiesWithin(a, cap)
    ensures Collected(a, cap).rows == Collected(b, cap).rows
  {
    var (namesA, namesB) := (Sources(a), Sources(b));
    forall s ensures s in namesA <==> s in namesB {
      if s in namesA { SourcesPermute(a, b, s); }
      if s in namesB { SourcesPermute(b, a, s); }
    }
    forall s | s in namesA ensures Best(a, cap, s) == Best(b, cap, s) {
      BestPermute(a, b, cap, s);
    }
  }

  /** Without ties within the cap, the order in which the results came in does not show. */
  lemma InputOrderInvisible(a: seq<Ranked>, b: seq<Ranked>, cap: nat)
    requires multiset(a) == multiset(b) && NoTiesWithin(a, cap)
    ensures Merged(a, cap) == Merged(b, cap)
  {
    CollectedValid(a, cap);
    CollectedValid(b, cap);
    CollectedPermute(a, b, cap);
    InterleavedPermute(Collected(a, cap), Collected(b, cap), cap, 0);
  }

  /** The row that comes in first stands at the place of all that tie with it. */
  lemma FirstStands(r: Ranked, rest: seq<Ranked>, cap: nat)
    ensures var p := Ahead(Only([r] + rest, r.source), ById, ById(r));
            p < cap ==> p < |Best([r] + rest, cap, r.source)| && Best([r] + rest, cap, r.source)[p] == r
  {
    assert ([r] + rest)[1..] == rest;
    FirstPlace(Only([r] + rest, r.source), ById);
  }

  /** Two rows that tie within the cap: whichever comes in first is seen first. */
  lemma TieShows(r: Ranked, q: Ranked, rest: seq<Ranked>, cap: nat)
    requires r.source == q.source && ById(r) == ById(q)
    requires Ahead(Only([r] + ([q] + rest), r.source), ById, ById(r)) < cap
    requires Merged([r] + ([q] + rest), cap) == Merged([q] + ([r] + rest), cap)
    ensures r == q
  {
    var (a, b) := ([r] + ([q] + rest), [q] + ([r] + rest));
    assert multiset(a) == multiset(b);
    OnlyPermute(a, b, r.source);
    AheadPermute(Only(a, r.source), Only(b, r.source), ById, ById(r));
    FirstStands(r, [q] + rest, cap);
    FirstStands(q, [r] + rest, cap);
    EachSourceInOrder(a, cap, r.source);
    EachSourceInOrder(b, cap, r.source);
  }

  /** Two different rows of a sequence, brought to its front. */
  lemma BroughtForward(a: seq<Ranked>, r: Ranked, q: Ranked) returns (rest: seq<Ranked>)
    requires r in a && q in a && r != q
    ensures multiset([r] + ([q] + rest)) == multiset(a) && multiset([q] + ([r] + rest)) == multiset(a)
  {
    var i :| 0 <= i < |a| && a[i] == r;
    var others := TakenOut(a, i);
    assert q in multiset([r] + others);
    var j :| 0 <= j < |others| && others[j] == q;
    rest := TakenOut(others, j);
    assert multiset([r] + others) == multiset{r} + multiset(others);
  }

  lemma VisibleTie(a: seq<Ranked>, cap: nat, r: Ranked, q: Ranked)
    requires r in a && q in a && !NoTie(a, cap, r, q)
    ensures exists b :: multiset(b) == multiset(a) && Merged(b, cap) != Merged(a, cap)
  {
    var rest := BroughtForward(a, r, q);
    var (b, c) := ([r] + ([q] + rest), [q] + ([r] + rest));
    OnlyPermute(a, b, r.source);
    AheadPermute(Only(a, r.source), Only(b, r.source), ById, ById(r));
    if Merged(b, cap) == Merged(a, cap) && Merged(c, cap) == Merged(a, cap) {
      TieShows(r, q, rest, cap);
    }
  }

  /** The order of the input does not show exactly when no two different rows of a source tie
      within the cap. */
  lemma OrderInvisibleExactly(a: seq<Ranked>, cap: nat)
    ensures (forall b :: multiset(b) == multiset(a) ==> Merged(b, cap) == Merged(a, cap)) <==> NoTiesWithin(a, cap)
  {
    if NoTiesWithin(a, cap) {
      forall b | multiset(b) == multiset(a) ensures Merged(b, cap) == Merged(a, cap) {
        InputOrderInvisible(a, b, cap);
      }
    } else {
      var i, j :| 0 <= i < |a| && 0 <= j < |a| && !NoTie(a, cap, a[i], a[j]);
      VisibleTie(a, cap, a[i], a[j]);
    }
  }

  // ------------------------------------------------------------------
  // The loop
  // ------------------------------------------------------------------

  /** What is left of every source's rows after `k` rounds. */
  predicate Remaining(left: Buckets, d: Buckets, k: nat) {
    left.names == d.names && forall s :: s in d.names ==> s in left.rows && left.rows[s] == d.Rest(s, k)
  }

  lemma {:induction false} FrontsAreHeads(left: Buckets, d: Buckets, k: nat, names: seq<string>)
    requires forall s :: s in names ==> s in left.rows && left.rows[s] == d.Rest(s, k)
    ensures Heads(left, names, 0) == Heads(d, names, k)
  {
    if names != [] {
      FrontsAreHeads(left, d, k, names[..|names| - 1]);
      assert names[|names| - 1] in names;
    }
  }

  /** Puts every row under its source, keeping the order in which they came. */
  method Bucket(ranked: seq<Ranked>) returns (d: Buckets)
    ensures d.names == Sources(ranked)
    ensures forall s :: s in d.names ==> s in d.rows && d.rows[s] == Only(ranked, s)
  {
    var names, rows := [], map[];
    for i := 0 to |ranked|
      invariant names == Sources(ranked[..i])
      invariant forall s :: s in rows <==> s in names
      invariant forall s :: s in names ==> rows[s] == Only(ranked[..i], s)
    {
      var source := ranked[i].source;
      BucketStep(ranked, i);
      if source !in rows {
        rows, names := rows[source := []], names + [source];
      }
      rows := rows[source := rows[source] + [ranked[i]]];
    }
    assert ranked[..|ranked|] == ranked;
    d := Buckets(names, rows);
  }

  lemma BucketStep(ranked: seq<Ranked>, i: nat)
    requires i < |ranked|
    ensures var (before, source) := (Sources(ranked[..i]), ranked[i].source);
            Sources(ranked[..i + 1]) == if source in before then before else before + [source]
    ensures forall s :: Only(ranked[..i + 1], s)
                     == Only(ranked[..i], s) + if s == ranked[i].source then [ranked[i]] else []
    ensures ranked[i].source !in Sources(ranked[..i]) ==> Only(ranked[..i], ranked[i].source) == []
  {
    assert ranked[..i + 1][..i] == ranked[..i];
    assert ranked[..i + 1] == ranked[..i] + [ranked[i]];
    forall s ensures Only(ranked[..i + 1], s)
                  == Only(ranked[..i], s) + if s == ranked[i].source then [ranked[i]] else []
    {
      OnlyOfConcat(ranked[..i], [ranked[i]], s);
    }
    if ranked[i].source !in Sources(ranked[..i]) {
      OnlyNone(ranked[..i], ranked[i].source);
    }
  }

  /** Sorts and cuts each source's list. */
  method SortAndCut(ranked: seq<Ranked>, cap: nat) returns (d: Buckets)
    ensures Remaining(d, Collected(ranked, cap), 0)
  {
    d := Bucket(ranked);
    ghost var names := d.names;
    for i := 0 to |d.names|
      invariant CutUpTo(d, names, ranked, cap, i)
    {
      var s := d.names[i];
      CutNext(d, names, ranked, cap, i);
      d := d.(rows := d.rows[s := Take(Sort(d.rows[s], ById), cap)]);
    }
    AllCut(d, ranked, cap);
  }

  /** The lists of the first `i` sources are sorted and cut. */
  ghost predicate CutUpTo(d: Buckets, names: seq<string>, ranked: seq<Ranked>, cap: nat, i: nat) {
    && d.names == names && i <= |names| && (forall s :: s in names ==> s in d.rows)
    && (forall j :: 0 <= j < |names| ==>
          d.rows[names[j]] == if j < i then Best(ranked, cap, names[j]) else Only(ranked, names[j]))
  }

  lemma CutNext(d: Buckets, names: seq<string>, ranked: seq<Ranked>, cap: nat, i: nat)
    requires names == Sources(ranked) && i < |names| && CutUpTo(d, names, ranked, cap, i)
    ensures CutUpTo(d.(rows := d.rows[names[i] := Take(Sort(d.rows[names[i]], ById), cap)]), names, ranked, cap, i + 1)
  {
    assert names[i] in names;
    assert forall j :: 0 <= j < |names| && j != i ==> names[j] != names[i];
  }

  lemma AllCut(d: Buckets, ranked: seq<Ranked>, cap: nat)
    requires CutUpTo(d, Sources(ranked), ranked, cap, |Sources(ranked)|)
    ensures Remaining(d, Collected(ranked, cap), 0)
  {
    forall s | s in d.names ensures d.rows[s] == Collected(ranked, cap).Rest(s, 0) {
      var j :| 0 <= j < |d.names| && d.names[j] == s;
      CollectedLane(ranked, cap, s);
    }
  }

  lemma MoreToGive(left: Buckets, d: Buckets, cap: nat, k: nat)
    requires d.Valid() && d.Capped(cap) && Remaining(left, d, k)
    ensures Round(left, 0) == Round(d, k)
    ensures if RowsLeft(left) then k < cap && Round(d, k) != []
            else Round(d, k) == []
  {
    FrontsAreHeads(left, d, k, d.names);
    RoundGathers(d, k);
    if s :| s in left.names && left.Lane(s) != [] {
      assert d.Lane(s)[k] in Round(d, k);
    } else if Round(d, k) != [] {
      assert Round(d, k)[0] in Round(d, k);
    }
  }

  /** The sources in `done` are one row further than the rest. */
  predicate Popped(left: Buckets, d: Buckets, k: nat, done: seq<Ranked>) {
    && left.names == d.names
    && forall s :: s in d.names ==> s in left.rows && left.rows[s] == d.Rest(s, if Named(done, s) then k + 1 else k)
  }

  lemma PopNext(left: Buckets, d: Buckets, k: nat, order: seq<Ranked>, i: nat)
    requires d.Valid() && Gathers(d, d.names, k, order) && i < |order| && Popped(left, d, k, order[..i])
    ensures var source := order[i].source;
            && source in left.rows && left.rows[source] != [] && left.rows[source][0] == order[i]
            && Popped(left.(rows := left.rows[source := left.rows[source][1..]]), d, k, order[..i + 1])
  {
    assert order[i] in order;
    NamedStep(order, i);
  }

  lemma AllPopped(left: Buckets, d: Buckets, k: nat, order: seq<Ranked>)
    requires d.Valid() && Gathers(d, d.names, k, order) && Popped(left, d, k, order)
    ensures Remaining(left, d, k + 1)
  {
    forall s | s in d.names ensures left.rows[s] == d.Rest(s, k + 1) {
      if k < |d.Lane(s)| {
        assert d.Lane(s)[k] in order;
      }
    }
  }

  lemma OneMore(before: seq<Ranked>, order: seq<Ranked>, i: nat)
    requires i < |order|
    ensures before + order[..i] + [order[i]] == before + order[..i + 1]
  {
  }

  /** One pass over the sources in order, popping the row each is at. */
  method HandOver(ghost d: Buckets, ghost k: nat, order: seq<Ranked>, before: seq<Ranked>, start: Buckets)
    returns (merged: seq<Ranked>, left: Buckets)
    requires d.Valid() && Gathers(d, d.names, k, order) && Remaining(start, d, k)
    ensures merged == before + order && Remaining(left, d, k + 1)
  {
    merged, left := before, start;
    for i := 0 to |order|
      invariant merged == before + order[..i]
      invariant Popped(left, d, k, order[..i])
    {
      var source := order[i].source;
      PopNext(left, d, k, order, i);
      OneMore(before, order, i);
      merged := merged + [left.rows[source][0]];
      left := left.(rows := left.rows[source := left.rows[source][1..]]);
    }
    assert order[..|order|] == order;
    AllPopped(left, d, k, order);
  }

  /** `merged` and what the rounds from `k` on still give are the whole merge. */
  predicate Drained(merged: seq<Ranked>, d: Buckets, cap: nat, k: nat) {
    merged + Interleaved(d, cap, k) == Interleaved(d, cap, 0)
  }

  lemma DrainMore(merged: seq<Ranked>, d: Buckets, cap: nat, k: nat)
    requires Drained(merged, d, cap, k) && k < cap && Round(d, k) != []
    ensures Drained(merged + Round(d, k), d, cap, k + 1)
  {
    var rest := Interleaved(d, cap, k + 1);
    assert merged + (Round(d, k) + rest) == (merged + Round(d, k)) + rest;
  }

  lemma DrainDone(merged: seq<Ranked>, d: Buckets, cap: nat, k: nat)
    requires Drained(merged, d, cap, k) && Round(d, k) == []
    ensures merged == Interleaved(d, cap, 0)
  {
  }

  predicate RowsLeft(left: Buckets) {
    exists s :: s in left.names && left.Lane(s) != []
  }

  /** Round after round over the lists that are left. */
  method Drain(ghost d: Buckets, cap: nat, start: Buckets) returns (merged: seq<Ranked>)
    requires d.Valid() && d.Capped(cap) && Remaining(start, d, 0)
    ensures merged == Interleaved(d, cap, 0)
  {
    var left := start;
    merged := [];
    ghost var k := 0;
    MoreToGive(left, d, cap, k);
    while RowsLeft(left)
      invariant Remaining(left, d, k) && Drained(merged, d, cap, k)
      decreases cap - k
    {
      MoreToGive(left, d, cap, k);
      RoundGathers(d, k);
      DrainMore(merged, d, cap, k);
      merged, left := HandOver(d, k, Round(left, 0), merged, left);
      k := k + 1;
    }
    MoreToGive(left, d, cap, k);
    DrainDone(merged, d, cap, k);
  }

  method Merge(ranked: seq<Ranked>, cap: nat := PER_SOURCE_CAP) returns (merged: seq<Ranked>)
    ensures merged == Merged(ranked, cap)
  {
    var start := SortAndCut(ranked, cap);
    CollectedValid(ranked, cap);
    merged := Drain(Collected(ranked, cap), cap, start);
  }

  predicate Named(rows: seq<Ranked>, source: string) {
    exists i :: 0 <= i < |rows| && rows[i].source == source
  }

  lemma NamedStep(rows: seq<Ranked>, i: nat)
    requires i < |rows| && DistinctSources(rows)
    ensures forall s :: Named(rows[..i + 1], s) <==> Named(rows[..i], s) || s == rows[i].source
    ensures !Named(rows[..i], rows[i].source)
  {
    forall s ensures Named(rows[..i + 1], s) <==> Named(rows[..i], s) || s == rows[i].source {
      if Named(rows[..i], s) {
        var j :| 0 <= j < i && rows[..i][j].source == s;
        assert rows[..i + 1][j].source == s;
      }
      if Named(rows[..i + 1], s) && s != rows[i].source {
        var j :| 0 <= j < i + 1 && rows[..i + 1][j].source == s;
        assert rows[..i][j].source == s;
      }
      assert rows[..i + 1][i].source == rows[i].source;
    }
  }
}
