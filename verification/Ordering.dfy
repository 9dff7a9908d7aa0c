/** Sorting by (score descending, name ascending), as Python's stable `sorted`
    does for a key function that returns `(-score, name)`. */
module Ordering {

  datatype Key = Key(score: real, name: string)

  /** Lexicographic order of code points. */
  predicate NameLe(a: string, b: string) {
    if a == [] then true
    else if b == [] then false
    else a[0] < b[0] || (a[0] == b[0] && NameLe(a[1..], b[1..]))
  }

  /** `a` is where they part the one with the smaller character, or it ends first, or they do
      not part. */
  ghost predicate Comes(a: string, b: string) {
    exists i: nat :: PartAt(a, b, i)
  }

  predicate PartAt(a: string, b: string, i: nat) {
    i <= |a| && i <= |b| && a[..i] == b[..i] && (i == |a| || (i < |b| && a[i] < b[i]))
  }

  lemma {:induction false} NameLeMeans(a: string, b: string)
    ensures NameLe(a, b) <==> Comes(a, b)
  {
    if a == [] {
      assert PartAt(a, b, 0);
    } else if b != [] && a[0] == b[0] {
      NameLeMeans(a[1..], b[1..]);
      if Comes(a[1..], b[1..]) {
        var i: nat :| PartAt(a[1..], b[1..], i);
        assert a[..i + 1] == [a[0]] + a[1..][..i] && b[..i + 1] == [b[0]] + b[1..][..i];
        assert PartAt(a, b, i + 1);
      }
      if Comes(a, b) {
        var i: nat :| PartAt(a, b, i);
        assert i > 0 && a[1..][..i - 1] == a[..i][1..] && b[1..][..i - 1] == b[..i][1..];
        assert PartAt(a[1..], b[1..], i - 1);
      }
    } else if b != [] {
      if a[0] < b[0] { assert PartAt(a, b, 0); }
      if Comes(a, b) {
        var i: nat :| PartAt(a, b, i);
        assert i > 0 ==> a[..i][0] == b[..i][0];
      }
    }
  }

  /** The higher score first; of one score, the name that comes first. */
  lemma KeyLeMeans(a: Key, b: Key)
    ensures KeyLe(a, b) <==> a.score > b.score || (a.score == b.score && Comes(a.name, b.name))
  {
    NameLeMeans(a.name, b.name);
  }

  predicate KeyLe(a: Key, b: Key) {
    a.score > b.score || (a.score == b.score && NameLe(a.name, b.name))
  }

  lemma {:induction false} NameLeTotal(a: string, b: string)
    ensures NameLe(a, b) || NameLe(b, a)
    ensures NameLe(a, b) && NameLe(b, a) ==> a == b
  {
    if a != [] && b != [] && a[0] == b[0] {
      NameLeTotal(a[1..], b[1..]);
      assert a == [a[0]] + a[1..] && b == [b[0]] + b[1..];
    }
  }

  lemma {:induction false} NameLeTransitive(a: string, b: string, c: string)
    requires NameLe(a, b) && NameLe(b, c)
    ensures NameLe(a, c)
  {
    if a != [] && b != [] && c != [] && a[0] == b[0] && b[0] == c[0] {
      NameLeTransitive(a[1..], b[1..], c[1..]);
    }
  }

  lemma KeyLeTotal(a: Key, b: Key)
    ensures KeyLe(a, b) || KeyLe(b, a)
    ensures KeyLe(a, b) && KeyLe(b, a) ==> a == b
  {
    NameLeTotal(a.name, b.name);
  }

  lemma KeyLeTransitive(a: Key, b: Key, c: Key)
    requires KeyLe(a, b) && KeyLe(b, c)
    ensures KeyLe(a, c)
  {
    if a.score == b.score == c.score {
      NameLeTransitive(a.name, b.name, c.name);
    }
  }

  /** Puts `x` before the values it does not follow, so earlier equals stay first. */
  function Insert<T>(x: T, s: seq<T>, key: T -> Key): seq<T> {
    if s == [] || KeyLe(key(x), key(s[0])) then [x] + s
    else [s[0]] + Insert(x, s[1..], key)
  }

  function Sort<T>(s: seq<T>, key: T -> Key): seq<T> {
    if s == [] then [] else Insert(s[0], Sort(s[1..], key), key)
  }

  predicate Sorted<T>(s: seq<T>, key: T -> Key) {
    forall i, j :: 0 <= i < j < |s| ==> KeyLe(key(s[i]), key(s[j]))
  }

  lemma {:induction false} InsertSorted<T>(x: T, s: seq<T>, key: T -> Key)
    requires Sorted(s, key)
    ensures Sorted(Insert(x, s, key), key) && multiset(Insert(x, s, key)) == multiset(s) + multiset{x}
  {
    if s == [] {
    } else if KeyLe(key(x), key(s[0])) {
      forall j | 0 <= j < |s| ensures KeyLe(key(x), key(s[j])) {
        if j > 0 { KeyLeTransitive(key(x), key(s[0]), key(s[j])); }
      }
    } else {
      InsertSorted(x, s[1..], key);
      var rest := Insert(x, s[1..], key);
      KeyLeTotal(key(x), key(s[0]));
      forall j | 0 <= j < |rest| ensures KeyLe(key(s[0]), key(rest[j])) {
        assert rest[j] in multiset(rest);
        if rest[j] in s[1..] {
          var k :| 0 <= k < |s[1..]| && s[1..][k] == rest[j];
          assert s[k + 1] == rest[j];
        }
      }
      assert s == [s[0]] + s[1..];
    }
  }

  /** The result is in order and has the same values. */
  lemma {:induction false} SortSorts<T>(s: seq<T>, key: T -> Key)
    ensures Sorted(Sort(s, key), key) && multiset(Sort(s, key)) == multiset(s) && |Sort(s, key)| == |s|
    ensures forall x :: x in Sort(s, key) <==> x in s
  {
    if s != [] {
      SortSorts(s[1..], key);
      InsertSorted(s[0], Sort(s[1..], key), key);
      assert s == [s[0]] + s[1..];
      assert |multiset(Sort(s, key))| == |multiset(s)|;
      SameMembers(Sort(s, key), s);
    }
  }

  lemma SameMembers<T>(a: seq<T>, b: seq<T>)
    requires multiset(a) == multiset(b)
    ensures forall x :: x in a <==> x in b
  {
    forall x ensures x in a <==> x in b {
      assert x in a <==> x in multiset(a);
      assert x in b <==> x in multiset(b);
    }
  }

  predicate DistinctKeys<T>(s: seq<T>, key: T -> Key) {
    forall i, j :: 0 <= i < j < |s| ==> key(s[i]) != key(s[j])
  }

  lemma {:induction false} DistinctCount<T>(s: seq<T>, key: T -> Key, x: T)
    requires DistinctKeys(s, key)
    ensures multiset(s)[x] == if x in s then 1 else 0
    ensures forall y :: x in s && y in s && key(x) == key(y) ==> x == y
  {
    if s != [] {
      DistinctCount(s[1..], key, x);
      assert s == [s[0]] + s[1..];
      assert x in s[1..] ==> x != s[0];
    }
  }

  lemma TwiceCounted<T>(s: seq<T>, i: nat, j: nat)
    requires i < j < |s| && s[i] == s[j]
    ensures multiset(s)[s[i]] >= 2
  {
    assert s == s[..j] + s[j..];
    assert s[i] in s[..j] && s[j] in s[j..];
  }

  lemma DistinctKeysPermute<T>(a: seq<T>, b: seq<T>, key: T -> Key)
    requires DistinctKeys(a, key) && multiset(a) == multiset(b)
    ensures DistinctKeys(b, key)
  {
    SameMembers(a, b);
    forall i, j | 0 <= i < j < |b| && key(b[i]) == key(b[j]) ensures false {
      assert b[i] in a && b[j] in a;
      DistinctCount(a, key, b[i]);
      TwiceCounted(b, i, j);
    }
  }

  lemma SortedHeadsAgree<T>(a: seq<T>, b: seq<T>, key: T -> Key)
    requires Sorted(a, key) && Sorted(b, key) && multiset(a) == multiset(b) && DistinctKeys(a, key)
    requires a != [] && b != []
    ensures a[0] == b[0]
  {
    SameMembers(a, b);
    assert a[0] in b && b[0] in a;
    var i :| 0 <= i < |b| && b[i] == a[0];
    var j :| 0 <= j < |a| && a[j] == b[0];
    KeyLeTotal(key(a[0]), key(b[0]));
  }

  lemma TailCount<T>(s: seq<T>)
    requires s != []
    ensures multiset(s[1..]) == multiset(s) - multiset{s[0]}
  {
    assert s == [s[0]] + s[1..];
  }

  /** With distinct keys there is one way to be sorted. */
  lemma {:induction false} SortedUnique<T>(a: seq<T>, b: seq<T>, key: T -> Key)
    requires Sorted(a, key) && Sorted(b, key) && multiset(a) == multiset(b) && DistinctKeys(a, key)
    ensures a == b
  {
    assert |a| == |multiset(a)| == |multiset(b)| == |b|;
    if a != [] {
      SortedHeadsAgree(a, b, key);
      TailCount(a);
      TailCount(b);
      SortedUnique(a[1..], b[1..], key);
      assert a == [a[0]] + a[1..] && b == [b[0]] + b[1..];
    }
  }

  /** The order of the input does not show when no two keys are equal. */
  lemma SortPermute<T>(a: seq<T>, b: seq<T>, key: T -> Key)
    requires multiset(a) == multiset(b) && DistinctKeys(a, key)
    ensures Sort(a, key) == Sort(b, key)
  {
    SortSorts(a, key);
    SortSorts(b, key);
    DistinctKeysPermute(a, Sort(a, key), key);
    SortedUnique(Sort(a, key), Sort(b, key), key);
  }

  // ------------------------------------------------------------------
  // Places in a sorted sequence
  // ------------------------------------------------------------------

  predicate KeyLt(a: Key, b: Key) {
    KeyLe(a, b) && a != b
  }

  /** How many values go strictly before a key. */
  function Ahead<T>(s: seq<T>, key: T -> Key, k: Key): nat {
    if s == [] then 0 else (if KeyLt(key(s[0]), k) then 1 else 0) + Ahead(s[1..], key, k)
  }

  lemma {:induction false} AheadOfConcat<T>(a: seq<T>, b: seq<T>, key: T -> Key, k: Key)
    ensures Ahead(a + b, key, k) == Ahead(a, key, k) + Ahead(b, key, k)
  {
    if a == [] {
      assert a + b == b;
    } else {
      AheadOfConcat(a[1..], b, key, k);
      assert (a + b)[1..] == a[1..] + b;
    }
  }

  lemma {:induction false} AheadBounds<T>(s: seq<T>, key: T -> Key, k: Key)
    ensures Ahead(s, key, k) <= |s|
    ensures (forall i :: 0 <= i < |s| ==> KeyLt(key(s[i]), k)) ==> Ahead(s, key, k) == |s|
    ensures (forall i :: 0 <= i < |s| ==> !KeyLt(key(s[i]), k)) ==> Ahead(s, key, k) == 0
  {
    if s != [] {
      AheadBounds(s[1..], key, k);
    }
  }

  /** The value at one place, and the rest. */
  lemma TakenOut<T>(s: seq<T>, i: nat) returns (rest: seq<T>)
    requires i < |s|
    ensures rest == s[..i] + s[i + 1..] && multiset(s) == multiset([s[i]] + rest)
  {
    rest := s[..i] + s[i + 1..];
    assert s == s[..i] + ([s[i]] + s[i + 1..]);
  }

  lemma {:induction false} AheadPermute<T>(a: seq<T>, b: seq<T>, key: T -> Key, k: Key)
    requires multiset(a) == multiset(b)
    ensures Ahead(a, key, k) == Ahead(b, key, k)
  {
    assert |a| == |multiset(a)| == |multiset(b)| == |b|;
    if a != [] {
      SameMembers(a, b);
      assert a[0] in b;
      var i :| 0 <= i < |b| && b[i] == a[0];
      var rest := TakenOut(b, i);
      TailCount(a);
      TailCount([b[i]] + rest);
      assert ([b[i]] + rest)[1..] == rest;
      AheadPermute(a[1..], rest, key, k);
      AheadTakenOut(b, i, key, k);
    }
  }

  lemma AheadTakenOut<T>(b: seq<T>, i: nat, key: T -> Key, k: Key)
    requires i < |b|
    ensures Ahead(b, key, k) == (if KeyLt(key(b[i]), k) then 1 else 0) + Ahead(b[..i] + b[i + 1..], key, k)
  {
    AheadOfConcat(b[..i], b[i + 1..], key, k);
    AheadOfConcat(b[..i], [b[i]] + b[i + 1..], key, k);
    assert b == b[..i] + ([b[i]] + b[i + 1..]);
    assert ([b[i]] + b[i + 1..])[1..] == b[i + 1..];
  }

  lemma LtTransitive(a: Key, b: Key, c: Key)
    requires KeyLe(a, b) && KeyLt(b, c)
    ensures KeyLt(a, c)
  {
    KeyLeTransitive(a, b, c);
    KeyLeTotal(b, c);
  }

  lemma LeNotLt(a: Key, b: Key)
    requires KeyLe(a, b)
    ensures !KeyLt(b, a)
  {
    KeyLeTotal(a, b);
  }

  /** In a sorted sequence at most `p` values go before the one at `p`. */
  lemma AheadAtMost<T>(s: seq<T>, key: T -> Key, p: nat)
    requires Sorted(s, key) && p < |s|
    ensures Ahead(s, key, key(s[p])) <= p
  {
    assert s == s[..p] + s[p..];
    AheadOfConcat(s[..p], s[p..], key, key(s[p]));
    AheadBounds(s[..p], key, key(s[p]));
    forall i | 0 <= i < |s[p..]| ensures !KeyLt(key(s[p..][i]), key(s[p])) {
      if i == 0 { } else { LeNotLt(key(s[p]), key(s[p + i])); }
    }
    AheadBounds(s[p..], key, key(s[p]));
  }

  lemma AheadAtLeast<T>(s: seq<T>, key: T -> Key, p: nat, k: Key)
    requires Sorted(s, key) && p < |s| && KeyLt(key(s[p]), k)
    ensures Ahead(s, key, k) > p
  {
    assert s == s[..p + 1] + s[p + 1..];
    AheadOfConcat(s[..p + 1], s[p + 1..], key, k);
    var front := s[..p + 1];
    forall i | 0 <= i < |front| ensures KeyLt(key(front[i]), k) {
      if i < p { LtTransitive(key(s[i]), key(s[p]), k); }
    }
    AheadBounds(front, key, k);
  }

  /** Permutations sort to the same keys. */
  lemma SortedKeysAgree<T>(a: seq<T>, b: seq<T>, key: T -> Key, p: nat)
    requires Sorted(a, key) && Sorted(b, key) && multiset(a) == multiset(b) && p < |a|
    ensures |a| == |b| && key(a[p]) == key(b[p])
  {
    assert |a| == |multiset(a)| == |multiset(b)| == |b|;
    var (j, k) := (key(a[p]), key(b[p]));
    KeyLeTotal(j, k);
    AheadPermute(a, b, key, j);
    AheadPermute(a, b, key, k);
    AheadAtMost(a, key, p);
    AheadAtMost(b, key, p);
    if KeyLt(j, k) { AheadAtLeast(a, key, p, k); }
    if KeyLt(k, j) { AheadAtLeast(b, key, p, j); }
  }

  /** A value goes behind exactly those that are strictly before it. */
  lemma {:induction false} InsertPlace<T>(x: T, s: seq<T>, key: T -> Key)
    requires Sorted(s, key)
    ensures Ahead(s, key, key(x)) < |Insert(x, s, key)| && Insert(x, s, key)[Ahead(s, key, key(x))] == x
  {
    if s == [] {
    } else if KeyLe(key(x), key(s[0])) {
      forall i | 0 <= i < |s| ensures !KeyLt(key(s[i]), key(x)) {
        if i > 0 { KeyLeTransitive(key(x), key(s[0]), key(s[i])); }
        LeNotLt(key(x), key(s[i]));
      }
      AheadBounds(s, key, key(x));
    } else {
      KeyLeTotal(key(x), key(s[0]));
      InsertPlace(x, s[1..], key);
    }
  }

  /** The first of a sequence goes before every other value that ties with it. */
  lemma FirstPlace<T>(s: seq<T>, key: T -> Key)
    requires s != []
    ensures var p := Ahead(s, key, key(s[0])); p < |Sort(s, key)| && Sort(s, key)[p] == s[0]
  {
    SortSorts(s[1..], key);
    InsertPlace(s[0], Sort(s[1..], key), key);
    AheadPermute(Sort(s[1..], key), s[1..], key, key(s[0]));
  }
}
