/** Checksums computed by a linear shift register: add a byte to the state, shift it
    through. What such a checksum sees follows from a few laws of the register. */
module ShiftRegister {
  /** `shift` moves the state on by one byte, `plus` adds to it, `word` places a byte at
      the end that leaves first, and `up` moves a word away from that end by `k` bytes. */
  datatype Register<!T(!new), !B(!new)> =
    Register(shift: T -> T, plus: (T, T) -> T, word: B -> T, up: (T, nat) -> T)

  function Eight<T>(f: T -> T, s: T): T {
    f(f(f(f(f(f(f(f(s))))))))
  }

  function Eightfold<T>(f: T -> T): T -> T {
    s => Eight(f, s)
  }

  ghost predicate Injective<T(!new)>(f: T -> T) {
    forall s, t :: f(s) == f(t) ==> s == t
  }

  ghost predicate Linear<T(!new)>(f: T -> T, plus: (T, T) -> T) {
    forall s, t :: f(plus(s, t)) == plus(f(s), f(t))
  }

  ghost predicate Associative<T(!new)>(plus: (T, T) -> T) {
    forall r, s, t :: plus(plus(r, s), t) == plus(r, plus(s, t))
  }

  ghost predicate Cancels<T(!new)>(plus: (T, T) -> T) {
    forall s, t, w :: plus(s, w) == plus(t, w) ==> s == t
  }

  /** Four bytes added to a state at their four places. */
  function Pack<T(!new), B(!new)>(r: Register<T, B>, s: T, a: B, b: B, c: B, d: B): T {
    r.plus(r.plus(r.plus(r.plus(s, r.word(a)), r.up(r.word(b), 1)), r.up(r.word(c), 2)), r.up(r.word(d), 3))
  }

  ghost predicate Descends<T(!new), B(!new)>(r: Register<T, B>) {
    forall b ::
      && r.shift(r.up(r.word(b), 1)) == r.word(b)
      && r.shift(r.up(r.word(b), 2)) == r.up(r.word(b), 1)
      && r.shift(r.up(r.word(b), 3)) == r.up(r.word(b), 2)
  }

  ghost predicate PacksApart<T(!new), B(!new)>(r: Register<T, B>) {
    forall s, a, b, c, d, a', b', c', d' ::
      Pack(r, s, a, b, c, d) == Pack(r, s, a', b', c', d') ==> a == a' && b == b' && c == c' && d == d'
  }

  function Update<T(!new), B(!new)>(r: Register<T, B>, s: T, byte: B): T {
    r.shift(r.plus(s, r.word(byte)))
  }

  function Fold<T(!new), B(!new)>(r: Register<T, B>, s: T, bytes: seq<B>): T
    decreases |bytes|
  {
    if bytes == [] then s else Fold(r, Update(r, s, bytes[0]), bytes[1..])
  }

  /** What differs before a byte differs after it. */
  ghost predicate KeepsApart<T(!new), B(!new)>(r: Register<T, B>) {
    forall s, t, b :: Update(r, s, b) == Update(r, t, b) ==> s == t
  }

  ghost predicate FeedsWhole<T(!new), B(!new)>(r: Register<T, B>) {
    forall s, x: seq<B> :: |x| == 4 ==>
      Fold(r, s, x) == r.shift(r.shift(r.shift(r.shift(Pack(r, s, x[0], x[1], x[2], x[3])))))
  }

  /** Four bytes can be told from any other four. */
  ghost predicate TellsFour<T(!new), B(!new)>(r: Register<T, B>) {
    forall s, x: seq<B>, y: seq<B> :: |x| == |y| == 4 && Fold(r, s, x) == Fold(r, s, y) ==> x == y
  }

  lemma EightInjective<T(!new)>(f: T -> T)
    requires Injective(f)
    ensures Injective(Eightfold(f))
  {
  }

  lemma EightLinear<T(!new)>(f: T -> T, plus: (T, T) -> T)
    requires Linear(f, plus)
    ensures Linear(Eightfold(f), plus)
  {
  }

  lemma {:induction false} FoldConcat<T(!new), B(!new)>(r: Register<T, B>, s: T, a: seq<B>, b: seq<B>)
    ensures Fold(r, s, a + b) == Fold(r, Fold(r, s, a), b)
    decreases |a|
  {
    if a == [] {
      assert a + b == b;
    } else {
      assert (a + b)[1..] == a[1..] + b;
      FoldConcat(r, Update(r, s, a[0]), a[1..], b);
    }
  }

  /** What differs once differs to the end. */
  lemma {:induction false} FoldInjective<T(!new), B(!new)>(r: Register<T, B>, s: T, t: T, bytes: seq<B>)
    requires KeepsApart(r) && Fold(r, s, bytes) == Fold(r, t, bytes)
    ensures s == t
    decreases |bytes|
  {
    if bytes != [] {
      FoldInjective(r, Update(r, s, bytes[0]), Update(r, t, bytes[0]), bytes[1..]);
    }
  }

  /** Adding four parts, one before each step, is adding their preimages before the first. */
  lemma FourSteps<T(!new)>(f: T -> T, plus: (T, T) -> T, s: T, b1: T, c2: T, d3: T)
    requires Linear(f, plus)
    ensures f(plus(f(plus(f(plus(f(s), f(b1))), f(f(c2)))), f(f(f(d3)))))
         == f(f(f(f(plus(plus(plus(s, b1), c2), d3)))))
  {
    var x := plus(s, b1);
    assert plus(f(s), f(b1)) == f(x);
    assert plus(f(f(x)), f(f(c2))) == f(plus(f(x), f(c2))) == f(f(plus(x, c2)));
    var y := plus(x, c2);
    assert plus(f(f(f(y))), f(f(f(d3)))) == f(plus(f(f(y)), f(f(d3)))) == f(f(plus(f(y), f(d3)))) == f(f(f(plus(y, d3))));
  }

  /** Feeding four bytes one at a time is adding them all and shifting them through. */
  lemma FourBytes<T(!new), B(!new)>(r: Register<T, B>, s: T, x: seq<B>)
    requires Linear(r.shift, r.plus) && Descends(r) && |x| == 4
    ensures Fold(r, s, x) == r.shift(r.shift(r.shift(r.shift(Pack(r, s, x[0], x[1], x[2], x[3])))))
  {
    FoldsFour(r, s, x);
    FourSteps(r.shift, r.plus, r.plus(s, r.word(x[0])), r.up(r.word(x[1]), 1), r.up(r.word(x[2]), 2), r.up(r.word(x[3]), 3));
  }

  lemma Regroup<T(!new)>(plus: (T, T) -> T, s: T, a: T, b: T, c: T, d: T)
    requires Associative(plus)
    ensures plus(plus(plus(plus(s, a), b), c), d) == plus(s, plus(plus(plus(a, b), c), d))
  {
  }

  lemma FoldsFour<T(!new), B(!new)>(r: Register<T, B>, s: T, x: seq<B>)
    requires |x| == 4
    ensures Fold(r, s, x) == Update(r, Update(r, Update(r, Update(r, s, x[0]), x[1]), x[2]), x[3])
  {
    FoldConcat(r, s, x[..1], x[1..]);
    FoldConcat(r, Update(r, s, x[0]), x[1..2], x[2..]);
    FoldConcat(r, Update(r, Update(r, s, x[0]), x[1]), x[2..3], x[3..]);
    assert x == x[..1] + x[1..] && x[1..] == x[1..2] + x[2..] && x[2..] == x[2..3] + x[3..];
    FoldsOne(r, s, x[..1]);
    FoldsOne(r, Update(r, s, x[0]), x[1..2]);
    FoldsOne(r, Update(r, Update(r, s, x[0]), x[1]), x[2..3]);
    FoldsOne(r, Update(r, Update(r, Update(r, s, x[0]), x[1]), x[2]), x[3..]);
  }

  lemma FoldsOne<T(!new), B(!new)>(r: Register<T, B>, s: T, x: seq<B>)
    requires |x| == 1
    ensures Fold(r, s, x) == Update(r, s, x[0])
  {
    assert x[1..] == [];
  }

  lemma FourSeen<T(!new), B(!new)>(r: Register<T, B>, s: T, x: seq<B>, y: seq<B>)
    requires Injective(r.shift) && PacksApart(r) && FeedsWhole(r)
    requires |x| == |y| == 4 && Fold(r, s, x) == Fold(r, s, y)
    ensures x == y
  {
    Unshift(r.shift, Pack(r, s, x[0], x[1], x[2], x[3]), Pack(r, s, y[0], y[1], y[2], y[3]));
    assert x == [x[0], x[1], x[2], x[3]] && y == [y[0], y[1], y[2], y[3]];
  }

  lemma Unshift<T(!new)>(f: T -> T, p: T, q: T)
    requires Injective(f) && f(f(f(f(p)))) == f(f(f(f(q))))
    ensures p == q
  {
  }

  lemma FeedsWholeFrom<T(!new), B(!new)>(r: Register<T, B>)
    requires Linear(r.shift, r.plus) && Descends(r)
    ensures FeedsWhole(r)
  {
    forall s, x: seq<B> | |x| == 4
      ensures Fold(r, s, x) == r.shift(r.shift(r.shift(r.shift(Pack(r, s, x[0], x[1], x[2], x[3])))))
    {
      FourBytes(r, s, x);
    }
  }

  lemma TellsFourFrom<T(!new), B(!new)>(r: Register<T, B>)
    requires Injective(r.shift) && PacksApart(r) && FeedsWhole(r)
    ensures TellsFour(r)
  {
    forall s, x: seq<B>, y: seq<B> | |x| == |y| == 4 && Fold(r, s, x) == Fold(r, s, y) ensures x == y {
      FourSeen(r, s, x, y);
    }
  }

  /** The laws make every four-byte window visible. */
  lemma LawsSuffice<T(!new), B(!new)>(r: Register<T, B>)
    requires Injective(r.shift) && Linear(r.shift, r.plus) && Cancels(r.plus) && Descends(r) && PacksApart(r)
    ensures KeepsApart(r) && TellsFour(r)
  {
    FeedsWholeFrom(r);
    TellsFourFrom(r);
  }

  lemma WindowSeen<T(!new), B(!new)>(r: Register<T, B>, s: T, before: seq<B>, x: seq<B>, y: seq<B>, after: seq<B>)
    requires KeepsApart(r) && TellsFour(r) && |x| == |y| == 4
    requires Fold(r, s, before + (x + after)) == Fold(r, s, before + (y + after))
    ensures x == y
  {
    var t := Fold(r, s, before);
    FoldConcat(r, s, before, x + after);
    FoldConcat(r, s, before, y + after);
    FoldConcat(r, t, x, after);
    FoldConcat(r, t, y, after);
    FoldInjective(r, Fold(r, t, x), Fold(r, t, y), after);
  }

  lemma SplitWindow<B>(u: seq<B>, at: nat)
    requires at + 4 <= |u|
    ensures u == u[..at] + (u[at..at + 4] + u[at + 4..])
  {
  }

  /** Padded so that the window fits. */
  lemma SplitAtWindow<B>(x: seq<B>, y: seq<B>, padding: seq<B>, at: nat)
    returns (before: seq<B>, p: seq<B>, q: seq<B>, after: seq<B>)
    requires |x| == |y| && x != y && |padding| == 4
    requires forall j :: 0 <= j < |x| && !(at <= j < at + 4) ==> x[j] == y[j]
    ensures x + padding == before + (p + after) && y + padding == before + (q + after)
    ensures |p| == |q| == 4 && p != q
  {
    var (u, v) := (x + padding, y + padding);
    var j :| 0 <= j < |x| && x[j] != y[j];
    assert at <= j < at + 4 <= |u|;
    before, p, q, after := u[..at], u[at..at + 4], v[at..at + 4], u[at + 4..];
    assert p[j - at] == u[j] == x[j] && q[j - at] == v[j] == y[j];
    assert forall k :: 0 <= k < |u| && !(at <= k < at + 4) ==> u[k] == v[k];
    SplitWindow(u, at);
    SplitWindow(v, at);
    assert v[..at] == before && v[at + 4..] == after;
  }

  /** A change confined to four neighbouring bytes shows, however long the text. */
  lemma WindowShows<T(!new), B(!new)>(r: Register<T, B>, s: T, x: seq<B>, y: seq<B>, at: nat)
    requires KeepsApart(r) && TellsFour(r) && |x| == |y| && x != y
    requires forall j :: 0 <= j < |x| && !(at <= j < at + 4) ==> x[j] == y[j]
    ensures Fold(r, s, x) != Fold(r, s, y)
  {
    if Fold(r, s, x) == Fold(r, s, y) {
      var padding := [x[0], x[0], x[0], x[0]];
      FoldConcat(r, s, x, padding);
      FoldConcat(r, s, y, padding);
      var before, p, q, after := SplitAtWindow(x, y, padding, at);
      WindowSeen(r, s, before, p, q, after);
    }
  }
}
