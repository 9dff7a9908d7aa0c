/** The CRC-32 of `binascii.crc32` (section 8 of RFC 1952), byte by byte. */
module Crc32 {
  import opened ShiftRegister

  function Word(b: bv8): bv32 { b as bv32 }

  function Xor(a: bv32, b: bv32): bv32 { a ^ b }

  function Half(s: bv32): bv32 { s >> 1 }

  /** The reflected polynomial, when the bit that leaves is set. */
  function Tap(s: bv32): bv32 { if s & 1 == 1 then 0xEDB8_8320 else 0 }

  function Shift(s: bv32): bv32 { Xor(Half(s), Tap(s)) }

  function Up(w: bv32, k: nat): bv32 {
    if k == 1 then w << 8 else if k == 2 then w << 16 else if k == 3 then w << 24 else w
  }

  function Crc32Register(): Register<bv32, bv8> {
    Register(Eightfold(Shift), Xor, Word, Up)
  }

  function Crc(bytes: seq<bv8>): bv32 {
    Xor(Fold(Crc32Register(), 0xFFFF_FFFF, bytes), 0xFFFF_FFFF)
  }

  // ------------------------------------------------------------------
  // The laws of the register
  // ------------------------------------------------------------------

  lemma ShiftInjectiveAt(s: bv32, t: bv32)
    requires Shift(s) == Shift(t)
    ensures s == t
  {
  }

  lemma ShiftInjective()
    ensures Injective(Shift)
  {
    forall s, t | Shift(s) == Shift(t) ensures s == t {
      ShiftInjectiveAt(s, t);
    }
  }

  lemma HalfLinear(s: bv32, t: bv32)
    ensures Half(Xor(s, t)) == Xor(Half(s), Half(t))
  {
  }

  lemma TapLinear(s: bv32, t: bv32)
    ensures Tap(Xor(s, t)) == Xor(Tap(s), Tap(t))
  {
  }

  lemma XorInterchanges(a: bv32, b: bv32, c: bv32, d: bv32)
    ensures Xor(Xor(a, b), Xor(c, d)) == Xor(Xor(a, c), Xor(b, d))
  {
    XorAssociates(a, b, Xor(c, d));
    XorAssociates(b, c, d);
    XorCommutes(b, c);
    XorAssociates(c, b, d);
    XorAssociates(a, c, Xor(b, d));
  }

  lemma ShiftLinearAt(s: bv32, t: bv32)
    ensures Shift(Xor(s, t)) == Xor(Shift(s), Shift(t))
  {
    HalfLinear(s, t);
    TapLinear(s, t);
    XorInterchanges(Half(s), Half(t), Tap(s), Tap(t));
  }

  lemma ShiftLinear()
    ensures Linear(Shift, Xor)
  {
    forall s, t ensures Shift(Xor(s, t)) == Xor(Shift(s), Shift(t)) {
      ShiftLinearAt(s, t);
    }
  }

  lemma XorAssociates(r: bv32, s: bv32, t: bv32)
    ensures Xor(Xor(r, s), t) == Xor(r, Xor(s, t))
  {
  }

  lemma XorCommutes(s: bv32, t: bv32)
    ensures Xor(s, t) == Xor(t, s)
  {
  }

  lemma XorCancels(r: bv32, s: bv32, t: bv32)
    ensures Xor(r, t) == Xor(s, t) ==> r == s
    ensures Xor(t, r) == Xor(t, s) ==> r == s
  {
  }

  lemma XorLawful()
    ensures Associative(Xor) && Cancels(Xor)
  {
    forall r, s, t ensures Xor(Xor(r, s), t) == Xor(r, Xor(s, t)) {
      XorAssociates(r, s, t);
    }
    forall s, t, w | Xor(s, w) == Xor(t, w) ensures s == t {
      XorCancels(s, t, w);
    }
  }

  function Sum(a: bv8, b: bv8, c: bv8, d: bv8): bv32 {
    (((a as bv32) ^ ((b as bv32) << 8)) ^ ((c as bv32) << 16)) ^ ((d as bv32) << 24)
  }

  lemma Places(a: bv8, b: bv8, c: bv8, d: bv8, e: bv8, f: bv8, g: bv8, h: bv8)
    requires (((a as bv32) ^ ((b as bv32) << 8)) ^ ((c as bv32) << 16)) ^ ((d as bv32) << 24)
          == (((e as bv32) ^ ((f as bv32) << 8)) ^ ((g as bv32) << 16)) ^ ((h as bv32) << 24)
    ensures a == e && b == f && c == g && d == h
  {
  }

  function Chain(a: bv8, b: bv8, c: bv8, d: bv8): bv32 {
    Xor(Xor(Xor(Word(a), Up(Word(b), 1)), Up(Word(c), 2)), Up(Word(d), 3))
  }

  lemma ChainIsSum(a: bv8, b: bv8, c: bv8, d: bv8)
    ensures Chain(a, b, c, d) == Sum(a, b, c, d)
  {
  }

  lemma ChainApart(a: bv8, b: bv8, c: bv8, d: bv8, e: bv8, f: bv8, g: bv8, h: bv8)
    requires Chain(a, b, c, d) == Chain(e, f, g, h)
    ensures a == e && b == f && c == g && d == h
  {
    ChainIsSum(a, b, c, d);
    ChainIsSum(e, f, g, h);
    SumApart(a, b, c, d, e, f, g, h);
  }

  lemma SumApart(a: bv8, b: bv8, c: bv8, d: bv8, e: bv8, f: bv8, g: bv8, h: bv8)
    requires Sum(a, b, c, d) == Sum(e, f, g, h)
    ensures a == e && b == f && c == g && d == h
  {
    Places(a, b, c, d, e, f, g, h);
  }

  lemma PackIsChain(s: bv32, a: bv8, b: bv8, c: bv8, d: bv8)
    ensures Pack(Crc32Register(), s, a, b, c, d) == Xor(s, Chain(a, b, c, d))
  {
    XorLawful();
    Regroup(Xor, s, Word(a), Up(Word(b), 1), Up(Word(c), 2), Up(Word(d), 3));
  }

  lemma PacksApartHere()
    ensures PacksApart(Crc32Register())
  {
    var r := Crc32Register();
    forall s, a, b, c, d, a', b', c', d' | Pack(r, s, a, b, c, d) == Pack(r, s, a', b', c', d')
      ensures a == a' && b == b' && c == c' && d == d'
    {
      PackIsChain(s, a, b, c, d);
      PackIsChain(s, a', b', c', d');
      XorCancels(Chain(a, b, c, d), Chain(a', b', c', d'), s);
      ChainApart(a, b, c, d, a', b', c', d');
    }
  }

  lemma Down8(b: bv8)
    ensures Eight(Shift, Up(Word(b), 1)) == Word(b)
  {
  }

  lemma Down16(b: bv8)
    ensures Eight(Shift, Up(Word(b), 2)) == Up(Word(b), 1)
  {
  }

  lemma Down24(b: bv8)
    ensures Eight(Shift, Up(Word(b), 3)) == Up(Word(b), 2)
  {
  }

  lemma DescendsHere()
    ensures Descends(Crc32Register())
  {
    forall b
      ensures Eight(Shift, Up(Word(b), 1)) == Word(b)
      ensures Eight(Shift, Up(Word(b), 2)) == Up(Word(b), 1)
      ensures Eight(Shift, Up(Word(b), 3)) == Up(Word(b), 2)
    {
      Down8(b);
      Down16(b);
      Down24(b);
    }
  }

  lemma RegisterLawful()
    ensures KeepsApart(Crc32Register()) && TellsFour(Crc32Register())
  {
    ShiftInjective();
    EightInjective(Shift);
    ShiftLinear();
    EightLinear(Shift, Xor);
    XorLawful();
    DescendsHere();
    PacksApartHere();
    LawsSuffice(Crc32Register());
  }

  /** A change confined to four neighbouring bytes changes the checksum, however long the text. */
  lemma WindowChangesCrc(x: seq<bv8>, y: seq<bv8>, at: nat)
    requires |x| == |y| && x != y
    requires forall j :: 0 <= j < |x| && !(at <= j < at + 4) ==> x[j] == y[j]
    ensures Crc(x) != Crc(y)
  {
    RegisterLawful();
    WindowShows(Crc32Register(), 0xFFFF_FFFF, x, y, at);
    XorCancels(Fold(Crc32Register(), 0xFFFF_FFFF, x), Fold(Crc32Register(), 0xFFFF_FFFF, y), 0xFFFF_FFFF);
  }

  // ------------------------------------------------------------------
  // The last byte
  // ------------------------------------------------------------------

  /** All but the top four bits. */
  function Low(w: bv32): bv32 { w & 0x0FFF_FFFF }

  /** No byte is shifted into the top four bits alone. */
  ghost predicate ReachesLow(f: bv32 -> bv32) {
    forall d: bv8 :: Low(f(Word(d))) == 0 ==> d == 0
  }

  lemma ByteReachesLow(d: bv8)
    requires Low(Eight(Shift, Word(d))) == 0
    ensures d == 0
  {
  }

  lemma EightReachesLow()
    ensures ReachesLow(Eightfold(Shift))
  {
    forall d: bv8 | Low(Eight(Shift, Word(d))) == 0 ensures d == 0 {
      ByteReachesLow(d);
    }
  }

  lemma WordXor(a: bv8, b: bv8)
    ensures Xor(Word(a), Word(b)) == Word(a ^ b)
    ensures a ^ b == 0 ==> a == b
  {
  }

  lemma LowDifference(t: bv32, p: bv32, q: bv32, o: bv32)
    requires Low(Xor(Xor(t, p), o)) == Low(Xor(Xor(t, q), o))
    ensures Low(Xor(p, q)) == 0
  {
  }

  lemma LowTells(f: bv32 -> bv32, t: bv32, a: bv8, b: bv8, o: bv32)
    requires Linear(f, Xor) && ReachesLow(f)
    requires Low(Xor(f(Xor(t, Word(a))), o)) == Low(Xor(f(Xor(t, Word(b))), o))
    ensures a == b
  {
    LowDifference(f(t), f(Word(a)), f(Word(b)), o);
    WordXor(a, b);
  }

  lemma LastByteAdds(u: seq<bv8>, a: bv8)
    ensures Crc(u + [a])
         == Xor(Eightfold(Shift)(Xor(Fold(Crc32Register(), 0xFFFF_FFFF, u), Word(a))), 0xFFFF_FFFF)
  {
    var r := Crc32Register();
    FoldConcat(r, 0xFFFF_FFFF, u, [a]);
    FoldsOne(r, Fold(r, 0xFFFF_FFFF, u), [a]);
  }

  /** Texts that differ in their last byte differ below the top four bits of the checksum. */
  lemma LastByteShowsLow(u: seq<bv8>, a: bv8, b: bv8)
    requires Low(Crc(u + [a])) == Low(Crc(u + [b]))
    ensures a == b
  {
    LastByteAdds(u, a);
    LastByteAdds(u, b);
    ShiftLinear();
    EightLinear(Shift, Xor);
    EightReachesLow();
    LowTells(Eightfold(Shift), Fold(Crc32Register(), 0xFFFF_FFFF, u), a, b, 0xFFFF_FFFF);
  }
}
