/** That the register of `Crc32` computes the CRC-32 in use everywhere: the long division
    by the polynomial 0x04C1_1DB7, most significant bit first, over the bits of each
    byte in reverse, with the register complemented at the start and at the end, and
    the remainder read in reverse. */
module Crc32Standard {
  import opened ShiftRegister
  import opened Crc32

  // ------------------------------------------------------------------
  // The textbook form
  // ------------------------------------------------------------------

  const POLYNOMIAL: bv32 := 0x04C1_1DB7

  /** One step of the long division: the leading bit leaves, and if it was set the divisor
      is subtracted. */
  function Divide(s: bv32): bv32 {
    Xor(Double(s), Subtrahend(s))
  }

  function Double(s: bv32): bv32 { s << 1 }

  function Subtrahend(s: bv32): bv32 { if s & 0x8000_0000 != 0 then POLYNOMIAL else 0 }

  function ReverseByte(b: bv8): bv8 {
    ((b & 0x01) << 7) | ((b & 0x02) << 5) | ((b & 0x04) << 3) | ((b & 0x08) << 1)
    | ((b & 0x10) >> 1) | ((b & 0x20) >> 3) | ((b & 0x40) >> 5) | ((b & 0x80) >> 7)
  }

  /** The 32 bits in the opposite order. */
  function Reverse(w: bv32): bv32 {
    ((w & 0x0000_0001) << 31) | ((w & 0x0000_0002) << 29) | ((w & 0x0000_0004) << 27) | ((w & 0x0000_0008) << 25)
    | ((w & 0x0000_0010) << 23) | ((w & 0x0000_0020) << 21) | ((w & 0x0000_0040) << 19) | ((w & 0x0000_0080) << 17)
    | ((w & 0x0000_0100) << 15) | ((w & 0x0000_0200) << 13) | ((w & 0x0000_0400) << 11) | ((w & 0x0000_0800) << 9)
    | ((w & 0x0000_1000) << 7) | ((w & 0x0000_2000) << 5) | ((w & 0x0000_4000) << 3) | ((w & 0x0000_8000) << 1)
    | ((w & 0x0001_0000) >> 1) | ((w & 0x0002_0000) >> 3) | ((w & 0x0004_0000) >> 5) | ((w & 0x0008_0000) >> 7)
    | ((w & 0x0010_0000) >> 9) | ((w & 0x0020_0000) >> 11) | ((w & 0x0040_0000) >> 13) | ((w & 0x0080_0000) >> 15)
    | ((w & 0x0100_0000) >> 17) | ((w & 0x0200_0000) >> 19) | ((w & 0x0400_0000) >> 21) | ((w & 0x0800_0000) >> 23)
    | ((w & 0x1000_0000) >> 25) | ((w & 0x2000_0000) >> 27) | ((w & 0x4000_0000) >> 29) | ((w & 0x8000_0000) >> 31)
  }

  /** The byte's bits enter at the leading end. */
  function Leading(b: bv8): bv32 { (ReverseByte(b) as bv32) << 24 }

  function Division(s: bv32, bytes: seq<bv8>): bv32
    decreases |bytes|
  {
    if bytes == [] then s else Division(Eight(Divide, Xor(s, Leading(bytes[0]))), bytes[1..])
  }

  function Standard(bytes: seq<bv8>): bv32 {
    Xor(Reverse(Division(0xFFFF_FFFF, bytes)), 0xFFFF_FFFF)
  }

  // ------------------------------------------------------------------
  // The register divides
  // ------------------------------------------------------------------

  lemma ReverseDown(s: bv32)
    ensures Reverse(s >> 1) == Reverse(s) << 1
  {
  }

  lemma ReverseHalf(s: bv32)
    ensures Reverse(Half(s)) == Double(Reverse(s))
  {
    ReverseDown(s);
  }

  lemma ReverseTap(s: bv32)
    ensures Reverse(Tap(s)) == Subtrahend(Reverse(s))
  {
  }

  lemma ReverseXor(s: bv32, t: bv32)
    ensures Reverse(Xor(s, t)) == Xor(Reverse(s), Reverse(t))
  {
  }

  lemma ReverseWord(b: bv8)
    ensures Reverse(Word(b)) == Leading(b)
  {
  }

  lemma ReverseTwice(s: bv32)
    ensures Reverse(Reverse(s)) == s
  {
  }

  lemma ReverseShift(s: bv32)
    ensures Reverse(Shift(s)) == Divide(Reverse(s))
  {
    ReverseXor(Half(s), Tap(s));
    ReverseHalf(s);
    ReverseTap(s);
  }

  ghost predicate Mirrors(f: bv32 -> bv32, g: bv32 -> bv32) {
    forall s :: Reverse(f(s)) == g(Reverse(s))
  }

  lemma EightMirrors(f: bv32 -> bv32, g: bv32 -> bv32, s: bv32)
    requires Mirrors(f, g)
    ensures Reverse(Eight(f, s)) == Eight(g, Reverse(s))
  {
  }

  lemma ShiftMirrors()
    ensures Mirrors(Shift, Divide)
  {
    forall s ensures Reverse(Shift(s)) == Divide(Reverse(s)) {
      ReverseShift(s);
    }
  }

  lemma {:induction false} FoldDivides(s: bv32, bytes: seq<bv8>)
    ensures Reverse(Fold(Crc32Register(), s, bytes)) == Division(Reverse(s), bytes)
    decreases |bytes|
  {
    if bytes != [] {
      ShiftMirrors();
      EightMirrors(Shift, Divide, Xor(s, Word(bytes[0])));
      ReverseXor(s, Word(bytes[0]));
      ReverseWord(bytes[0]);
      FoldDivides(Update(Crc32Register(), s, bytes[0]), bytes[1..]);
    }
  }

  lemma ReverseOnes()
    ensures Reverse(0xFFFF_FFFF) == 0xFFFF_FFFF
  {
  }

  /** The checksum of every text is the standard one. */
  lemma CrcIsStandard(bytes: seq<bv8>)
    ensures Crc(bytes) == Standard(bytes)
  {
    FoldDivides(0xFFFF_FFFF, bytes);
    ReverseOnes();
    ReverseTwice(Fold(Crc32Register(), 0xFFFF_FFFF, bytes));
  }

  // ------------------------------------------------------------------
  // The check value
  // ------------------------------------------------------------------

  lemma Feeds(s: bv32, b: bv8, t: bv32, rest: seq<bv8>)
    requires Eight(Shift, Xor(s, Word(b))) == t
    ensures Fold(Crc32Register(), s, [b] + rest) == Fold(Crc32Register(), t, rest)
  {
    assert ([b] + rest)[1..] == rest;
  }

  /** The check value that specifications of CRC-32 quote: that of the ASCII digits 1 to 9. */
  lemma CheckValue()
    ensures Crc([0x31, 0x32, 0x33, 0x34, 0x35, 0x36, 0x37, 0x38, 0x39]) == 0xCBF4_3926
  {
    Feeds(0xFFFF_FFFF, 0x31, 0x7C23_1048, [0x32, 0x33, 0x34, 0x35, 0x36, 0x37, 0x38, 0x39]);
    Feeds(0x7C23_1048, 0x32, 0xB0AC_BB32, [0x33, 0x34, 0x35, 0x36, 0x37, 0x38, 0x39]);
    Feeds(0xB0AC_BB32, 0x33, 0x77B7_9C2D, [0x34, 0x35, 0x36, 0x37, 0x38, 0x39]);
    Feeds(0x77B7_9C2D, 0x34, 0x641C_1F5C, [0x35, 0x36, 0x37, 0x38, 0x39]);
    Feeds(0x641C_1F5C, 0x35, 0x340A_C5E3, [0x36, 0x37, 0x38, 0x39]);
    Feeds(0x340A_C5E3, 0x36, 0xF68D_2C9E, [0x37, 0x38, 0x39]);
    Feeds(0xF68D_2C9E, 0x37, 0xAFFC_9660, [0x38, 0x39]);
    Feeds(0xAFFC_9660, 0x38, 0x651F_2550, [0x39]);
    Feeds(0x651F_2550, 0x39, 0x340B_C6D9, []);
  }
}
