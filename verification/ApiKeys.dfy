/** API keys `sk_live_{key_id}_{secret}{crc32}`
    (`packages/core/security/api_keys.py`). */
module ApiKeys {
  import opened Basics
  import Base64
  import Crc32
  import Crc32Standard

  const PREFIX := "sk_live_"

  // ------------------------------------------------------------------
  // Characters as bytes, words as hexadecimal
  // ------------------------------------------------------------------

  function FromBits(b0: bool, b1: bool, b2: bool, b3: bool, b4: bool, b5: bool, b6: bool, b7: bool): bv8 {
    (if b0 then 1 else 0) | (if b1 then 2 else 0) | (if b2 then 4 else 0) | (if b3 then 8 else 0)
    | (if b4 then 16 else 0) | (if b5 then 32 else 0) | (if b6 then 64 else 0) | (if b7 then 128 else 0)
  }

  /** The low eight bits of `n`. */
  function Octet(n: nat): bv8 {
    var h1 := n / 2;
    var h2 := h1 / 2;
    var h3 := h2 / 2;
    var h4 := h3 / 2;
    var h5 := h4 / 2;
    var h6 := h5 / 2;
    var h7 := h6 / 2;
    FromBits(n % 2 == 1, h1 % 2 == 1, h2 % 2 == 1, h3 % 2 == 1, h4 % 2 == 1, h5 % 2 == 1, h6 % 2 == 1, h7 % 2 == 1)
  }

  function Bytes(text: string): (r: seq<bv8>)
    ensures |r| == |text|
  {
    if text == "" then [] else [Octet(text[0] as int)] + Bytes(text[1..])
  }

  function HexDigit(n: bv32): (c: char)
    ensures IsHex(c)
  {
    if n == 0 then '0' else if n == 1 then '1' else if n == 2 then '2' else if n == 3 then '3'
    else if n == 4 then '4' else if n == 5 then '5' else if n == 6 then '6' else if n == 7 then '7'
    else if n == 8 then '8' else if n == 9 then '9' else if n == 10 then 'a' else if n == 11 then 'b'
    else if n == 12 then 'c' else if n == 13 then 'd' else if n == 14 then 'e' else 'f'
  }

  /** Four bits, counted from the least significant. */
  function Nibble(x: bv32, k: nat): bv32 {
    (if k == 0 then x else if k == 1 then x >> 4 else if k == 2 then x >> 8 else if k == 3 then x >> 12
     else if k == 4 then x >> 16 else if k == 5 then x >> 20 else if k == 6 then x >> 24 else x >> 28) & 15
  }

  /** Eight lower-case digits, the most significant first. */
  function Hex(x: bv32): string {
    [HexDigit(Nibble(x, 7)), HexDigit(Nibble(x, 6)), HexDigit(Nibble(x, 5)), HexDigit(Nibble(x, 4)),
     HexDigit(Nibble(x, 3)), HexDigit(Nibble(x, 2)), HexDigit(Nibble(x, 1)), HexDigit(Nibble(x, 0))]
  }

  predicate IsHex(c: char) {
    '0' <= c <= '9' || 'a' <= c <= 'f'
  }

  // ------------------------------------------------------------------
  // Minting and parsing
  // ------------------------------------------------------------------

  function Checksum(body: string): string {
    Hex(Crc32.Crc(Bytes(body)))
  }

  function Body(keyId: string, secret: string): string {
    PREFIX + keyId + "_" + secret
  }

  function Key(keyId: string, secret: string): string {
    Body(keyId, secret) + Checksum(Body(keyId, secret))
  }

  /** The random bytes are the caller's. */
  function Mint(idBytes: seq<Base64.Byte>, secretBytes: seq<Base64.Byte>): string {
    Key(Base64.Encode(idBytes), Base64.Encode(secretBytes))
  }

  predicate Symbols(text: string) {
    forall i :: 0 <= i < |text| ==> Base64.IsSymbol(text[i])
  }

  /** What `$` in the pattern lets through: one line feed at the very end. */
  function WithoutNewline(candidate: string): string {
    if candidate != "" && candidate[|candidate| - 1] == '\n' then candidate[..|candidate| - 1] else candidate
  }

  predicate Matches(core: string) {
    && |core| == 72
    && core[..8] == PREFIX && Symbols(core[8..20]) && core[20] == '_' && Symbols(core[21..64])
    && forall i :: 64 <= i < 72 ==> IsHex(core[i])
  }

  function Parse(candidate: string): Option<string> {
    var core := WithoutNewline(candidate);
    if !Matches(core) then None
    else if core[64..] != Checksum(core[..64]) then None
    else Some(core[8..20])
  }

  // ------------------------------------------------------------------
  // Nothing is lost on the way to the checksum
  // ------------------------------------------------------------------

  function Bit(b: bool): nat { if b then 1 else 0 }

  /** The number that a byte stands for. */
  function Code(b: bv8): int { b as int }

  function Weight(b0: bool, b1: bool, b2: bool, b3: bool, b4: bool, b5: bool, b6: bool, b7: bool): nat {
    Bit(b0) + 2 * Bit(b1) + 4 * Bit(b2) + 8 * Bit(b3) + 16 * Bit(b4) + 32 * Bit(b5) + 64 * Bit(b6) + 128 * Bit(b7)
  }

  lemma BitsWeigh(b0: bool, b1: bool, b2: bool, b3: bool, b4: bool, b5: bool, b6: bool, b7: bool)
    ensures Code(FromBits(b0, b1, b2, b3, b4, b5, b6, b7)) == Weight(b0, b1, b2, b3, b4, b5, b6, b7)
  {
  }

  /** `n` is twice `h` and a bit. */
  predicate Splits(n: nat, h: nat, b: bool) {
    n == 2 * h + Bit(b)
  }

  lemma Halved(n: nat)
    ensures Splits(n, n / 2, n % 2 == 1) && (n < 2 ==> n / 2 == 0)
  {
  }

  lemma Compose(n: nat, h1: nat, h2: nat, h3: nat, h4: nat, h5: nat, h6: nat, h7: nat, h8: nat,
                b0: bool, b1: bool, b2: bool, b3: bool, b4: bool, b5: bool, b6: bool, b7: bool)
    requires n < 256 && Splits(n, h1, b0) && Splits(h1, h2, b1) && Splits(h2, h3, b2) && Splits(h3, h4, b3)
    requires Splits(h4, h5, b4) && Splits(h5, h6, b5) && Splits(h6, h7, b6) && Splits(h7, h8, b7)
    ensures Weight(b0, b1, b2, b3, b4, b5, b6, b7) == n
  {
  }

  lemma OctetBits(n: nat, h1: nat, h2: nat, h3: nat, h4: nat, h5: nat, h6: nat, h7: nat)
    requires h1 == n / 2 && h2 == h1 / 2 && h3 == h2 / 2 && h4 == h3 / 2 && h5 == h4 / 2 && h6 == h5 / 2 && h7 == h6 / 2
    ensures Octet(n) == FromBits(n % 2 == 1, h1 % 2 == 1, h2 % 2 == 1, h3 % 2 == 1,
                                 h4 % 2 == 1, h5 % 2 == 1, h6 % 2 == 1, h7 % 2 == 1)
  {
  }

  lemma HalvesWeigh(n: nat, h1: nat, h2: nat, h3: nat, h4: nat, h5: nat, h6: nat, h7: nat)
    requires n < 256
    requires h1 == n / 2 && h2 == h1 / 2 && h3 == h2 / 2 && h4 == h3 / 2 && h5 == h4 / 2 && h6 == h5 / 2 && h7 == h6 / 2
    ensures Weight(n % 2 == 1, h1 % 2 == 1, h2 % 2 == 1, h3 % 2 == 1, h4 % 2 == 1, h5 % 2 == 1, h6 % 2 == 1, h7 % 2 == 1) == n
  {
    Halved(n);
    Halved(h1);
    Halved(h2);
    Halved(h3);
    Halved(h4);
    Halved(h5);
    Halved(h6);
    Halved(h7);
    Compose(n, h1, h2, h3, h4, h5, h6, h7, h7 / 2,
            n % 2 == 1, h1 % 2 == 1, h2 % 2 == 1, h3 % 2 == 1, h4 % 2 == 1, h5 % 2 == 1, h6 % 2 == 1, h7 % 2 == 1);
  }

  /** The byte of a character is its code. */
  lemma OctetIsCode(n: nat)
    requires n < 256
    ensures Code(Octet(n)) == n
  {
    var h1 := n / 2;
    var h2 := h1 / 2;
    var h3 := h2 / 2;
    var h4 := h3 / 2;
    var h5 := h4 / 2;
    var h6 := h5 / 2;
    var h7 := h6 / 2;
    OctetBits(n, h1, h2, h3, h4, h5, h6, h7);
    HalvesWeigh(n, h1, h2, h3, h4, h5, h6, h7);
    BitsWeigh(n % 2 == 1, h1 % 2 == 1, h2 % 2 == 1, h3 % 2 == 1, h4 % 2 == 1, h5 % 2 == 1, h6 % 2 == 1, h7 % 2 == 1);
  }

  lemma OctetInjective(m: nat, n: nat)
    requires m < 256 && n < 256 && Octet(m) == Octet(n)
    ensures m == n
  {
    OctetIsCode(m);
    OctetIsCode(n);
  }

  lemma {:induction false} BytesAt(text: string, i: nat)
    requires i < |text|
    ensures Bytes(text)[i] == Octet(text[i] as int)
  {
    if i > 0 {
      BytesAt(text[1..], i - 1);
    }
  }

  lemma HexDigitInjective(m: bv32, n: bv32)
    requires m <= 15 && n <= 15 && HexDigit(m) == HexDigit(n)
    ensures m == n
  {
  }

  lemma NibbleFits(x: bv32, k: nat)
    ensures Nibble(x, k) <= 15
  {
  }

  lemma SameDigit(x: bv32, y: bv32, k: nat)
    requires k < 8 && Hex(x)[7 - k] == Hex(y)[7 - k]
    ensures Nibble(x, k) == Nibble(y, k)
  {
    NibbleFits(x, k);
    NibbleFits(y, k);
    HexDigitInjective(Nibble(x, k), Nibble(y, k));
  }

  /** The value of a digit, and of digits with the most significant first. */
  function DigitValue(c: char): bv32 {
    if c == '0' then 0 else if c == '1' then 1 else if c == '2' then 2 else if c == '3' then 3
    else if c == '4' then 4 else if c == '5' then 5 else if c == '6' then 6 else if c == '7' then 7
    else if c == '8' then 8 else if c == '9' then 9 else if c == 'a' then 10 else if c == 'b' then 11
    else if c == 'c' then 12 else if c == 'd' then 13 else if c == 'e' then 14 else 15
  }

  function Append(value: bv32, digit: bv32): bv32 { (value << 4) | digit }

  function ReadHex(text: string): bv32 {
    if text == "" then 0 else Append(ReadHex(text[..|text| - 1]), DigitValue(text[|text| - 1]))
  }

  lemma DigitReads(n: bv32)
    requires n <= 15
    ensures DigitValue(HexDigit(n)) == n
  {
  }

  lemma NibblesMake(x: bv32)
    ensures Append(Append(Append(Append(Append(Append(Append(Append(0, Nibble(x, 7)), Nibble(x, 6)), Nibble(x, 5)),
              Nibble(x, 4)), Nibble(x, 3)), Nibble(x, 2)), Nibble(x, 1)), Nibble(x, 0)) == x
  {
  }

  lemma ReadNext(text: string, c: char)
    ensures ReadHex(text + [c]) == Append(ReadHex(text), DigitValue(c))
  {
    assert (text + [c])[..|text|] == text;
  }

  lemma ReadFour(text: string, a: char, b: char, c: char, d: char)
    ensures ReadHex(text + [a, b, c, d])
         == Append(Append(Append(Append(ReadHex(text), DigitValue(a)), DigitValue(b)), DigitValue(c)), DigitValue(d))
  {
    ReadNext(text, a);
    ReadNext(text + [a], b);
    ReadNext(text + [a] + [b], c);
    ReadNext(text + [a] + [b] + [c], d);
    assert text + [a] + [b] + [c] + [d] == text + [a, b, c, d];
  }

  lemma NibbleReads(x: bv32, k: nat)
    ensures DigitValue(HexDigit(Nibble(x, k))) == Nibble(x, k)
  {
    NibbleFits(x, k);
    DigitReads(Nibble(x, k));
  }

  lemma HexHalves(x: bv32)
    ensures Hex(x) == "" + [HexDigit(Nibble(x, 7)), HexDigit(Nibble(x, 6)), HexDigit(Nibble(x, 5)), HexDigit(Nibble(x, 4))]
                    + [HexDigit(Nibble(x, 3)), HexDigit(Nibble(x, 2)), HexDigit(Nibble(x, 1)), HexDigit(Nibble(x, 0))]
  {
  }

  lemma NibblesRead(x: bv32, a: char, b: char, c: char, d: char, e: char, f: char, g: char, h: char)
    requires DigitValue(a) == Nibble(x, 7) && DigitValue(b) == Nibble(x, 6) && DigitValue(c) == Nibble(x, 5)
    requires DigitValue(d) == Nibble(x, 4) && DigitValue(e) == Nibble(x, 3) && DigitValue(f) == Nibble(x, 2)
    requires DigitValue(g) == Nibble(x, 1) && DigitValue(h) == Nibble(x, 0)
    ensures ReadHex("" + [a, b, c, d] + [e, f, g, h]) == x
  {
    ReadFour("", a, b, c, d);
    ReadFour("" + [a, b, c, d], e, f, g, h);
    NibblesMake(x);
  }

  /** The digits read as the word they were made from. */
  lemma HexReads(x: bv32)
    ensures ReadHex(Hex(x)) == x
  {
    AllRead(x);
    NibblesRead(x, HexDigit(Nibble(x, 7)), HexDigit(Nibble(x, 6)), HexDigit(Nibble(x, 5)), HexDigit(Nibble(x, 4)),
                HexDigit(Nibble(x, 3)), HexDigit(Nibble(x, 2)), HexDigit(Nibble(x, 1)), HexDigit(Nibble(x, 0)));
    HexHalves(x);
  }

  lemma HexInjective(x: bv32, y: bv32)
    requires Hex(x) == Hex(y)
    ensures x == y
  {
    HexReads(x);
    HexReads(y);
  }

  lemma AllRead(x: bv32)
    ensures forall k: nat :: k < 8 ==> DigitValue(HexDigit(Nibble(x, k))) == Nibble(x, k)
  {
    forall k: nat | k < 8 ensures DigitValue(HexDigit(Nibble(x, k))) == Nibble(x, k) {
      NibbleReads(x, k);
    }
  }

  lemma HexShape(x: bv32)
    ensures |Hex(x)| == 8 && forall i :: 0 <= i < 8 ==> IsHex(Hex(x)[i])
  {
    DigitsAreHex(Nibble(x, 7), Nibble(x, 6), Nibble(x, 5), Nibble(x, 4),
                 Nibble(x, 3), Nibble(x, 2), Nibble(x, 1), Nibble(x, 0));
  }

  lemma DigitsAreHex(a: bv32, b: bv32, c: bv32, d: bv32, e: bv32, f: bv32, g: bv32, h: bv32)
    ensures var digits := [HexDigit(a), HexDigit(b), HexDigit(c), HexDigit(d),
                           HexDigit(e), HexDigit(f), HexDigit(g), HexDigit(h)];
            forall i :: 0 <= i < 8 ==> IsHex(digits[i])
  {
  }

  /** The checksum of a text is eight lower-case hexadecimal digits that read as the standard
      CRC-32 of its characters' codes. */
  lemma ChecksumIsStandard(body: string)
    requires Base64.Ascii(body)
    ensures |Checksum(body)| == 8 && (forall i :: 0 <= i < 8 ==> IsHex(Checksum(body)[i]))
    ensures ReadHex(Checksum(body)) == Crc32Standard.Standard(Bytes(body))
    ensures forall i :: 0 <= i < |body| ==> Code(Bytes(body)[i]) == body[i] as int
  {
    HexShape(Crc32.Crc(Bytes(body)));
    HexReads(Crc32.Crc(Bytes(body)));
    Crc32Standard.CrcIsStandard(Bytes(body));
    forall i | 0 <= i < |body| ensures Code(Bytes(body)[i]) == body[i] as int {
      BytesAt(body, i);
      OctetIsCode(body[i] as int);
    }
  }

  // ------------------------------------------------------------------
  // What parse accepts
  // ------------------------------------------------------------------

  predicate WellFormed(keyId: string, secret: string) {
    |keyId| == 12 && Symbols(keyId) && |secret| == 43 && Symbols(secret)
  }

  lemma BodyShape(keyId: string, secret: string)
    requires WellFormed(keyId, secret)
    ensures var body := Body(keyId, secret);
            && |body| == 64 && body[..8] == "sk_live_" && body[8..20] == keyId && body[20] == '_' && body[21..] == secret
  {
    assert |PREFIX| == 8;
    assert Body(keyId, secret) == PREFIX + (keyId + ("_" + secret));
  }

  lemma KeyShape(keyId: string, secret: string)
    requires WellFormed(keyId, secret)
    ensures var key := Key(keyId, secret);
            && Matches(key) && key[..64] == Body(keyId, secret) && key[64..] == Checksum(Body(keyId, secret))
            && key[8..20] == keyId
  {
    BodyShape(keyId, secret);
    var body := Body(keyId, secret);
    HexShape(Crc32.Crc(Bytes(body)));
    SplitKey(body, Checksum(body));
  }

  lemma SplitKey(body: string, checksum: string)
    requires |body| == 64 && |checksum| == 8
    ensures var key := body + checksum;
            && key[..64] == body && key[64..] == checksum
            && key[..8] == body[..8] && key[8..20] == body[8..20] && key[20] == body[20] && key[21..64] == body[21..]
            && forall i :: 64 <= i < 72 ==> key[i] == checksum[i - 64]
  {
  }

  lemma KeyParses(keyId: string, secret: string)
    requires WellFormed(keyId, secret)
    ensures Parse(Key(keyId, secret)) == Some(keyId) && Parse(Key(keyId, secret) + "\n") == Some(keyId)
  {
    KeyShape(keyId, secret);
    var key := Key(keyId, secret);
    assert IsHex(key[71]);
    assert WithoutNewline(key) == key && WithoutNewline(key + "\n") == key;
  }

  lemma ParsedIsKey(candidate: string)
    requires Parse(candidate).Some?
    ensures var core := WithoutNewline(candidate);
            && (candidate == core || candidate == core + "\n")
            && WellFormed(core[8..20], core[21..64]) && core == Key(core[8..20], core[21..64])
  {
    var core := WithoutNewline(candidate);
    assert core[..64] == core[..8] + core[8..20] + [core[20]] + core[21..64];
    assert core == core[..64] + core[64..];
  }

  /** The accepted texts are the well-formed keys, and those keys followed by a line feed. */
  lemma ParseExactly(candidate: string, keyId: string)
    ensures Parse(candidate) == Some(keyId) <==>
              exists secret :: WellFormed(keyId, secret)
                            && (candidate == Key(keyId, secret) || candidate == Key(keyId, secret) + "\n")
  {
    if Parse(candidate) == Some(keyId) {
      ParsedIsKey(candidate);
      assert WellFormed(keyId, WithoutNewline(candidate)[21..64]);
    }
    forall secret | WellFormed(keyId, secret)
      ensures Parse(Key(keyId, secret)) == Some(keyId) && Parse(Key(keyId, secret) + "\n") == Some(keyId)
    {
      KeyParses(keyId, secret);
    }
  }

  /** A minted key gives back its own id. */
  lemma MintParses(idBytes: seq<Base64.Byte>, secretBytes: seq<Base64.Byte>)
    requires |idBytes| == 9 && |secretBytes| == 32
    ensures Parse(Mint(idBytes, secretBytes)) == Some(Base64.Encode(idBytes))
  {
    Base64.EncodeShape(idBytes);
    Base64.EncodeShape(secretBytes);
    assert WellFormed(Base64.Encode(idBytes), Base64.Encode(secretBytes));
    ParseExactly(Mint(idBytes, secretBytes), Base64.Encode(idBytes));
  }

  // ------------------------------------------------------------------
  // Damage
  // ------------------------------------------------------------------

  /** `x` and `y` are alike outside the four places from `at`. */
  predicate AlikeBut(x: string, y: string, at: nat) {
    |x| == |y| && forall j :: 0 <= j < |x| && !(at <= j < at + 4) ==> x[j] == y[j]
  }

  lemma MatchesAscii(core: string)
    requires Matches(core)
    ensures Base64.Ascii(core)
  {
    forall i | 0 <= i < 72 ensures core[i] < 128 as char {
      if i < 8 {
        assert core[i] == core[..8][i];
      } else if 8 <= i < 20 {
        assert core[i] == core[8..20][i - 8];
      } else if 21 <= i < 64 {
        assert core[i] == core[21..64][i - 21];
      }
    }
  }

  /** Text that changes within four neighbouring characters has another checksum. */
  lemma ChecksumTells(x: string, y: string, at: nat)
    requires Base64.Ascii(x) && Base64.Ascii(y) && AlikeBut(x, y, at) && x != y
    ensures Checksum(x) != Checksum(y)
  {
    var (p, q) := (Bytes(x), Bytes(y));
    var k :| 0 <= k < |x| && x[k] != y[k];
    forall j | 0 <= j < |x| ensures p[j] == q[j] <==> x[j] == y[j] {
      BytesAt(x, j);
      BytesAt(y, j);
      if p[j] == q[j] { OctetInjective(x[j] as int, y[j] as int); }
    }
    assert p[k] != q[k];
    Crc32.WindowChangesCrc(p, q, at);
    if Checksum(x) == Checksum(y) { HexInjective(Crc32.Crc(p), Crc32.Crc(q)); }
  }

  /** What an accepted text of the full length is. */
  lemma AcceptedKey(key: string)
    requires |key| == 72 && Parse(key).Some?
    ensures key[64..] == Checksum(key[..64]) && Base64.Ascii(key) && Base64.Ascii(key[..64])
  {
    assert WithoutNewline(key) == key;
    MatchesAscii(key);
  }

  /** A key damaged within four neighbouring characters, all in its body or all in its
      checksum, is refused. */
  lemma DamageRefused(key: string, damaged: string, at: nat)
    requires |key| == 72 && Parse(key).Some?
    requires damaged != key && AlikeBut(key, damaged, at)
    requires key[64..] == damaged[64..] || key[..64] == damaged[..64]
    ensures Parse(damaged) == None
  {
    if Parse(damaged).Some? {
      AcceptedKey(key);
      AcceptedKey(damaged);
      assert key == key[..64] + key[64..] && damaged == damaged[..64] + damaged[64..];
      ChecksumTells(key[..64], damaged[..64], at);
    }
  }

  /** One wrong character, anywhere in the key. */
  lemma WrongCharacterRefused(key: string, i: nat, c: char)
    requires |key| == 72 && Parse(key).Some? && i < 72 && c != key[i]
    ensures Parse(key[i := c]) == None
  {
    var damaged := key[i := c];
    assert damaged[i] != key[i];
    assert if i < 64 then key[64..] == damaged[64..] else key[..64] == damaged[..64];
    DamageRefused(key, damaged, i);
  }

  lemma {:induction false} BytesConcat(x: string, y: string)
    ensures Bytes(x + y) == Bytes(x) + Bytes(y)
  {
    if x == "" {
      assert x + y == y;
    } else {
      assert (x + y)[1..] == x[1..] + y;
      BytesConcat(x[1..], y);
    }
  }

  lemma NibblesTellLow(x: bv32, y: bv32)
    requires Nibble(x, 0) == Nibble(y, 0) && Nibble(x, 1) == Nibble(y, 1) && Nibble(x, 2) == Nibble(y, 2)
    requires Nibble(x, 3) == Nibble(y, 3) && Nibble(x, 4) == Nibble(y, 4) && Nibble(x, 5) == Nibble(y, 5)
    requires Nibble(x, 6) == Nibble(y, 6)
    ensures Crc32.Low(x) == Crc32.Low(y)
  {
  }

  lemma LowDigits(x: bv32, y: bv32)
    requires Hex(x)[1..] == Hex(y)[1..]
    ensures Crc32.Low(x) == Crc32.Low(y)
  {
    forall k | 1 <= k < 8 ensures Hex(x)[k] == Hex(y)[k] {
      assert Hex(x)[k] == Hex(x)[1..][k - 1] && Hex(y)[k] == Hex(y)[1..][k - 1];
    }
    SameDigit(x, y, 0);
    SameDigit(x, y, 1);
    SameDigit(x, y, 2);
    SameDigit(x, y, 3);
    SameDigit(x, y, 4);
    SameDigit(x, y, 5);
    SameDigit(x, y, 6);
    NibblesTellLow(x, y);
  }

  /** Another last character shows in the checksum behind its first digit. */
  lemma LastCharacterShows(body: string, a: char, b: char)
    requires a < 128 as char && b < 128 as char && Checksum(body + [a])[1..] == Checksum(body + [b])[1..]
    ensures a == b
  {
    BytesConcat(body, [a]);
    BytesConcat(body, [b]);
    assert [a][1..] == "" && [b][1..] == "";
    assert Bytes([a]) == [Octet(a as int)] && Bytes([b]) == [Octet(b as int)];
    LowDigits(Crc32.Crc(Bytes(body + [a])), Crc32.Crc(Bytes(body + [b])));
    Crc32.LastByteShowsLow(Bytes(body), Octet(a as int), Octet(b as int));
    OctetInjective(a as int, b as int);
  }

  /** The last character of the body and the first of the checksum, swapped. */
  lemma BoundarySwapRefused(key: string)
    requires |key| == 72 && Parse(key).Some? && key[63] != key[64]
    ensures Parse(key[63 := key[64]][64 := key[63]]) == None
  {
    var damaged := key[63 := key[64]][64 := key[63]];
    if Parse(damaged).Some? {
      AcceptedKey(key);
      AcceptedKey(damaged);
      SwappedParts(key, damaged);
      LastCharacterShows(key[..63], key[63], key[64]);
    }
  }

  lemma SwappedParts(key: string, damaged: string)
    requires |key| == 72 && damaged == key[63 := key[64]][64 := key[63]]
    ensures key[..64] == key[..63] + [key[63]] && damaged[..64] == key[..63] + [key[64]]
    ensures key[64..][1..] == damaged[64..][1..]
  {
  }

  /** Two neighbouring characters swapped, anywhere in the key. */
  lemma TranspositionRefused(key: string, i: nat)
    requires |key| == 72 && Parse(key).Some? && i + 1 < 72 && key[i] != key[i + 1]
    ensures Parse(key[i := key[i + 1]][i + 1 := key[i]]) == None
  {
    var damaged := key[i := key[i + 1]][i + 1 := key[i]];
    assert damaged[i] != key[i];
    if i == 63 {
      BoundarySwapRefused(key);
    } else {
      assert if i < 63 then key[64..] == damaged[64..] else key[..64] == damaged[..64];
      DamageRefused(key, damaged, i);
    }
  }
}
