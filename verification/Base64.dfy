/** base64url without padding (section 5 of RFC 4648): what
    `urlsafe_b64encode(...).rstrip("=")` writes, and what `urlsafe_b64decode`
    reads once the padding is put back. */
module Base64 {
  import opened Basics

  type Byte = n: nat | n < 256
  type Sextet = n: nat | n < 64

  predicate Ascii(text: string) {
    forall i :: 0 <= i < |text| ==> text[i] < 128 as char
  }

  function Symbol(v: Sextet): char {
    if v < 26 then 'A' + (v as char)
    else if v < 52 then 'a' + ((v - 26) as char)
    else if v < 62 then '0' + ((v - 52) as char)
    else if v == 62 then '-' else '_'
  }

  predicate IsSymbol(c: char) {
    'A' <= c <= 'Z' || 'a' <= c <= 'z' || '0' <= c <= '9' || c == '-' || c == '_'
  }

  /** The decoder takes the ordinary base64 alphabet as well as the URL one. */
  function Value(c: char): Option<Sextet> {
    if 'A' <= c <= 'Z' then Some((c as int) - ('A' as int))
    else if 'a' <= c <= 'z' then Some((c as int) - ('a' as int) + 26)
    else if '0' <= c <= '9' then Some((c as int) - ('0' as int) + 52)
    else if c == '-' || c == '+' then Some(62)
    else if c == '_' || c == '/' then Some(63)
    else None
  }

  lemma SymbolValue(v: Sextet)
    ensures IsSymbol(Symbol(v)) && Value(Symbol(v)) == Some(v) && Symbol(v) < 128 as char && Symbol(v) != '='
  {
  }

  function Encode(b: seq<Byte>): string {
    if |b| == 0 then ""
    else if |b| == 1 then [Symbol(b[0] / 4), Symbol(b[0] % 4 * 16)]
    else if |b| == 2 then
      [Symbol(b[0] / 4), Symbol(b[0] % 4 * 16 + b[1] / 16), Symbol(b[1] % 16 * 4)]
    else
      [Symbol(b[0] / 4), Symbol(b[0] % 4 * 16 + b[1] / 16), Symbol(b[1] % 16 * 4 + b[2] / 64), Symbol(b[2] % 64)]
      + Encode(b[3..])
  }

  /** How far a reader is into a group of four: the symbols read, the bits not yet written,
      and the padding met since the last symbol. */
  datatype Reader = Reader(quad: nat, left: nat, pads: nat) {

    predicate Valid() {
      quad < 4 && left < if quad == 0 then 1 else if quad == 1 then 64 else if quad == 2 then 16 else 4
    }

    /** The padding that completes a group ends the text. */
    predicate Stops(c: char) {
      c == '=' && quad >= 2 && quad + pads + 1 >= 4
    }

    /** Anything outside the alphabet is passed over. */
    function Next(c: char): (r: Reader)
      requires Valid()
      ensures r.Valid()
    {
      if c == '=' then if quad < 2 then this else this.(pads := pads + 1)
      else
        match Value(c)
        case None => this
        case Some(v) =>
          if quad == 0 then Reader(1, v, 0)
          else if quad == 1 then Reader(2, v % 16, 0)
          else if quad == 2 then Reader(3, v % 4, 0)
          else Reader(0, 0, 0)
    }

    function Writes(c: char): seq<Byte>
      requires Valid()
    {
      match Value(c)
      case None => []
      case Some(v) =>
        if quad == 0 then []
        else if quad == 1 then [left * 4 + v / 16]
        else if quad == 2 then [left * 16 + v / 4]
        else [left * 64 + v]
    }
  }

  const START := Reader(0, 0, 0)

  function Prepend(bytes: seq<Byte>, rest: Option<seq<Byte>>): Option<seq<Byte>> {
    if rest.Some? then Some(bytes + rest.value) else None
  }

  /** CPython's lenient decoder; an incomplete group is refused. */
  function Scan(s: string, r: Reader): Option<seq<Byte>>
    requires r.Valid()
  {
    if s == "" then if r.quad == 0 then Some([]) else None
    else if r.Stops(s[0]) then Some([])
    else Prepend(r.Writes(s[0]), Scan(s[1..], r.Next(s[0])))
  }

  /** `"=" * (-n % 4)` */
  function Padding(n: nat): string {
    if n % 4 == 0 then "" else if n % 4 == 1 then "===" else if n % 4 == 2 then "==" else "="
  }

  function Decode(s: string): Option<seq<Byte>> {
    if !Ascii(s) then None
    else Scan(s + Padding(|s|), START)
  }

  lemma {:induction false} EncodeShape(b: seq<Byte>)
    ensures |Encode(b)| == (4 * |b| + 2) / 3
    ensures forall i :: 0 <= i < |Encode(b)| ==> IsSymbol(Encode(b)[i])
  {
    if |b| >= 3 {
      EncodeShape(b[3..]);
    }
  }

  lemma ScanSymbol(v: Sextet, rest: string, r: Reader)
    requires r.Valid()
    ensures Scan([Symbol(v)] + rest, r) == Prepend(r.Writes(Symbol(v)), Scan(rest, r.Next(Symbol(v))))
  {
    SymbolValue(v);
    assert ([Symbol(v)] + rest)[1..] == rest;
  }

  /** The first two symbols of a group give its first byte. */
  lemma ScanTwo(a: Byte, w: Sextet, rest: string)
    requires w / 16 == a % 4
    ensures Scan([Symbol(a / 4)] + ([Symbol(w)] + rest), START) == Prepend([a], Scan(rest, Reader(2, w % 16, 0)))
  {
    SymbolValue(a / 4);
    SymbolValue(w);
    ScanSymbol(a / 4, [Symbol(w)] + rest, START);
    ScanSymbol(w, rest, Reader(1, a / 4, 0));
    assert a / 4 * 4 + w / 16 == a;
    assert START.Writes(Symbol(a / 4)) == [] && START.Next(Symbol(a / 4)) == Reader(1, a / 4, 0);
    PrependNone(Scan([Symbol(w)] + rest, Reader(1, a / 4, 0)));
  }

  lemma PrependNone(rest: Option<seq<Byte>>)
    ensures Prepend([], rest) == rest
  {
    if rest.Some? { assert [] + rest.value == rest.value; }
  }

  /** The third symbol gives the second byte. */
  lemma ScanThird(w: Sextet, b: Byte, x: Sextet, rest: string)
    requires w % 16 == b / 16 && x / 4 == b % 16
    ensures Scan([Symbol(x)] + rest, Reader(2, w % 16, 0)) == Prepend([b], Scan(rest, Reader(3, x % 4, 0)))
  {
    SymbolValue(x);
    ScanSymbol(x, rest, Reader(2, w % 16, 0));
    assert w % 16 * 16 + x / 4 == b;
  }

  lemma ScanFourth(x: Sextet, c: Byte, rest: string)
    requires x % 4 == c / 64
    ensures Scan([Symbol(c % 64)] + rest, Reader(3, x % 4, 0)) == Prepend([c], Scan(rest, START))
  {
    SymbolValue(c % 64);
    ScanSymbol(c % 64, rest, Reader(3, x % 4, 0));
    assert x % 4 * 64 + c % 64 == c;
  }

  lemma ScanPadding(left: nat, one: string, two: string)
    requires one == "=" && two == "=="
    ensures left < 16 ==> Scan(two, Reader(2, left, 0)) == Some([])
    ensures left < 4 ==> Scan(one, Reader(3, left, 0)) == Some([])
  {
    assert two[1..] == one;
    if left < 16 {
      PrependNone(Scan(one, Reader(2, left, 1)));
    }
  }

  lemma {:induction false} ScanEncoded(b: seq<Byte>, tail: string)
    requires tail == Padding(|Encode(b)|)
    ensures Scan(Encode(b) + tail, START) == Some(b)
  {
    if |b| < 3 {
      ScanShort(b, tail);
    } else {
      PaddingShift(|Encode(b[3..])|);
      assert |Encode(b)| == 4 + |Encode(b[3..])|;
      ScanEncoded(b[3..], tail);
      ScanGroup(b, tail);
    }
  }

  lemma PaddingShift(n: nat)
    ensures Padding(4 + n) == Padding(n)
  {
  }

  lemma ScanShort(b: seq<Byte>, tail: string)
    requires |b| < 3 && tail == Padding(|Encode(b)|)
    ensures Scan(Encode(b) + tail, START) == Some(b)
  {
    if |b| == 0 {
      assert Encode(b) + tail == "";
    } else if |b| == 1 {
      ScanShort1(b[0]);
      assert b == [b[0]];
    } else {
      ScanShort2(b[0], b[1]);
      assert b == [b[0], b[1]];
    }
  }

  lemma ScanShort1(a: Byte)
    ensures Scan([Symbol(a / 4), Symbol(a % 4 * 16)] + "==", START) == Some([a])
  {
    var w := a % 4 * 16;
    ScanTwo(a, w, "==");
    ScanPadding(w % 16, "=", "==");
    assert [a] + [] == [a];
    assert [Symbol(a / 4), Symbol(w)] + "==" == [Symbol(a / 4)] + ([Symbol(w)] + "==");
  }

  lemma ScanShort2(a: Byte, b: Byte)
    ensures Scan([Symbol(a / 4), Symbol(a % 4 * 16 + b / 16), Symbol(b % 16 * 4)] + "=", START) == Some([a, b])
  {
    var (w, x) := (a % 4 * 16 + b / 16, b % 16 * 4);
    ScanTwo(a, w, [Symbol(x)] + "=");
    ScanThird(w, b, x, "=");
    ScanPadding(x % 4, "=", "==");
    assert [Symbol(a / 4), Symbol(w), Symbol(x)] + "=" == [Symbol(a / 4)] + ([Symbol(w)] + ([Symbol(x)] + "="));
    assert [a] + ([b] + []) == [a, b];
  }

  lemma ScanFour(a: Byte, b: Byte, c: Byte, w: Sextet, x: Sextet, rest: string)
    requires w == a % 4 * 16 + b / 16 && x == b % 16 * 4 + c / 64
    ensures Scan([Symbol(a / 4)] + ([Symbol(w)] + ([Symbol(x)] + ([Symbol(c % 64)] + rest))), START)
         == Prepend([a], Prepend([b], Prepend([c], Scan(rest, START))))
  {
    ScanTwo(a, w, [Symbol(x)] + ([Symbol(c % 64)] + rest));
    ScanThird(w, b, x, [Symbol(c % 64)] + rest);
    ScanFourth(x, c, rest);
  }

  lemma PrependThree(b: seq<Byte>)
    requires |b| >= 3
    ensures Prepend([b[0]], Prepend([b[1]], Prepend([b[2]], Some(b[3..])))) == Some(b)
  {
    assert b == [b[0]] + ([b[1]] + ([b[2]] + b[3..]));
  }

  lemma ScanGroup(b: seq<Byte>, tail: string)
    requires |b| >= 3 && Scan(Encode(b[3..]) + tail, START) == Some(b[3..])
    ensures Scan(Encode(b) + tail, START) == Some(b)
  {
    var (w, x) := (b[0] % 4 * 16 + b[1] / 16, b[1] % 16 * 4 + b[2] / 64);
    EncodeGroup(b, w, x, b[2] % 64, tail);
    ScanFour(b[0], b[1], b[2], w, x, Encode(b[3..]) + tail);
    PrependThree(b);
  }

  lemma EncodeGroup(b: seq<Byte>, w: Sextet, x: Sextet, y: Sextet, tail: string)
    requires |b| >= 3
    requires w == b[0] % 4 * 16 + b[1] / 16 && x == b[1] % 16 * 4 + b[2] / 64 && y == b[2] % 64
    ensures Encode(b) + tail
         == [Symbol(b[0] / 4)] + ([Symbol(w)] + ([Symbol(x)] + ([Symbol(y)] + (Encode(b[3..]) + tail))))
  {
    var rest := Encode(b[3..]);
    assert Encode(b) == [Symbol(b[0] / 4), Symbol(w), Symbol(x), Symbol(y)] + rest;
    Regroup(Encode(b), Symbol(b[0] / 4), Symbol(w), Symbol(x), Symbol(y), rest, tail);
  }

  lemma Regroup(text: string, a: char, b: char, c: char, d: char, rest: string, tail: string)
    requires text == [a, b, c, d] + rest
    ensures text + tail == [a] + ([b] + ([c] + ([d] + (rest + tail))))
  {
  }

  /** Every byte string comes back. */
  lemma RoundTrip(b: seq<Byte>)
    ensures Decode(Encode(b)) == Some(b)
  {
    EncodeShape(b);
    ScanEncoded(b, Padding(|Encode(b)|));
  }

  // ------------------------------------------------------------------
  // The standard's alphabet and bit order
  // ------------------------------------------------------------------

  /** A test vector of section 10 of RFC 4648, and one for the two symbols of the URL alphabet. */
  lemma TestVectors(foobar: seq<Byte>, url: seq<Byte>)
    requires foobar == [0x66, 0x6F, 0x6F, 0x62, 0x61, 0x72] && url == [0xFB, 0xFF]
    ensures Encode(foobar) == "Zm9vYmFy" && Encode(url) == "-_8"
  {
    assert foobar[3..] == [0x62, 0x61, 0x72] && foobar[3..][3..] == [];
    assert Encode(foobar[3..]) == "YmFy";
  }

  function Place(c: char): int {
    match Value(c)
    case Some(v) => v
    case None => 0
  }

  lemma SymbolPlace(v: Sextet)
    ensures Place(Symbol(v)) == v
  {
    SymbolValue(v);
  }

  /** Digits of a number, the most significant first. */
  function Octets(a: int, b: int, c: int): int { (a * 256 + b) * 256 + c }

  function Sextets(a: int, b: int, c: int, d: int): int { ((a * 64 + b) * 64 + c) * 64 + d }

  /** The symbols from `j` on are the bits of the bytes from `i` on, as far as they go. */
  predicate SameBits(text: string, j: nat, b: seq<Byte>, i: nat)
    requires i < |b|
  {
    if i + 3 <= |b| then
      && j + 4 <= |text|
      && Sextets(Place(text[j]), Place(text[j + 1]), Place(text[j + 2]), Place(text[j + 3])) == Octets(b[i], b[i + 1], b[i + 2])
    else if i + 2 == |b| then
      j + 3 == |text| && Sextets(Place(text[j]), Place(text[j + 1]), Place(text[j + 2]), 0) == Octets(b[i], b[i + 1], 0)
    else
      j + 2 == |text| && Sextets(Place(text[j]), Place(text[j + 1]), 0, 0) == Octets(b[i], 0, 0)
  }

  /** Each group of three bytes and its four symbols are the same 24 bits, the leading ones
      first; a shorter last group is filled up with zeros, and its empty symbols left out. */
  lemma {:induction false} GroupsAreBits(b: seq<Byte>, k: nat)
    requires 3 * k < |b|
    ensures SameBits(Encode(b), 4 * k, b, 3 * k)
  {
    if k == 0 {
      FirstGroupIsBits(b);
    } else {
      GroupsAreBits(b[3..], k - 1);
      var head := [Symbol(b[0] / 4), Symbol(b[0] % 4 * 16 + b[1] / 16), Symbol(b[1] % 16 * 4 + b[2] / 64), Symbol(b[2] % 64)];
      assert Encode(b) == head + Encode(b[3..]);
      LaterBits(head, Encode(b[3..]), 4 * k - 4, b, 3 * k);
    }
  }

  lemma LaterBits(head: string, text: string, j: nat, b: seq<Byte>, i: nat)
    requires |head| == 4 && 3 <= i < |b| && SameBits(text, j, b[3..], i - 3)
    ensures SameBits(head + text, j + 4, b, i)
  {
  }

  lemma Quarters(a: Byte, b: Byte, c: Byte)
    ensures Sextets(a / 4, a % 4 * 16 + b / 16, b % 16 * 4 + c / 64, c % 64) == Octets(a, b, c)
  {
    assert a == a / 4 * 4 + a % 4 && b == b / 16 * 16 + b % 16 && c == c / 64 * 64 + c % 64;
  }

  lemma FirstGroupIsBits(b: seq<Byte>)
    requires b != []
    ensures SameBits(Encode(b), 0, b, 0)
  {
    SymbolPlace(b[0] / 4);
    if |b| == 1 {
      Quarters(b[0], 0, 0);
      SymbolPlace(b[0] % 4 * 16);
    } else if |b| == 2 {
      Quarters(b[0], b[1], 0);
      SymbolPlace(b[0] % 4 * 16 + b[1] / 16);
      SymbolPlace(b[1] % 16 * 4);
    } else {
      Quarters(b[0], b[1], b[2]);
      SymbolPlace(b[0] % 4 * 16 + b[1] / 16);
      SymbolPlace(b[1] % 16 * 4 + b[2] / 64);
      SymbolPlace(b[2] % 64);
    }
  }

  // ------------------------------------------------------------------
  // The ordinary alphabet
  // ------------------------------------------------------------------

  function Ordinary(c: char): char {
    if c == '-' then '+' else if c == '_' then '/' else c
  }

  function InOrdinary(text: string): string {
    if text == "" then "" else [Ordinary(text[0])] + InOrdinary(text[1..])
  }

  lemma {:induction false} ScanOrdinary(text: string, r: Reader)
    requires r.Valid()
    ensures Scan(InOrdinary(text), r) == Scan(text, r)
    decreases |text|
  {
    if text != "" {
      assert InOrdinary(text)[1..] == InOrdinary(text[1..]);
      assert Value(Ordinary(text[0])) == Value(text[0]);
      ScanOrdinary(text[1..], r.Next(text[0]));
    }
  }
}
