/** UTF-8 (section 3 of RFC 3629), as Python's `encode("utf-8")` and
    `decode("utf-8", errors="ignore")` have it. */
module Utf8 {
  import opened Basics
  import opened Base64

  type CodePoint = n: nat | n < 0x11_0000
  type Text = seq<CodePoint>

  /** A Python string may hold these; UTF-8 may not. */
  predicate Surrogate(c: CodePoint) {
    0xD800 <= c <= 0xDFFF
  }

  predicate Encodable(text: Text) {
    forall i :: 0 <= i < |text| ==> !Surrogate(text[i])
  }

  function EncodeOne(c: CodePoint): seq<Byte> {
    if c < 0x80 then [c]
    else if c < 0x800 then [0xC0 + c / 64, 0x80 + c % 64]
    else if c < 0x1_0000 then [0xE0 + c / 64 / 64, 0x80 + c / 64 % 64, 0x80 + c % 64]
    else [0xF0 + c / 64 / 64 / 64, 0x80 + c / 64 / 64 % 64, 0x80 + c / 64 % 64, 0x80 + c % 64]
  }

  function EncodeAll(text: Text): seq<Byte> {
    if text == [] then [] else EncodeOne(text[0]) + EncodeAll(text[1..])
  }

  /** No value stands for `UnicodeEncodeError`. */
  function Encode(text: Text): Option<seq<Byte>> {
    if Encodable(text) then Some(EncodeAll(text)) else None
  }

  predicate Continues(b: seq<Byte>, i: nat) {
    i < |b| && 0x80 <= b[i] < 0xC0
  }

  datatype Decoded = Decoded(point: CodePoint, size: nat)

  /** The code point whose encoding opens `b`, if one does. */
  function Head(b: seq<Byte>): (r: Option<Decoded>)
    ensures r.Some? ==> 0 < r.value.size <= |b|
  {
    if b == [] then None
    else if b[0] < 0x80 then Some(Decoded(b[0], 1))
    else if 0xC0 <= b[0] < 0xE0 then
      if !Continues(b, 1) then None
      else
        var c := (b[0] as int - 0xC0) * 64 + (b[1] as int - 0x80);
        if c < 0x80 then None else Some(Decoded(c, 2))
    else if 0xE0 <= b[0] < 0xF0 then
      if !Continues(b, 1) || !Continues(b, 2) then None
      else
        var c := ((b[0] as int - 0xE0) * 64 + (b[1] as int - 0x80)) * 64 + (b[2] as int - 0x80);
        if c < 0x800 || Surrogate(c) then None else Some(Decoded(c, 3))
    else if 0xF0 <= b[0] < 0xF5 then
      if !Continues(b, 1) || !Continues(b, 2) || !Continues(b, 3) then None
      else
        var c := (((b[0] as int - 0xF0) * 64 + (b[1] as int - 0x80)) * 64 + (b[2] as int - 0x80)) * 64 + (b[3] as int - 0x80);
        if c < 0x1_0000 || c >= 0x11_0000 then None else Some(Decoded(c, 4))
    else None
  }

  /** Decodes what it can and drops every byte that fits nowhere. */
  function DecodeIgnoring(b: seq<Byte>): Text
    decreases |b|
  {
    if b == [] then []
    else
      match Head(b)
      case Some(d) => [d.point] + DecodeIgnoring(b[d.size..])
      case None => DecodeIgnoring(b[1..])
  }

  // ------------------------------------------------------------------
  // Decoding what was encoded, whole or cut short
  // ------------------------------------------------------------------

  lemma HeadOfEncoded(c: CodePoint, rest: seq<Byte>)
    requires !Surrogate(c)
    ensures Head(EncodeOne(c) + rest) == Some(Decoded(c, |EncodeOne(c)|))
  {
    var b := EncodeOne(c) + rest;
    if c < 0x80 {
    } else if c < 0x800 {
      assert b[1] == 0x80 + c % 64;
    } else if c < 0x1_0000 {
      assert b[1] == 0x80 + c / 64 % 64 && b[2] == 0x80 + c % 64;
    } else {
      assert b[1] == 0x80 + c / 64 / 64 % 64 && b[2] == 0x80 + c / 64 % 64 && b[3] == 0x80 + c % 64;
    }
  }

  /** An encoding cut short decodes to nothing. */
  lemma {:induction false} CutShort(c: CodePoint, from: nat, n: nat)
    requires from <= n < |EncodeOne(c)|
    ensures DecodeIgnoring(EncodeOne(c)[from..n]) == []
    decreases n - from
  {
    var b := EncodeOne(c)[from..n];
    if b != [] {
      assert Head(b) == None;
      CutShort(c, from + 1, n);
      assert b[1..] == EncodeOne(c)[from + 1..n];
    }
  }

  /** `k` is how many code points of `text` fit whole into `n` bytes. */
  predicate Fits(text: Text, k: nat, n: nat) {
    && k <= |text| && |EncodeAll(text[..k])| <= n
    && (k < |text| ==> |EncodeAll(text[..k + 1])| > n)
  }

  lemma FitsMore(text: Text, k: nat, n: nat)
    requires text != [] && n >= |EncodeOne(text[0])| && Fits(text[1..], k, n - |EncodeOne(text[0])|)
    ensures Fits(text, k + 1, n)
  {
    assert text[..k + 1][1..] == text[1..][..k];
    if k + 1 < |text| {
      assert text[..k + 2][1..] == text[1..][..k + 1];
    }
  }

  /** The first `n` bytes of an encoding decode to the code points that fit into them whole. */
  lemma {:induction false} DecodePrefix(text: Text, n: nat) returns (k: nat)
    requires Encodable(text) && n <= |EncodeAll(text)|
    ensures Fits(text, k, n) && DecodeIgnoring(EncodeAll(text)[..n]) == text[..k]
  {
    if text == [] {
      k := 0;
    } else {
      var first := EncodeOne(text[0]);
      var cut := EncodeAll(text)[..n];
      if n < |first| {
        k := 0;
        CutShort(text[0], 0, n);
        assert cut == first[0..n];
        assert text[..1][1..] == [];
      } else {
        var m := DecodePrefix(text[1..], n - |first|);
        k := m + 1;
        FitsMore(text, m, n);
        HeadOfEncoded(text[0], EncodeAll(text[1..])[..n - |first|]);
        assert cut == first + EncodeAll(text[1..])[..n - |first|];
        assert cut[|first|..] == EncodeAll(text[1..])[..n - |first|];
        assert text[..k] == [text[0]] + text[1..][..m];
      }
    }
  }

  lemma {:induction false} EncodeGrows(text: Text, k: nat)
    requires k <= |text|
    ensures |EncodeAll(text[..k])| <= |EncodeAll(text)|
    ensures k < |text| ==> |EncodeAll(text[..k])| < |EncodeAll(text)|
  {
    if k > 0 {
      EncodeGrows(text[1..], k - 1);
      assert text[..k][1..] == text[1..][..k - 1];
    }
  }

  lemma RoundTrip(text: Text)
    requires Encodable(text)
    ensures DecodeIgnoring(EncodeAll(text)) == text
  {
    var n := |EncodeAll(text)|;
    var k := DecodePrefix(text, n);
    assert EncodeAll(text)[..n] == EncodeAll(text);
    if k < |text| {
      EncodeGrows(text, k + 1);
    }
    assert text[..|text|] == text;
  }

  lemma EncodeInjective(s: Text, t: Text)
    requires Encodable(s) && Encodable(t) && EncodeAll(s) == EncodeAll(t)
    ensures s == t
  {
    RoundTrip(s);
    RoundTrip(t);
  }

  lemma Six(h: nat, l: nat)
    requires l < 64
    ensures (h * 64 + l) / 64 == h && (h * 64 + l) % 64 == l
  {
  }

  lemma TwoBytes(a: nat, b: nat)
    requires a < 32 && b < 64 && 0x80 <= a * 64 + b
    ensures EncodeOne(a * 64 + b) == [0xC0 + a, 0x80 + b]
  {
    Six(a, b);
  }

  lemma ThreeBytes(a: nat, b: nat, c: nat)
    requires a < 16 && b < 64 && c < 64 && 0x800 <= (a * 64 + b) * 64 + c
    ensures EncodeOne((a * 64 + b) * 64 + c) == [0xE0 + a, 0x80 + b, 0x80 + c]
  {
    Six(a * 64 + b, c);
    Six(a, b);
  }

  lemma FourBytes(a: nat, b: nat, c: nat, d: nat)
    requires a < 8 && b < 64 && c < 64 && d < 64 && 0x1_0000 <= ((a * 64 + b) * 64 + c) * 64 + d < 0x11_0000
    ensures EncodeOne(((a * 64 + b) * 64 + c) * 64 + d) == [0xF0 + a, 0x80 + b, 0x80 + c, 0x80 + d]
  {
    Six((a * 64 + b) * 64 + c, d);
    Six(a * 64 + b, c);
    Six(a, b);
  }

  /** What the decoder takes for a code point is that code point's own encoding: nothing
      longer than it need be, no surrogate, nothing beyond the last code point. */
  lemma HeadIsEncoding(b: seq<Byte>)
    requires Head(b).Some?
    ensures var d := Head(b).value;
            && !(0xD800 <= d.point <= 0xDFFF) && d.point < 0x11_0000
            && d.size == |EncodeOne(d.point)| <= |b| && b[..d.size] == EncodeOne(d.point)
  {
    if b[0] < 0x80 {
    } else if b[0] < 0xE0 {
      TwoBytes(b[0] - 0xC0, b[1] - 0x80);
    } else if b[0] < 0xF0 {
      ThreeBytes(b[0] - 0xE0, b[1] - 0x80, b[2] - 0x80);
    } else {
      FourBytes(b[0] - 0xF0, b[1] - 0x80, b[2] - 0x80, b[3] - 0x80);
    }
  }

  /** Text is encoded exactly when it has no surrogate. */
  lemma EncodeRefusesSurrogates(text: Text)
    ensures Encode(text).None? <==> exists i :: 0 <= i < |text| && 0xD800 <= text[i] <= 0xDFFF
  {
  }
}
