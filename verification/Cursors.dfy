/** The text of a listing cursor (`encode` and `decode` in `apps/api/paging.py`). */
module Cursors {
  import opened Basics
  import Base64

  /** An instant in UTC, as a `timestamptz` comes back. */
  datatype Stamp = Stamp(year: nat, month: nat, day: nat, hour: nat, minute: nat, second: nat, micro: nat) {

    predicate Valid() {
      1 <= year <= 9999 && 1 <= month <= 12 && 1 <= day <= 31 && hour < 24 && minute < 60 && second < 60
      && micro < 1_000_000
    }

    function Days(): nat { (year * 13 + month) * 32 + day }

    function Minutes(): nat { (Days() * 24 + hour) * 60 + minute }

    /** One number that orders stamps as the instants they name are ordered. */
    function Instant(): nat { (Minutes() * 60 + second) * 1_000_000 + micro }
  }

  /** A position in a listing; the id is a UUID read as one number. */
  datatype Cursor = Cursor(at: Stamp, id: nat) {

    predicate Valid() {
      at.Valid() && id < IDS
    }
  }

  predicate LaterDay(a: Stamp, b: Stamp) {
    if a.year != b.year then a.year > b.year
    else if a.month != b.month then a.month > b.month
    else a.day > b.day
  }

  predicate SameDay(a: Stamp, b: Stamp) {
    a.year == b.year && a.month == b.month && a.day == b.day
  }

  /** Field by field, the most significant first. */
  predicate Later(a: Stamp, b: Stamp) {
    if !SameDay(a, b) then LaterDay(a, b)
    else if a.hour != b.hour then a.hour > b.hour
    else if a.minute != b.minute then a.minute > b.minute
    else if a.second != b.second then a.second > b.second
    else a.micro > b.micro
  }

  lemma DaysOrder(a: Stamp, b: Stamp)
    requires a.Valid() && b.Valid()
    ensures a.Days() == b.Days() <==> SameDay(a, b)
    ensures a.Days() > b.Days() <==> LaterDay(a, b)
  {
    var (m, n) := (a.year * 13 + a.month, b.year * 13 + b.month);
    assert m == n <==> a.year == b.year && a.month == b.month;
    assert m > n <==> a.year > b.year || (a.year == b.year && a.month > b.month);
  }

  lemma MinutesOrder(d: nat, h: nat, m: nat, e: nat, i: nat, n: nat)
    requires h < 24 && i < 24 && m < 60 && n < 60
    ensures (d * 24 + h) * 60 + m == (e * 24 + i) * 60 + n <==> d == e && h == i && m == n
    ensures (d * 24 + h) * 60 + m > (e * 24 + i) * 60 + n <==>
              d > e || (d == e && (h > i || (h == i && m > n)))
  {
    assert d * 24 + h == e * 24 + i <==> d == e && h == i;
    assert d * 24 + h > e * 24 + i <==> d > e || (d == e && h > i);
  }

  lemma MicrosOrder(m: nat, s: nat, u: nat, n: nat, t: nat, v: nat)
    requires s < 60 && t < 60 && u < 1_000_000 && v < 1_000_000
    ensures (m * 60 + s) * 1_000_000 + u == (n * 60 + t) * 1_000_000 + v <==> m == n && s == t && u == v
    ensures (m * 60 + s) * 1_000_000 + u > (n * 60 + t) * 1_000_000 + v <==>
              m > n || (m == n && (s > t || (s == t && u > v)))
  {
    assert m * 60 + s == n * 60 + t <==> m == n && s == t;
    assert m * 60 + s > n * 60 + t <==> m > n || (m == n && s > t);
  }

  lemma InstantOrders(a: Stamp, b: Stamp)
    requires a.Valid() && b.Valid()
    ensures a.Instant() == b.Instant() <==> a == b
    ensures a.Instant() > b.Instant() <==> Later(a, b)
  {
    DaysOrder(a, b);
    MinutesOrder(a.Days(), a.hour, a.minute, b.Days(), b.hour, b.minute);
    MicrosOrder(a.Minutes(), a.second, a.micro, b.Minutes(), b.second, b.micro);
  }

  const IDS: nat := 0x1_0000_0000_0000_0000_0000_0000_0000_0000

  datatype Base = Ten | Sixteen {

    function Times(n: nat): nat { if Ten? then 10 * n else 16 * n }

    function Over(n: nat): nat { if Ten? then n / 10 else n / 16 }

    function Digit(n: nat): (d: nat)
      ensures d < if Ten? then 10 else 16
      ensures n == Times(Over(n)) + d
    {
      if Ten? then n % 10 else n % 16
    }

    /** How many numbers have `width` digits. */
    function Power(width: nat): nat {
      if width == 0 then 1 else Times(Power(width - 1))
    }
  }

  // ------------------------------------------------------------------
  // Fixed-width numbers
  // ------------------------------------------------------------------

  function DigitChar(d: nat): char
    requires d < 16
  {
    if d < 10 then '0' + (d as char) else 'a' + ((d - 10) as char)
  }

  function DigitValue(c: char): Option<nat> {
    if '0' <= c <= '9' then Some((c as int) - ('0' as int))
    else if 'a' <= c <= 'f' then Some((c as int) - ('a' as int) + 10)
    else if 'A' <= c <= 'F' then Some((c as int) - ('A' as int) + 10)
    else None
  }

  function Digits(n: nat, base: Base, width: nat): string {
    if width == 0 then "" else Digits(base.Over(n), base, width - 1) + [DigitChar(base.Digit(n))]
  }

  function Number(t: string, base: Base): Option<nat> {
    if t == "" then Some(0)
    else
      var last := |t| - 1;
      match (Number(t[..last], base), DigitValue(t[last]))
      case (Some(high), Some(d)) => if d < base.Times(1) then Some(base.Times(high) + d) else None
      case _ => None
  }

  lemma {:induction false} DigitsShape(n: nat, base: Base, width: nat)
    ensures |Digits(n, base, width)| == width
    ensures forall i :: 0 <= i < width ==> DigitValue(Digits(n, base, width)[i]).Some?
  {
    if width > 0 {
      DigitsShape(base.Over(n), base, width - 1);
    }
  }

  lemma LastDigit(t: string, n: nat, base: Base)
    requires Number(t, base) == Some(base.Over(n))
    ensures Number(t + [DigitChar(base.Digit(n))], base) == Some(n)
  {
    assert (t + [DigitChar(base.Digit(n))])[..|t|] == t;
    assert DigitValue(DigitChar(base.Digit(n))) == Some(base.Digit(n));
  }

  lemma {:induction false} NumberOfDigits(n: nat, base: Base, width: nat)
    requires n < base.Power(width)
    ensures Number(Digits(n, base, width), base) == Some(n)
  {
    if width > 0 {
      NumberOfDigits(base.Over(n), base, width - 1);
      LastDigit(Digits(base.Over(n), base, width - 1), n, base);
    }
  }

  // ------------------------------------------------------------------
  // Splitting at fixed places
  // ------------------------------------------------------------------

  function Join(pieces: seq<string>): string {
    if pieces == [] then "" else pieces[0] + Join(pieces[1..])
  }

  /** Cuts `t` into pieces of the given sizes, which must use it up. */
  function Cut(t: string, sizes: seq<nat>): (r: Option<seq<string>>)
    ensures r.Some? ==> |r.value| == |sizes|
  {
    if sizes == [] then if t == "" then Some([]) else None
    else if sizes[0] > |t| then None
    else
      match Cut(t[sizes[0]..], sizes[1..])
      case Some(rest) => Some([t[..sizes[0]]] + rest)
      case None => None
  }

  lemma {:induction false} CutJoined(pieces: seq<string>, sizes: seq<nat>)
    requires |pieces| == |sizes| && forall i :: 0 <= i < |sizes| ==> |pieces[i]| == sizes[i]
    ensures Cut(Join(pieces), sizes) == Some(pieces)
  {
    if pieces != [] {
      CutJoined(pieces[1..], sizes[1..]);
      assert Join(pieces)[sizes[0]..] == Join(pieces[1..]);
      assert Join(pieces)[..sizes[0]] == pieces[0];
      assert pieces == [pieces[0]] + pieces[1..];
    }
  }

  // ------------------------------------------------------------------
  // Stamps and ids
  // ------------------------------------------------------------------

  const SHORT: seq<nat> := [4, 1, 2, 1, 2, 1, 2, 1, 2, 1, 2, 6]
  const LONG: seq<nat> := [4, 1, 2, 1, 2, 1, 2, 1, 2, 1, 2, 1, 6, 6]

  function IsoClock(s: Stamp): seq<string> {
    [Digits(s.year, Ten, 4), "-", Digits(s.month, Ten, 2), "-", Digits(s.day, Ten, 2), "T",
     Digits(s.hour, Ten, 2), ":", Digits(s.minute, Ten, 2), ":", Digits(s.second, Ten, 2)]
  }

  /** The pieces of `datetime.isoformat()`, which leaves out a fraction of zero. */
  function IsoPieces(s: Stamp): seq<string> {
    IsoClock(s) + if s.micro == 0 then ["+00:00"] else [".", Digits(s.micro, Ten, 6), "+00:00"]
  }

  function ReadIso(t: string): Option<Stamp> {
    if |t| == 25 then
      match Cut(t, SHORT)
      case Some(p) => if p[11] == "+00:00" then ReadPieces(p, "000000") else None
      case None => None
    else
      match Cut(t, LONG)
      case Some(p) => if p[11] == "." && p[13] == "+00:00" then ReadPieces(p, p[12]) else None
      case None => None
  }

  function ReadPieces(p: seq<string>, fraction: string): Option<Stamp>
    requires |p| > 10
  {
    if p[1] != "-" || p[3] != "-" || p[5] != "T" || p[7] != ":" || p[9] != ":" then None
    else
      match (Number(p[0], Ten), Number(p[2], Ten), Number(p[4], Ten), Number(p[6], Ten), Number(p[8], Ten),
             Number(p[10], Ten), Number(fraction, Ten))
      case (Some(y), Some(mo), Some(d), Some(h), Some(mi), Some(s), Some(us)) =>
        var stamp := Stamp(y, mo, d, h, mi, s, us);
        if stamp.Valid() then Some(stamp) else None
      case _ => None
  }

  function Hyphened(first: string, rest: string): string {
    first + ("-" + rest)
  }

  /** Hyphens after 8, 12, 16 and 20 digits. */
  function Hyphenate(h: string): string
    requires |h| == 32
  {
    Hyphened(h[..8], Hyphened(h[8..12], Hyphened(h[12..16], Hyphened(h[16..20], h[20..]))))
  }

  function IdText(id: nat): string {
    DigitsShape(id, Sixteen, 32);
    Hyphenate(Digits(id, Sixteen, 32))
  }

  function WithoutHyphens(t: string): string {
    if t == "" then ""
    else if t[0] == '-' then WithoutHyphens(t[1..])
    else [t[0]] + WithoutHyphens(t[1..])
  }

  function ReadId(t: string): Option<nat> {
    var h := WithoutHyphens(t);
    if |h| == 32 then Number(h, Sixteen) else None
  }

  // ------------------------------------------------------------------
  // The cursor
  // ------------------------------------------------------------------

  function ToBytes(t: string): Option<seq<Base64.Byte>> {
    if t == "" then Some([])
    else if t[0] >= 128 as char then None
    else
      match ToBytes(t[1..])
      case Some(rest) => Some([t[0] as int] + rest)
      case None => None
  }

  function FromBytes(b: seq<Base64.Byte>): Option<string> {
    if b == [] then Some("")
    else if b[0] >= 128 then None
    else
      match FromBytes(b[1..])
      case Some(rest) => Some([b[0] as char] + rest)
      case None => None
  }

  /** The text before the first bar, and the text after it. */
  function Partition(t: string): (string, string) {
    if t == "" then ("", "")
    else if t[0] == '|' then ("", t[1..])
    else var (first, second) := Partition(t[1..]); ([t[0]] + first, second)
  }

  function Text(c: Cursor): string {
    Join(IsoPieces(c.at)) + "|" + IdText(c.id)
  }

  function Encode(c: Cursor): string {
    match ToBytes(Text(c))
    case Some(bytes) => Base64.Encode(bytes)
    case None => ""
  }

  /** No value stands for the `invalid_cursor` refusal. */
  function Decode(cursor: string): Option<Cursor> {
    match Base64.Decode(cursor)
    case None => None
    case Some(bytes) =>
      match FromBytes(bytes)
      case None => None
      case Some(t) =>
        var (stamp, id) := Partition(t);
        match (ReadIso(stamp), ReadId(id))
        case (Some(at), Some(n)) => Some(Cursor(at, n))
        case _ => None
  }

  // ------------------------------------------------------------------
  // Round trips
  // ------------------------------------------------------------------

  lemma Powers()
    ensures Ten.Power(2) == 100 && Ten.Power(4) == 10_000 && Ten.Power(6) == 1_000_000 && Sixteen.Power(32) == IDS
  {
    assert Ten.Power(2) == 100;
    assert Ten.Power(4) == 10_000;
    assert Sixteen.Power(8) == 0x1_0000_0000;
    assert Sixteen.Power(16) == 0x1_0000_0000_0000_0000;
    assert Sixteen.Power(24) == 0x1_0000_0000_0000_0000_0000_0000;
  }

  lemma FieldsRead(s: Stamp)
    requires s.Valid()
    ensures Number(Digits(s.year, Ten, 4), Ten) == Some(s.year) && Number(Digits(s.month, Ten, 2), Ten) == Some(s.month)
    ensures Number(Digits(s.day, Ten, 2), Ten) == Some(s.day) && Number(Digits(s.hour, Ten, 2), Ten) == Some(s.hour)
    ensures Number(Digits(s.minute, Ten, 2), Ten) == Some(s.minute)
    ensures Number(Digits(s.second, Ten, 2), Ten) == Some(s.second)
    ensures Number(Digits(s.micro, Ten, 6), Ten) == Some(s.micro)
  {
    Powers();
    NumberOfDigits(s.year, Ten, 4);
    NumberOfDigits(s.month, Ten, 2);
    NumberOfDigits(s.day, Ten, 2);
    NumberOfDigits(s.hour, Ten, 2);
    NumberOfDigits(s.minute, Ten, 2);
    NumberOfDigits(s.second, Ten, 2);
    NumberOfDigits(s.micro, Ten, 6);
  }

  lemma ZeroFraction()
    ensures Number("000000", Ten) == Some(0)
  {
    assert Number("0", Ten) == Some(0) by { assert "0"[..0] == ""; }
    assert "00"[..1] == "0" && "000"[..2] == "00" && "0000"[..3] == "000" && "00000"[..4] == "0000";
    assert Number("00", Ten) == Number("000", Ten) == Some(0);
    assert Number("0000", Ten) == Number("00000", Ten) == Some(0);
    assert "000000"[..5] == "00000";
  }

  lemma PieceSizes(s: Stamp)
    ensures var sizes := if s.micro == 0 then SHORT else LONG;
            && |IsoPieces(s)| == |sizes|
            && forall i :: 0 <= i < |sizes| ==> |IsoPieces(s)[i]| == sizes[i]
  {
    DigitsShape(s.year, Ten, 4);
    DigitsShape(s.month, Ten, 2);
    DigitsShape(s.day, Ten, 2);
    DigitsShape(s.hour, Ten, 2);
    DigitsShape(s.minute, Ten, 2);
    DigitsShape(s.second, Ten, 2);
    DigitsShape(s.micro, Ten, 6);
  }

  function Total(sizes: seq<nat>): nat {
    if sizes == [] then 0 else sizes[0] + Total(sizes[1..])
  }

  lemma {:induction false} CutTotal(t: string, sizes: seq<nat>)
    requires Cut(t, sizes).Some?
    ensures |t| == Total(sizes)
  {
    if sizes != [] {
      CutTotal(t[sizes[0]..], sizes[1..]);
    }
  }

  lemma Totals()
    ensures Total(SHORT) == 25 && Total(LONG) == 32
  {
  }

  lemma ClockRead(s: Stamp, p: seq<string>, fraction: string)
    requires s.Valid() && |p| > 10 && p[..11] == IsoClock(s) && Number(fraction, Ten) == Some(s.micro)
    ensures ReadPieces(p, fraction) == Some(s)
  {
    FieldsRead(s);
    assert forall i :: 0 <= i < 11 ==> p[i] == IsoClock(s)[i];
  }

  lemma IsoCuts(s: Stamp)
    ensures var (t, sizes) := (Join(IsoPieces(s)), if s.micro == 0 then SHORT else LONG);
            Cut(t, sizes) == Some(IsoPieces(s)) && |t| == if s.micro == 0 then 25 else 32
  {
    var sizes := if s.micro == 0 then SHORT else LONG;
    PieceSizes(s);
    CutJoined(IsoPieces(s), sizes);
    CutTotal(Join(IsoPieces(s)), sizes);
    Totals();
  }

  lemma IsoRoundTrip(s: Stamp)
    requires s.Valid()
    ensures ReadIso(Join(IsoPieces(s))) == Some(s)
  {
    IsoCuts(s);
    if s.micro == 0 {
      ZeroFraction();
      ReadsShort(s, Join(IsoPieces(s)), IsoPieces(s));
    } else {
      FieldsRead(s);
      ReadsLong(s, Join(IsoPieces(s)), IsoPieces(s));
    }
  }

  lemma ReadsShort(s: Stamp, t: string, p: seq<string>)
    requires s.Valid() && s.micro == 0 && p == IsoClock(s) + ["+00:00"]
    requires |t| == 25 && Cut(t, SHORT) == Some(p) && Number("000000", Ten) == Some(0)
    ensures ReadIso(t) == Some(s)
  {
    ClockRead(s, p, "000000");
  }

  lemma ReadsLong(s: Stamp, t: string, p: seq<string>)
    requires s.Valid() && s.micro != 0 && p == IsoClock(s) + [".", Digits(s.micro, Ten, 6), "+00:00"]
    requires |t| == 32 && Cut(t, LONG) == Some(p) && Number(Digits(s.micro, Ten, 6), Ten) == Some(s.micro)
    ensures ReadIso(t) == Some(s)
  {
    ClockRead(s, p, p[12]);
  }

  predicate Without(t: string, c: char) {
    forall i :: 0 <= i < |t| ==> t[i] != c
  }

  lemma DigitsPlain(n: nat, base: Base, width: nat)
    ensures Base64.Ascii(Digits(n, base, width)) && Without(Digits(n, base, width), '-') && Without(Digits(n, base, width), '|')
  {
    DigitsShape(n, base, width);
  }

  lemma {:induction false} JoinPlain(pieces: seq<string>)
    requires forall i :: 0 <= i < |pieces| ==> Base64.Ascii(pieces[i]) && Without(pieces[i], '|')
    ensures Base64.Ascii(Join(pieces)) && Without(Join(pieces), '|')
  {
    if pieces != [] {
      JoinPlain(pieces[1..]);
    }
  }

  lemma IsoPlain(s: Stamp)
    ensures Base64.Ascii(Join(IsoPieces(s))) && Without(Join(IsoPieces(s)), '|')
  {
    DigitsPlain(s.year, Ten, 4);
    DigitsPlain(s.month, Ten, 2);
    DigitsPlain(s.day, Ten, 2);
    DigitsPlain(s.hour, Ten, 2);
    DigitsPlain(s.minute, Ten, 2);
    DigitsPlain(s.second, Ten, 2);
    DigitsPlain(s.micro, Ten, 6);
    JoinPlain(IsoPieces(s));
  }

  lemma {:induction false} HyphensGo(a: string, b: string)
    ensures WithoutHyphens(a + b) == WithoutHyphens(a) + WithoutHyphens(b)
  {
    if a == "" {
      assert a + b == b;
    } else {
      assert (a + b)[1..] == a[1..] + b;
      HyphensGo(a[1..], b);
    }
  }

  lemma {:induction false} NoHyphens(t: string)
    requires Without(t, '-')
    ensures WithoutHyphens(t) == t
  {
    if t != "" {
      NoHyphens(t[1..]);
    }
  }

  lemma HyphenGone(first: string, rest: string)
    requires Without(first, '-')
    ensures WithoutHyphens(Hyphened(first, rest)) == first + WithoutHyphens(rest)
  {
    HyphensGo(first, "-" + rest);
    NoHyphens(first);
    assert ("-" + rest)[1..] == rest;
  }

  lemma HyphensGone(h: string)
    requires |h| == 32 && Without(h, '-')
    ensures WithoutHyphens(Hyphenate(h)) == h
  {
    HyphenGone(h[16..20], h[20..]);
    NoHyphens(h[20..]);
    var tail := Hyphened(h[16..20], h[20..]);
    HyphenGone(h[12..16], tail);
    HyphenGone(h[8..12], Hyphened(h[12..16], tail));
    HyphenGone(h[..8], Hyphened(h[8..12], Hyphened(h[12..16], tail)));
    assert h == h[..8] + (h[8..12] + (h[12..16] + (h[16..20] + h[20..])));
  }

  lemma IdRoundTrip(id: nat)
    requires id < IDS
    ensures ReadId(IdText(id)) == Some(id)
  {
    var h := Digits(id, Sixteen, 32);
    DigitsShape(id, Sixteen, 32);
    DigitsPlain(id, Sixteen, 32);
    HyphensGone(h);
    Powers();
    NumberOfDigits(id, Sixteen, 32);
  }

  lemma IdAscii(id: nat)
    ensures Base64.Ascii(IdText(id))
  {
    var h := Digits(id, Sixteen, 32);
    DigitsShape(id, Sixteen, 32);
    DigitsPlain(id, Sixteen, 32);
    HyphenedAscii(h[16..20], h[20..]);
    var tail := Hyphened(h[16..20], h[20..]);
    HyphenedAscii(h[12..16], tail);
    HyphenedAscii(h[8..12], Hyphened(h[12..16], tail));
    HyphenedAscii(h[..8], Hyphened(h[8..12], Hyphened(h[12..16], tail)));
  }

  lemma HyphenedAscii(first: string, rest: string)
    requires Base64.Ascii(first) && Base64.Ascii(rest)
    ensures Base64.Ascii(Hyphened(first, rest))
  {
  }

  lemma {:induction false} BytesRoundTrip(t: string)
    requires Base64.Ascii(t)
    ensures ToBytes(t).Some? && FromBytes(ToBytes(t).value) == Some(t)
  {
    if t != "" {
      BytesRoundTrip(t[1..]);
      var rest := ToBytes(t[1..]).value;
      assert ToBytes(t).value[1..] == rest;
      assert t == [t[0]] + t[1..];
    }
  }

  lemma {:induction false} PartitionAtBar(first: string, second: string)
    requires Without(first, '|')
    ensures Partition(first + "|" + second) == (first, second)
  {
    var t := first + "|" + second;
    if first == "" {
      assert t[1..] == second;
    } else {
      assert t[1..] == first[1..] + "|" + second;
      PartitionAtBar(first[1..], second);
      assert first == [first[0]] + first[1..];
      assert t[0] == first[0];
    }
  }

  /** Every cursor comes back from its text. */
  lemma RoundTrip(c: Cursor)
    requires c.Valid()
    ensures Decode(Encode(c)) == Some(c)
  {
    IsoPlain(c.at);
    IdAscii(c.id);
    BytesRoundTrip(Text(c));
    Base64.RoundTrip(ToBytes(Text(c)).value);
    PartitionAtBar(Join(IsoPieces(c.at)), IdText(c.id));
    IsoRoundTrip(c.at);
    IdRoundTrip(c.id);
  }

  /** The empty text, which a route takes for no cursor, is never a cursor's. */
  lemma NeverEmpty(c: Cursor)
    ensures Encode(c) != ""
  {
    IsoPlain(c.at);
    IdAscii(c.id);
    BytesRoundTrip(Text(c));
    Base64.EncodeShape(ToBytes(Text(c)).value);
    assert |Text(c)| > 0;
  }

  // ------------------------------------------------------------------
  // The format
  // ------------------------------------------------------------------

  lemma JoinMore(piece: string, rest: seq<string>)
    ensures Join([piece] + rest) == piece + Join(rest)
  {
    assert ([piece] + rest)[1..] == rest;
  }

  lemma JoinFive(a: string, b: string, c: string, d: string, e: string, rest: seq<string>)
    ensures Join([a, b, c, d, e] + rest) == a + (b + (c + (d + (e + Join(rest)))))
  {
    JoinMore(e, rest);
    JoinMore(d, [e] + rest);
    JoinMore(c, [d] + ([e] + rest));
    JoinMore(b, [c] + ([d] + ([e] + rest)));
    JoinMore(a, [b] + ([c] + ([d] + ([e] + rest))));
    assert [a, b, c, d, e] + rest == [a] + ([b] + ([c] + ([d] + ([e] + rest))));
  }

  /** A date and a time with the separators between their fields, as in `2026-03-09T04:05:06`,
      and then the fraction and the offset. */
  lemma IsoText(s: Stamp)
    ensures var end := if s.micro == 0 then "+00:00" else "." + (Digits(s.micro, Ten, 6) + "+00:00");
            Join(IsoPieces(s))
              == Digits(s.year, Ten, 4) + ("-" + (Digits(s.month, Ten, 2) + ("-" + (Digits(s.day, Ten, 2) + ("T" +
                 (Digits(s.hour, Ten, 2) + (":" + (Digits(s.minute, Ten, 2) + (":" + (Digits(s.second, Ten, 2) + end))))))))))
  {
    var (y, mo, d) := (Digits(s.year, Ten, 4), Digits(s.month, Ten, 2), Digits(s.day, Ten, 2));
    var (h, mi, sec) := (Digits(s.hour, Ten, 2), Digits(s.minute, Ten, 2), Digits(s.second, Ten, 2));
    var tail := if s.micro == 0 then ["+00:00"] else [".", Digits(s.micro, Ten, 6), "+00:00"];
    assert IsoPieces(s) == [y, "-", mo, "-", d] + (["T", h, ":", mi, ":"] + ([sec] + tail));
    JoinFive(y, "-", mo, "-", d, ["T", h, ":", mi, ":"] + ([sec] + tail));
    JoinFive("T", h, ":", mi, ":", [sec] + tail);
    JoinMore(sec, tail);
    TailText(s.micro, tail);
  }

  lemma TailText(micro: nat, tail: seq<string>)
    requires tail == if micro == 0 then ["+00:00"] else [".", Digits(micro, Ten, 6), "+00:00"]
    ensures Join(tail) == if micro == 0 then "+00:00" else "." + (Digits(micro, Ten, 6) + "+00:00")
  {
    JoinMore("+00:00", []);
    assert ["+00:00"] + [] == ["+00:00"] && "+00:00" + "" == "+00:00";
    if micro != 0 {
      JoinMore(Digits(micro, Ten, 6), ["+00:00"]);
      JoinMore(".", [Digits(micro, Ten, 6), "+00:00"]);
      assert [Digits(micro, Ten, 6)] + ["+00:00"] == [Digits(micro, Ten, 6), "+00:00"];
      assert ["."] + [Digits(micro, Ten, 6), "+00:00"] == tail;
    }
  }

  /** An id has a hyphen after each of the first four groups of 8, 4, 4 and 4 digits. */
  lemma HyphensAt(h: string)
    requires |h| == 32
    ensures var t := Hyphenate(h);
            && |t| == 36 && t[8] == t[13] == t[18] == t[23] == '-'
            && t[..8] == h[..8] && t[9..13] == h[8..12] && t[14..18] == h[12..16] && t[19..23] == h[16..20] && t[24..] == h[20..]
  {
  }

  /** Digits are lower-case. */
  lemma {:induction false} DigitsAreLower(n: nat, base: Base, width: nat)
    ensures |Digits(n, base, width)| == width
    ensures forall i :: 0 <= i < width ==> '0' <= Digits(n, base, width)[i] <= '9' || 'a' <= Digits(n, base, width)[i] <= 'f'
  {
    if width > 0 {
      DigitsAreLower(base.Over(n), base, width - 1);
    }
  }

  /** A cursor's text is the stamp, a bar and the id. */
  lemma BarBetween(c: Cursor)
    ensures var (stamp, t) := (Join(IsoPieces(c.at)), Text(c));
            && |t| == |stamp| + 37 && t[..|stamp|] == stamp && t[|stamp|] == '|'
            && t[|stamp| + 1..] == IdText(c.id)
  {
    DigitsShape(c.id, Sixteen, 32);
    HyphensAt(Digits(c.id, Sixteen, 32));
  }
}
