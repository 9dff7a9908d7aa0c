/** The bytes behind the confirmation digest (`packages/core/send/digest.py`). */
module Digest {
  import opened Basics
  import opened Base64
  import opened Utf8

  const COLON: Byte := 58

  function Decimal(n: nat): seq<Byte> {
    if n < 10 then [48 + n] else Decimal(n / 10) + [48 + n % 10]
  }

  function Part(raw: seq<Byte>): seq<Byte> {
    Decimal(|raw|) + [COLON] + raw
  }

  function Payload(parts: seq<seq<Byte>>): seq<Byte> {
    if parts == [] then [] else Part(parts[0]) + Payload(parts[1..])
  }

  /** What is confirmed: where it goes, what it says. */
  datatype Content = Content(channel: Text, recipient: Text, display: Text, subject: Option<Text>, body: Text) {

    function Fields(): seq<Text> {
      [channel, recipient, display, if subject.Some? then subject.value else [], body]
    }
  }

  function EncodeEach(fields: seq<Text>): seq<seq<Byte>> {
    if fields == [] then [] else [EncodeAll(fields[0])] + EncodeEach(fields[1..])
  }

  predicate AllEncodable(fields: seq<Text>) {
    forall i :: 0 <= i < |fields| ==> Encodable(fields[i])
  }

  /** The bytes that are hashed; no value stands for `UnicodeEncodeError`. */
  function Hashed(content: Content): Option<seq<Byte>> {
    if AllEncodable(content.Fields()) then Some(Payload(EncodeEach(content.Fields()))) else None
  }

  // ------------------------------------------------------------------
  // A reader for the payload
  // ------------------------------------------------------------------

  datatype Counted = Counted(number: nat, rest: seq<Byte>)

  /** Digits up to the colon. */
  function ReadNumber(b: seq<Byte>, soFar: nat): Option<Counted> {
    if b == [] then None
    else if b[0] == COLON then Some(Counted(soFar, b[1..]))
    else if 48 <= b[0] < 58 then ReadNumber(b[1..], soFar * 10 + (b[0] - 48))
    else None
  }

  function ReadParts(b: seq<Byte>, count: nat): Option<seq<seq<Byte>>>
    decreases count
  {
    if count == 0 then if b == [] then Some([]) else None
    else
      match ReadNumber(b, 0)
      case None => None
      case Some(c) =>
        if c.number > |c.rest| then None
        else
          match ReadParts(c.rest[c.number..], count - 1)
          case None => None
          case Some(parts) => Some([c.rest[..c.number]] + parts)
  }

  lemma {:induction false} ReadDecimal(n: nat, tail: seq<Byte>)
    ensures ReadNumber(Decimal(n) + tail, 0) == ReadNumber(tail, n)
  {
    if n < 10 {
      assert (Decimal(n) + tail)[1..] == tail;
    } else {
      var digit: seq<Byte> := [48 + n % 10];
      assert Decimal(n) + tail == Decimal(n / 10) + (digit + tail);
      ReadDecimal(n / 10, digit + tail);
      assert (digit + tail)[1..] == tail;
    }
  }

  /** Every list of byte strings can be read back. */
  lemma {:induction false} ReadsPayload(parts: seq<seq<Byte>>)
    ensures ReadParts(Payload(parts), |parts|) == Some(parts)
  {
    if parts != [] {
      ReadsPayload(parts[1..]);
      ReadsPart(parts[0], Payload(parts[1..]));
      assert parts == [parts[0]] + parts[1..];
    }
  }

  lemma ReadsPart(raw: seq<Byte>, more: seq<Byte>)
    ensures ReadNumber(Part(raw) + more, 0) == Some(Counted(|raw|, raw + more))
    ensures (raw + more)[..|raw|] == raw && (raw + more)[|raw|..] == more
  {
    assert Part(raw) + more == Decimal(|raw|) + ([COLON] + (raw + more));
    ReadDecimal(|raw|, [COLON] + (raw + more));
    assert ([COLON] + (raw + more))[1..] == raw + more;
  }

  lemma {:induction false} EncodeEachInjective(s: seq<Text>, t: seq<Text>)
    requires AllEncodable(s) && AllEncodable(t) && |s| == |t| && EncodeEach(s) == EncodeEach(t)
    ensures s == t
  {
    if s != [] {
      assert EncodeEach(s)[0] == EncodeAll(s[0]) && EncodeEach(t)[0] == EncodeAll(t[0]);
      assert EncodeEach(s)[1..] == EncodeEach(s[1..]) && EncodeEach(t)[1..] == EncodeEach(t[1..]);
      EncodeInjective(s[0], t[0]);
      EncodeEachInjective(s[1..], t[1..]);
      assert s == [s[0]] + s[1..] && t == [t[0]] + t[1..];
    }
  }

  lemma {:induction false} EncodeEachLength(s: seq<Text>)
    ensures |EncodeEach(s)| == |s|
  {
    if s != [] {
      EncodeEachLength(s[1..]);
    }
  }

  /** Two contents hash the same bytes exactly when they are the same, a missing subject
      counting as an empty one. */
  lemma HashedTellsContents(a: Content, b: Content)
    requires Hashed(a).Some? && Hashed(b).Some?
    ensures Hashed(a) == Hashed(b) <==>
              && a.channel == b.channel && a.recipient == b.recipient && a.display == b.display && a.body == b.body
              && (a.subject == b.subject || {a.subject, b.subject} == {None, Some([])})
  {
    var (s, t) := (a.Fields(), b.Fields());
    if Hashed(a) == Hashed(b) {
      EncodeEachLength(s);
      EncodeEachLength(t);
      ReadsPayload(EncodeEach(s));
      ReadsPayload(EncodeEach(t));
      EncodeEachInjective(s, t);
      assert s[0] == t[0] && s[1] == t[1] && s[2] == t[2] && s[3] == t[3] && s[4] == t[4];
    }
  }

  // ------------------------------------------------------------------
  // The format
  // ------------------------------------------------------------------

  /** What the parts are, and in which order: the channel, the recipient, the name it
      resolved to, the subject and the body. */
  lemma PayloadFields(content: Content)
    requires Hashed(content).Some?
    ensures ReadParts(Hashed(content).value, 5)
              == Some([EncodeAll(content.channel), EncodeAll(content.recipient), EncodeAll(content.display),
                       EncodeAll(if content.subject.Some? then content.subject.value else []), EncodeAll(content.body)])
  {
    var f := content.Fields();
    assert EncodeEach(f[5..]) == [] && f[4..][1..] == f[5..] && f[3..][1..] == f[4..] && f[2..][1..] == f[3..] && f[1..][1..] == f[2..];
    assert EncodeEach(f[4..]) == [EncodeAll(content.body)];
    assert EncodeEach(f[3..]) == [EncodeAll(f[3])] + EncodeEach(f[4..]);
    assert EncodeEach(f[2..]) == [EncodeAll(f[2])] + EncodeEach(f[3..]);
    assert EncodeEach(f[1..]) == [EncodeAll(f[1])] + EncodeEach(f[2..]);
    assert EncodeEach(f) == [EncodeAll(f[0])] + EncodeEach(f[1..]);
    assert f[0] == content.channel && f[1] == content.recipient && f[2] == content.display;
    assert f[0..] == f;
    assert EncodeEach(f) == [EncodeAll(f[0]), EncodeAll(f[1]), EncodeAll(f[2]), EncodeAll(f[3]), EncodeAll(f[4])];
    ReadsPayload(EncodeEach(f));
  }

  /** `b"2:hi0:"` for the parts `hi` and the empty one. */
  lemma PayloadExample(parts: seq<seq<Byte>>)
    requires parts == [[104, 105], []]
    ensures Payload(parts) == [50, 58, 104, 105, 48, 58]
  {
    assert Part(parts[0]) == [50, 58, 104, 105] && Part(parts[1]) == [48, 58];
    assert parts[1..][1..] == [] && parts[1..][0] == parts[1];
    assert Payload(parts[1..]) == Part(parts[1]) + Payload(parts[1..][1..]);
  }
}
