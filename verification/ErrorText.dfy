/** The byte limit on stored error text (`_cap` in `packages/core/jobs/queue.py`). */
module ErrorText {
  import opened Basics
  import opened Utf8

  // The one limit in use; the statements hold for any.
  const MAX_BYTES: nat := 16 * 1024

  /** No value stands for the exception `encode` raises on a surrogate. */
  function Capped(detail: Text, limit: nat := MAX_BYTES): Option<Text> {
    match Encode(detail)
    case None => None
    case Some(raw) => Some(if |raw| <= limit then detail else DecodeIgnoring(raw[..limit]))
  }

  /** The result is the longest prefix, in code points, whose encoding fits the limit. */
  lemma CappedIsLongestPrefix(detail: Text, limit: nat, k: nat)
    requires Encodable(detail) && k <= |detail|
    ensures Capped(detail, limit) == Some(detail[..k]) <==> Fits(detail, k, limit)
  {
    var raw := EncodeAll(detail);
    var kept: nat;
    if |raw| <= limit {
      kept := |detail|;
      assert detail[..kept] == detail;
    } else {
      kept := DecodePrefix(detail, limit);
    }
    FitsOnce(detail, k, kept, limit);
    assert |detail[..k]| == k && |detail[..kept]| == kept;
  }

  /** What is stored fits into sixteen kibibytes, and text that fits is stored whole. */
  lemma CappedFits(detail: Text)
    requires Encodable(detail)
    ensures Capped(detail).Some? && Encodable(Capped(detail).value) && |EncodeAll(Capped(detail).value)| <= 16384
    ensures |EncodeAll(detail)| <= 16384 ==> Capped(detail) == Some(detail)
  {
    var raw := EncodeAll(detail);
    if |raw| > MAX_BYTES {
      var kept := DecodePrefix(detail, MAX_BYTES);
    }
  }

  lemma FitsOnce(text: Text, j: nat, k: nat, n: nat)
    requires Fits(text, k, n)
    ensures Fits(text, j, n) ==> j == k
  {
    if Fits(text, j, n) && j < k {
      assert text[..k][..j + 1] == text[..j + 1];
      EncodeGrows(text[..k], j + 1);
    } else if Fits(text, j, n) && k < j {
      assert text[..j][..k + 1] == text[..k + 1];
      EncodeGrows(text[..j], k + 1);
    }
  }

  /** It fails exactly on text that UTF-8 cannot hold. */
  lemma CappedFailsOnSurrogates(detail: Text, limit: nat)
    ensures Capped(detail, limit).None? <==> exists i :: 0 <= i < |detail| && Surrogate(detail[i])
  {
  }
}
