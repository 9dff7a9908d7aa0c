/** Vocabulary shared by every module: optional values, the enumerations of
    `packages/core/enums.py`, and the clock's unit. */
module Basics {

  datatype Option<+T> = None | Some(value: T)

  /** The first value when there is one, as SQL's `COALESCE` reads. */
  function Coalesce<T>(first: Option<T>, second: Option<T>): Option<T> {
    if first.Some? then first else second
  }

  /** The first `n` values, or all of them. */
  function Take<T>(s: seq<T>, n: nat): seq<T> {
    if n <= |s| then s[..n] else s
  }

  predicate Distinct<T(==)>(s: seq<T>) {
    forall i, k :: 0 <= i < k < |s| ==> s[i] != s[k]
  }

  datatype ErrorClass = Transient | Permanent | NeedsReconnect | Config

  /** Which client delivers a send. `Fake` stands in for either provider on a
      machine where that provider is not configured. */
  datatype Channel = Gmail | Slack | Fake

  // Instants are counted in microseconds, the resolution of a `timestamptz`.
  const SECOND: nat := 1_000_000
}
