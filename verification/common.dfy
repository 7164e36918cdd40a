/** Shared value types: optional values, results with an error case, and
    the few string tests the modelled code uses. */
module Common {

  datatype Option<+T> = None | Some(value: T)

  /** The outcome of an operation that may raise: `Err` carries the
      exception the source raises. Failure-compatible, so `:-` propagates
      the first error the way an uncaught exception does. */
  datatype Result<+T, +E> = Ok(value: T) | Err(error: E) {
    predicate IsFailure() {
      Err?
    }

    function PropagateFailure<U>(): Result<U, E>
      requires Err?
    {
      Err(error)
    }

    function Extract(): T
      requires Ok?
    {
      value
    }
  }

  /** Python's `s.endswith(suffix)`. */
  predicate EndsWith(s: string, suffix: string) {
    |suffix| <= |s| && s[|s| - |suffix|..] == suffix
  }

  /** Python's `s.startswith(prefix)`. */
  predicate StartsWith(s: string, prefix: string) {
    |prefix| <= |s| && s[..|prefix|] == prefix
  }

  function Max(a: int, b: int): int {
    if a < b then b else a
  }

  /** `i` is a valid Python sequence index for length `n`: counted from the
      front when non-negative, from the end when negative. */
  predicate InRange(i: int, n: nat) {
    -(n as int) <= i < n
  }

  /** The position a valid index `i` selects in a sequence of length `n`. */
  function PyIndex(i: int, n: nat): (k: nat)
    requires InRange(i, n)
    ensures k < n && (k == i || k == i + n)
  {
    if i < 0 then i + n else i
  }
}
