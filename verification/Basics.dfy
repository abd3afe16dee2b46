/** Optional values, taking a sequence apart at its end, and the constants of the clock. */
module Basics {

  /** Nanoseconds in a second. */
  const SECOND := 1_000_000_000

  /** The start of 2025, the first instant any clock is believed, in Unix seconds and in nanoseconds. */
  const YEAR_2025_SECONDS := 1_735_689_600
  const YEAR_2025 := 1_735_689_600_000_000_000

  datatype Option<+T> = None | Some(value: T) {
    predicate IsFailure() { None? }

    function PropagateFailure<U>(): Option<U>
      requires None?
    {
      None
    }

    function Extract(): T
      requires Some?
    {
      value
    }
  }

  function Last<T>(s: seq<T>): T
    requires |s| > 0
  {
    s[|s| - 1]
  }

  function Front<T>(s: seq<T>): seq<T>
    requires |s| > 0
  {
    s[..|s| - 1]
  }
}
