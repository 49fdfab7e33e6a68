/** What every module shares: optional values, bytes and counters. */
module Wrappers {
  datatype Option<T> = None | Some(value: T)

  type Byte = x: int | 0 <= x < 256

  /** One less, as a counter that is known to be positive is decremented. */
  function Less(n: nat): nat {
    if n > 0 then n - 1 else 0
  }
}
