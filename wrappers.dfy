/** Optional values and results of operations that can throw. */
module Wrappers {

  /** A value that may be absent (`undefined` / `null` in the source). */
  datatype Option<+T> = None | Some(value: T)

  /** The outcome of a mutation that can throw: its return value, or the thrown error. */
  datatype Result<+T, +E> = Ok(value: T) | Err(error: E)
}
