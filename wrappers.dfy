// Option and Result, the two shapes every fallible operation of the engine
// returns (Rust's `Option<T>` and `Result<T, E>`).
module Wrappers {
  datatype Option<T> = None | Some(value: T)

  datatype Result<T, E> = Ok(value: T) | Err(error: E)

  /// A unit value for operations whose success carries nothing (`Ok(())`).
  datatype Unit = Unit
}
