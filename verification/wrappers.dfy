/**
 * Result shapes shared by the whole model.
 *
 * `Option` and `Result` are the usual wrappers; `Outcome` records whether a
 * Rust computation returns normally or aborts with a panic (an `expect`, an
 * `unwrap`, an out-of-bounds index, a `panic!` or a debug-build integer
 * underflow).  Modelling the panic as a value keeps every operation total.
 */
module Wrappers {

  datatype Option<T> = None | Some(value: T)

  datatype Result<T> = Ok(value: T) | Err(error: string)

  datatype Outcome<T> = Returns(value: T) | Panics(message: string)

  /** Message of Rust's debug-build check on `len() - 1` with `len() == 0`. */
  const SubtractOverflow: string := "attempt to subtract with overflow"
}
