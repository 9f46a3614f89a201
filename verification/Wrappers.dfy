// Optional values and the two-armed results that the Rust and shell sources use for their error paths.
module Wrappers {
  datatype Option<+T> = None | Some(value: T)

  datatype Result<+T, +E> = Success(value: T) | Failure(error: E)
}
