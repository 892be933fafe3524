/** Small shared vocabulary: Go bytes and the optional / error-carrying results
    that stand in for Go's `(value, error)` pairs. */
module Prelude {

  /** A Go `byte`: an unsigned 8-bit value. */
  type byte = x: int | 0 <= x < 256

  datatype Option<+T> = None | Some(value: T)

  datatype Result<+T, +E> = Success(value: T) | Failure(error: E)
}
