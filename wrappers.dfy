/** Failure-carrying values: a Python call that either returns or raises. */
module Wrappers {

  datatype Option<+T> = None | Some(value: T)

  /** `Success(v)` is a normal return of `v`; `Failure(e)` is raising `e`. */
  datatype Result<+T, +E> = Success(value: T) | Failure(error: E)
}
