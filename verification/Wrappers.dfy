/** Result types for the source's optional values and raised errors, and the smaller of two counts. */
module Wrappers {

  function Min(a: nat, b: nat): nat { if a < b then a else b }

  datatype Option<+T> = None | Some(value: T)

  datatype Result<+T, +E> = Success(value: T) | Failure(error: E)
}
