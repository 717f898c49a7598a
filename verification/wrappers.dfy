/** Failure-carrying values used across the model: an optional value (a
    JavaScript `undefined`/`null` slot) and a success-or-error result. */
module Wrappers {

  datatype Option<+T> = None | Some(value: T)

  datatype Result<+R, +E> = Success(value: R) | Failure(error: E)
}
