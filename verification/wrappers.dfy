/** Absence and failure. A JavaScript value that may be `null` or `undefined`
    is an `Option`; a step that may throw yields a `Result`, whose failure
    carries the reason. */
module Wrappers {

  datatype Option<+T> = None | Some(value: T)

  datatype Result<+R, +E> = Success(value: R) | Failure(error: E)
}
