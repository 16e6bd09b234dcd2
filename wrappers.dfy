/** Option and Result, used for the places where the JavaScript code has
    `undefined`, a thrown error or an error response. */
module Wrappers {

  datatype Option<+T> = None | Some(value: T)

  datatype Result<+R, +E> = Success(value: R) | Failure(error: E)
}
