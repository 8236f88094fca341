/** Option and Result, standing for JavaScript's `undefined` and for thrown errors. */
module Wrappers {

  /** `None` plays the part of JavaScript's `undefined` (or `null`). */
  datatype Option<+T> = None | Some(value: T)

  /** `Failure` carries the value a JavaScript function would throw. */
  datatype Result<+R, +E> = Success(value: R) | Failure(error: E)
}
