/** Optional values and results-or-errors, used throughout the model. */
module Wrappers {

  /** A value that may be absent, like a JavaScript `undefined` lookup. */
  datatype Option<+T> = None | Some(value: T)

  /** Either a computed value or the exception the JavaScript code would throw. */
  datatype Result<+T, +E> = Success(value: T) | Failure(error: E)
}
