/** Success/failure values, and the JavaScript exceptions the publisher can raise. */
module Wrappers {

  datatype Option<T> = None | Some(value: T)

  /** The exceptions that reach a caller of the publisher, by kind. */
  datatype JsError =
    | TypeError(message: string)        // a property read on `undefined`
    | ReferenceError(identifier: string) // a read of an undeclared variable
    | ModuleNotFound(path: string)      // `require` of a file that is not there

  /** A value, or the exception that was thrown instead of returning it. */
  datatype Result<T> = Success(value: T) | Failure(error: JsError)

  /** A call that returns nothing: it completed, or threw. */
  datatype Outcome = Pass | Fail(error: JsError)
}
