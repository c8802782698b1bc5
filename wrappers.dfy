/** Small failure-compatible datatypes shared by every module. */
module Wrappers {

  /** A value that may be absent: the model of a nullable or optional field. */
  datatype Option<+T> = None | Some(value: T) {

    function GetOr(default: T): T {
      match this
      case Some(v) => v
      case None => default
    }
  }

  /** The `{ data, error }` pair of a store call: exactly one of the two is set. */
  datatype Result<+T, +E> = Success(value: T) | Failure(error: E)

  /** A TypeScript function that either returns a value or throws an `Error`. */
  datatype Outcome<+T> = Return(value: T) | Throw(message: string)
}
