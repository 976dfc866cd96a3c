/** Shared vocabulary of the model: optional values, results with an error
    side, and the document identifiers the store hands out. */
module Common {

  /** A document identifier (a Mongo ObjectId); only equality matters. */
  type Id = nat

  /** A value that may be absent (an unset or `null` document field). */
  datatype Option<+T> = None | Some(value: T) {

    /** The carried value, or `default` when absent. */
    function GetOr(default: T): T {
      match this
      case Some(v) => v
      case None => default
    }
  }

  /** The outcome of an operation that can fail with an error of type `E`. */
  datatype Result<+R, +E> = Success(value: R) | Failure(error: E)
}
