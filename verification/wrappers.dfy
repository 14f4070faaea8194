/** Nullable values and success/failure outcomes of the ledger model. */
module Wrappers {

  /** A Java reference that may be null: `None` is null. */
  datatype Option<+T> = None | Some(value: T) {

    /** The wrapped value, or `default` when null. */
    function GetOr(default: T): T {
      match this
      case Some(v) => v
      case None => default
    }
  }

  /** The outcome of a service call: the new value, or the error the call raised. */
  datatype Result<+T, +E> = Success(value: T) | Failure(error: E)
}
