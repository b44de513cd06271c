/** Failure-compatible wrappers shared by every module of the model. */
module Wrappers {

  /** An optional value: a nullable column, an absent request key. */
  datatype Option<T> = None | Some(value: T) {
    function GetOr(default: T): T {
      match this
      case Some(v) => v
      case None => default
    }
  }

  /** The outcome of an operation that may throw or answer with an error response. */
  datatype Result<T, E> = Ok(value: T) | Err(error: E)

  /** How a nullable request field arrived: not sent at all, sent as null, or sent with a value. */
  datatype Input<T> = Absent | Null | Given(value: T)
}
