/** Failure-carrying values used wherever the system catches an exception:
    `Option` for a call whose failure carries nothing the caller keeps, and
    `Result` for a call whose failure is turned into a typed error. */
module Wrappers {

  datatype Option<+T> = None | Some(value: T) {

    /** The carried value, or `default` when there is none (the shape of every
        "try the service, else use the canned text" choice in the system). */
    function GetOr(default: T): (r: T)
      ensures Some? ==> r == value
      ensures None? ==> r == default
    {
      match this
      case Some(v) => v
      case None => default
    }
  }

  datatype Result<+R, +E> = Success(value: R) | Failure(error: E)
}
