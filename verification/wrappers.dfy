/** Small failure-carrying datatypes shared by the frontend and backend models. */
module Wrappers {

  /** A value that may be absent (`null` / `undefined` / `None` in the source). */
  datatype Option<+T> = None | Some(value: T) {
    function GetOr(default: T): T {
      match this
      case Some(v) => v
      case None => default
    }
  }

  /** How one asynchronous request settled: a resolved promise, or a thrown error with its message. */
  datatype Settled = Fulfilled | Rejected(message: string)
}
