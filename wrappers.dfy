/** Optional values and fallible results, standing for JavaScript's
    `undefined`/`null` and for thrown errors or rejected promises. */
module Wrappers {

  datatype Option<+T> = None | Some(value: T) {
    /** `x ?? default` */
    function GetOr(default: T): T {
      match this
      case Some(v) => v
      case None => default
    }
  }

  /** A call that either returns a value or throws an error with a message. */
  datatype Result<+T> = Success(value: T) | Failure(error: string)
}
