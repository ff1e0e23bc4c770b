/** Optional values and error-carrying results, used wherever the source
    reads a key that may be missing or catches an exception. */
module Wrappers {

  datatype Option<+T> = None | Some(value: T) {
    function GetOr(default: T): T {
      match this
      case Some(v) => v
      case None => default
    }

    /** A missing value stops a `:-` chain. */
    predicate IsFailure() {
      None?
    }

    function PropagateFailure<U>(): Option<U> {
      None
    }

    function Extract(): T
      requires Some?
    {
      value
    }
  }

  datatype Result<+R> = Ok(value: R) | Err(message: string)
}
