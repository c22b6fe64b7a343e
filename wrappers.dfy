/** Optional values (Kotlin's nullable types) and success/failure outcomes. */
module Wrappers {

  /** A Kotlin `T?`: either absent (`null`) or present. */
  datatype Option<+T> = None | Some(value: T) {
    function GetOr(default: T): T {
      match this
      case Some(v) => v
      case None => default
    }
  }

  /** The outcome of a remote call: a value on success, or the exception
      thrown, by its message (which Kotlin allows to be `null`). */
  datatype Result<+R> = Success(value: R) | Failure(message: Option<string>)

  /** A nullable string inside a Kotlin string template: `null` prints as "null". */
  function Template(m: Option<string>): string {
    m.GetOr("null")
  }
}
