/** Small datatypes for PHP values used across the model. PHP's `null` becomes
    `None`, a thrown exception becomes `Failure`/`Fail` carrying its message,
    and an `int|string` value is an `ArrayKey`. */
module Wrappers {

  datatype Option<+T> = None | Some(value: T) {
    /** The value, or `default` when there is none (PHP's `??` operator). */
    function GetOr(default: T): T {
      match this
      case Some(v) => v
      case None => default
    }
  }

  /** The outcome of an operation that returns a value or throws. */
  datatype Result<+R, +E> = Success(value: R) | Failure(error: E)

  /** The outcome of an operation that returns nothing or throws. */
  datatype Outcome<+E> = Pass | Fail(error: E)

  /** PHP `int|string`: an array key, or a tenant key. */
  datatype ArrayKey = StrKey(s: string) | IntKey(i: int)
}
