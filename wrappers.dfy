/** Option and Result values used for the source's `null`/`undefined` and its thrown errors. */
module Wrappers {

  datatype Option<+T> = None | Some(value: T) {
    function GetOr(default: T): T {
      match this
      case Some(v) => v
      case None => default
    }
  }

  /** A settled promise or a call that may throw: `Failure` carries the error message. */
  datatype Result<+R> = Success(value: R) | Failure(error: string)

  /** A settled promise with no value of interest. */
  datatype Outcome = Pass | Fail(error: string)

  /** JavaScript truthiness of an optional number: present and not zero. */
  predicate TruthyNumber(n: Option<int>) {
    n.Some? && n.value != 0
  }
}
