/** Option and Result, the two wrappers the model uses for JavaScript's
    `null` returns and thrown errors. */
module Wrappers {

  /** `None` stands for JavaScript's `null` (or `NaN` for a parsed number). */
  datatype Option<+T> = None | Some(value: T) {
    function GetOr(fallback: T): T {
      match this
      case Some(v) => v
      case None => fallback
    }
  }

  /** `Failure` stands for an error the source throws. */
  datatype Result<+R, +E> = Success(value: R) | Failure(error: E)
}
