// Option and Result, the two wrappers the model uses for Kotlin's nullable
// values and for the exceptions the source throws.
module Wrappers {

  datatype Option<+T> = None | Some(value: T) {
    function GetOr(default: T): T {
      match this
      case Some(v) => v
      case None => default
    }
  }

  /** The exceptions of the source that the model keeps as values. */
  datatype Error =
    | InvalidMove     // IllegalArgumentException thrown by `require(canApply(move))`
    | IllegalState    // IllegalStateException thrown by `check(!isGameOngoing())`
    | TimeUp          // the search's private TimeUpException
    | NoBestChild     // the NullPointerException of `root.bestChild!!`
    | DivisionByZero  // the ArithmeticException of a `Long` division by zero

  datatype Result<+T> = Success(value: T) | Failure(error: Error)
}
