/** Option and Result: the gateway's nullable values and its thrown-or-returned outcomes. */
module Wrappers {

  /** A value that may be absent, standing for a C# reference or nullable value that may be null. */
  datatype Option<+T> = None | Some(value: T) {

    /** The value, or the given default when absent. */
    function GetOr(default: T): T {
      match this
      case Some(v) => v
      case None => default
    }
  }

  /** Either a value or the error that stopped the computation (an exception in the C# code). */
  datatype Result<+R, +E> = Success(value: R) | Failure(error: E)
}
