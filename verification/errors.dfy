/**
  The exceptions the engine can raise, and a failure-carrying result type.

  The C# code signals misuse by throwing; the model returns `Err` instead, so
  the error paths are part of every contract rather than excluded by
  preconditions.
 */
module Errors {

  /** The exception classes the modelled code raises. */
  datatype Error =
    | ArgumentError      // System.ArgumentException, including a list's ArgumentOutOfRangeException
    | IndexOutOfRange    // IndexOutOfRangeException: an array index outside the array
    | Overflow           // OverflowException: allocating an array of negative size

  datatype Result<+T> = Ok(value: T) | Err(error: Error)
}
