/** Error taxonomy of the network and the two wrappers the operations return:
    `Option` stands for a C# reference that may be null, `Result` for a call
    that either returns a value or throws one of the exceptions below. */
module Errors {

  /** The exceptions a network operation can raise. */
  datatype Error =
    | NotInitialized                          // NonInitializedNeuralNetworkException
    | NullArg                                 // NullReferenceException on a null argument
    | InvalidInput(given: int, required: int) // InvalidInputException and its two counts
    | IndexOutOfRange                         // IndexOutOfRangeException (legacy guards only)
    | Overflow                                // OverflowException: array of negative size

  /** A possibly-null reference. */
  datatype Option<+T> = None | Some(value: T)
  {
    /** The referenced value, or `default` when null. */
    function GetOr(default: T): T
    {
      match this
      case Some(v) => v
      case None => default
    }
  }

  /** Either the value an operation returns or the exception it throws. */
  datatype Result<+T> = Ok(value: T) | Err(error: Error)
}
