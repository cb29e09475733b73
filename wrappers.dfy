/** Option and Result values standing for the nulls and exceptions of the library. */
module Wrappers {

  /** A value that may be absent; `None` stands for a null reference. */
  datatype Option<+T> = None | Some(value: T) {
    function GetOr(default: T): T
    {
      match this
      case Some(v) => v
      case None => default
    }
  }

  /** The exception kinds the modelled code throws. */
  datatype Error =
    | ArgumentNull         // ArgumentNullException
    | Argument             // ArgumentException
    | InvalidOperation     // InvalidOperationException
    | NotSupported         // NotSupportedException
    | NullReference        // a member access through a null reference
    | IndexOutOfRange      // an array index past the end
    | ArgumentOutOfRange   // ArgumentOutOfRangeException

  /** Either a value or the exception that was thrown instead. */
  datatype Result<+T> = Ok(value: T) | Err(error: Error)
}
