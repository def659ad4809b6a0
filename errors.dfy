/**
 * The firmware's error codes, and the result wrappers used for its
 * `pbio_error_t` returns and for the exceptions the scripting layer raises.
 */
module PbioError {

  /** The error kinds the modelled code returns or raises. */
  datatype Error =
    | InvalidArg     // an argument out of range or of the wrong kind
    | InvalidPort    // a port outside the motor ports
    | NoDev          // no device, or the wrong one, on the port
    | NotSupported   // an element type this build cannot convert
    | NotImplemented // an element type the code does not know
    | Again          // the operation is still in progress
    | Io             // a driver-level failure
    | Failed         // any other failure

  /** A value that may be absent, such as a missing device info. */
  datatype Option<T> = None | Some(value: T)

  /** A value, or the error that took its place. */
  datatype Result<T> = Ok(value: T) | Err(error: Error)

  /** The bare `pbio_error_t` of a call that returns no value. */
  datatype Outcome = Success | Failure(error: Error)
}
