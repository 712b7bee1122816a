/** Error values and result wrappers shared by the adapter model. */
module Outcomes {

  datatype Option<T> = None | Some(value: T)

  /** The exceptions the adapter can raise, one per distinct throw site. */
  datatype Error =
    | ZeroResize                 // "You can not resize to 0x0"
    | ZeroCrop                   // "You can not crop to 0x0"
    | DivisionByZero             // PHP's `/` with a zero divisor
    | UnknownRotation            // "Unknown rotation given"
    | CanvasFailed               // "Failed to create new canvas"
    | CannotSave(format: string) // "Can not save image format ..."

  /** A computed value or the exception that replaced it. */
  datatype Result<T> = Ok(value: T) | Fail(error: Error)

  /** How a state-changing operation ended: it returned `$this`, or it threw. */
  datatype Outcome = Success | Failure(error: Error)
}
