/** Types shared by every module: optional values, results, the error type and bytes. */
module Basics {

  datatype Option<+T> = None | Some(value: T)

  /** Every failure mode of the program (crates/wcm-core/src/error.rs). */
  datatype Error =
    | NotFound(msg: string)
    | AlreadyExists(msg: string)
    | NotInitialized(msg: string)
    | AuthCancelled
    | AuthUnavailable(msg: string)
    | Integrity(msg: string)
    | Locked
    | Io(msg: string)
    | Helper(msg: string)
    | Format(msg: string)
    | Invalid(msg: string)
    | Other(msg: string)
  {
    /** The text shown to the user; the Hello backend searches it for HRESULTs. */
    function Display(): string {
      match this
      case NotFound(m) => "item not found: " + m
      case AlreadyExists(m) => "item already exists: " + m
      case NotInitialized(m) => "vault not initialized at " + m
      case AuthCancelled => "authentication cancelled"
      case AuthUnavailable(m) => "authentication unavailable: " + m
      case Integrity(m) => "vault integrity error: " + m
      case Locked => "vault locked or modified concurrently"
      case Io(m) => "i/o error: " + m
      case Helper(m) => "helper failed: " + m
      case Format(m) => "import/export format error: " + m
      case Invalid(m) => "invalid input: " + m
      case Other(m) => m
    }
  }

  datatype Result<+T> = Ok(value: T) | Err(error: Error) {
    predicate IsFailure() { Err? }

    function PropagateFailure<U>(): Result<U>
      requires Err?
    {
      Err(error)
    }

    function Extract(): T
      requires Ok?
    {
      value
    }
  }

  type Byte = b: int | 0 <= b < 256
  type Bytes = seq<Byte>
}
