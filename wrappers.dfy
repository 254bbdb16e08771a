/** Failure-compatible wrappers shared by every module of the model: a
    nullable value (`std::optional`, C# `T?`) and the outcome of an
    operation that can throw. */
module Wrappers {

  datatype Option<+T> = None | Some(value: T) {
    function GetOr(default: T): T {
      match this
      case Some(v) => v
      case None => default
    }
  }

  /** An exception the C# code throws, named after its .NET type. */
  datatype Error = ArgumentOutOfRange | InvalidOperation | IndexOutOfRange | NullReference | ArgumentNull

  datatype Result<+T> = Ok(value: T) | Fail(error: Error)

  /** The outcome of a `void` operation that can throw. */
  datatype Outcome = Pass | Throw(error: Error)
}
