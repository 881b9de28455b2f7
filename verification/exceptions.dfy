/** The Python exceptions raised or propagated by the modelled services,
    and the `Result` type that every fallible operation returns in place of
    raising. A `Raise` value means "this exception escapes the call". */
module Exceptions {

  /** The exception classes that occur in the modelled code. `message` is the
      argument the exception was constructed with. */
  datatype Exception =
    | ValueError(message: string)
    | KeyError(message: string)
    | FileNotFoundError(message: string)
    | UnicodeDecodeError(message: string)
    | LangDetectException(message: string)
    | IntegrityError(message: string)
    | AttributeError(message: string)
    /** Any other exception escaping a library call (network, database, I/O). */
    | OtherError(message: string)

  /** Either the value a call returns or the exception that escapes it. */
  datatype Result<+T> = Ok(value: T) | Raise(exception: Exception) {

    predicate IsFailure() {
      Raise?
    }

    function PropagateFailure<U>(): Result<U>
      requires Raise?
    {
      Raise(exception)
    }

    function Extract(): T
      requires Ok?
    {
      value
    }
  }

  /** Python's `None` or a present value. */
  datatype Option<+T> = None | Some(value: T)
}
