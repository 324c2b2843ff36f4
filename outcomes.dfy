/** Failure-compatible wrappers and the Python exception kinds the scraper raises. */
module Outcomes {

  datatype Option<+T> = None | Some(value: T)

  /** The exception classes that can leave the modelled code, with the message
      where the code sets one itself. */
  datatype Error =
    | OSError(msg: string)
    | ValueError(msg: string)
    | NotImplementedError
    | KeyError(key: string)
    | TypeError
    | NameError(name: string)
    | AttributeError
    | IndexError
    | StopIteration
    /** the `ValueError` that `int()` raises on text that is not a number */
    | InvalidLiteral(text: string)

  /** A value, or the exception raised while computing it. */
  datatype Result<+T> = Success(value: T) | Failure(error: Error) {

    predicate IsFailure() {
      Failure?
    }

    function PropagateFailure<U>(): Result<U>
      requires Failure?
    {
      Failure(error)
    }

    function Extract(): T
      requires Success?
    {
      value
    }
  }
}
