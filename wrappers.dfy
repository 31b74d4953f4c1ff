/** Failure-compatible result types and the exception kinds the money-spender core throws. */
module Wrappers {

  /** A value that may be absent; stands for a Java reference that may be null. */
  datatype Option<+T> = None | Some(value: T)

  /** The outcome of an operation that either returns a value or throws. */
  datatype Result<+T, +E> = Ok(value: T) | Err(error: E) {
    predicate IsFailure() { Err? }

    function PropagateFailure<U>(): Result<U, E>
      requires Err?
    {
      Err(error)
    }

    function Extract(): T
      requires Ok?
    {
      value
    }
  }

  /** The outcome of an operation that returns nothing or throws. */
  datatype Outcome<+E> = Pass | Fail(error: E)

  /**
   * The exceptions the core raises. `NumberFormat` is a subclass of `IllegalArgument`
   * in Java, but callers catch it first, so the two are kept apart here.
   */
  datatype Error =
    | IllegalArgument(message: string)
    | NumberFormat(message: string)
    | NullPointer
}
