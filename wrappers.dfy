/** Option and outcome types shared by the whole model. */
module Wrappers {

  /** A value that may be absent (Python's `None`); usable with `:-`. */
  datatype Option<+T> = None | Some(value: T) {
    predicate IsFailure() {
      None?
    }

    function PropagateFailure<U>(): Option<U>
      requires None?
    {
      None
    }

    function Extract(): T
      requires Some?
    {
      value
    }
  }

  /** The outcome of an operation that can raise: `Fail` carries the exception text. */
  datatype Outcome = Pass | Fail(error: string)
}
