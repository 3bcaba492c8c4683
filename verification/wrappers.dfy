/** Failure-carrying results shared by the whole model.

    The C++ code reports failure in three ways: `Die` (print and exit), a
    thrown exception, and a stream's failbit.  All of them become the `Err`
    case of `Result`, carrying the message the C++ code prints or throws. */
module Wrappers {

  /** What athabasca_assert and bonelab_assert throw. */
  const AssertionMessage: string := "Assertion failure"

  datatype Option<+T> = None | Some(value: T) {
    predicate IsFailure() { None? }

    function PropagateFailure<U>(): Option<U>
      requires None?
    {
      None
    }

    function Extract(): T
      requires Some?
    {
      value
    }
  }

  datatype Result<+T> = Ok(value: T) | Err(msg: string) {
    predicate IsFailure() { Err? }

    function PropagateFailure<U>(): Result<U>
      requires Err?
    {
      Err(msg)
    }

    function Extract(): T
      requires Ok?
    {
      value
    }
  }

  /** The state a member leaves behind, and the error it raised, if any:
      a C++ member that throws part way keeps the changes it made before
      the throw. */
  datatype Attempt<T> = Attempt(after: T, error: Option<string>)
}
