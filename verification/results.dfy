/** Result shapes shared by every module of the model.

    Python signals failure in two ways in this program: a function either
    returns `None`, or raises an exception that some caller catches.  The
    first is `Option`, the second `Try`; keeping them apart lets a contract
    say which of the two a given input leads to.  Both can be used with
    `:-`, which reads like the Python code it models: the first failing
    step decides the result. */
module Results {

  /** A Python value that may be `None`. */
  datatype Option<+T> = None | Some(value: T) {

    predicate IsFailure() {
      None?
    }

    function PropagateFailure<U>(): Option<U>
      requires None?
    {
      None
    }

    function Extract(): T
      requires Some?
    {
      value
    }
  }

  /** The outcome of a Python call: it returned a value or raised. The kind
      of exception is not needed anywhere in the model: every handler in the
      program catches `Exception` as a whole. */
  datatype Try<+T> = Returned(value: T) | Raised {

    predicate IsFailure() {
      Raised?
    }

    function PropagateFailure<U>(): Try<U>
      requires Raised?
    {
      Raised
    }

    function Extract(): T
      requires Returned?
    {
      value
    }
  }
}
