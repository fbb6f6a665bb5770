/** Failure-compatible wrappers shared by every module of the model.

    The modelled programs are Python and JavaScript: they report failure by raising
    an exception, which ends the operation. `Error` names the exceptions the modelled
    code can raise, and `Result` is the outcome of an operation that may raise. */
module Results {

  datatype Option<+T> = None | Some(value: T) {
    predicate IsFailure() {
      None?
    }

    function PropagateFailure<U>(): Option<U>
      requires None?
    {
      None
    }

    function Extract(): T
      requires Some?
    {
      value
    }
  }

  /** The exceptions raised by the modelled code. */
  datatype Error =
    | IndexError                  // a list or string index out of range
    | KeyError(key: string)       // a dictionary lookup of a missing key
    | ValueError                  // a failed `int()`/`float()` conversion or `str.index`
    | ZeroDivisionError           // `/`, `//` or `%` by zero
    | AssertionError              // a failing `assert`
    | UnboundLocalError(name: string) // a local read before any assignment
    | Raised(message: string)     // `raise Exception(message)`

  datatype Result<+T> = Ok(value: T) | Fail(error: Error) {
    predicate IsFailure() {
      Fail?
    }

    function PropagateFailure<U>(): Result<U>
      requires Fail?
    {
      Fail(error)
    }

    function Extract(): T
      requires Ok?
    {
      value
    }
  }

  /** Raises `error` unless `condition` holds, like a guard followed by `raise`. */
  function Require(condition: bool, error: Error): (r: Result<()>)
    ensures r.Ok? <==> condition
    ensures r.Fail? ==> r.error == error
  {
    if condition then Ok(()) else Fail(error)
  }

  /** A conversion that fails with `ValueError`, as Python's `float()` and `int()` do. */
  function Convert<T>(parse: string -> Option<T>, text: string): (r: Result<T>)
    ensures r.Ok? <==> parse(text).Some?
    ensures r.Ok? ==> r.value == parse(text).value
    ensures r.Fail? ==> r.error == ValueError
  {
    match parse(text)
    case Some(v) => Ok(v)
    case None => Fail(ValueError)
  }
}
