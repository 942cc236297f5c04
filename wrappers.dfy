/** Optional values and fallible results.

    The server's `Res<T>` is `Result<T, Box<dyn Error>>`; the only thing the
    program ever does with an error is display it, so an error is modelled by its
    display text. */
module Wrappers {

  datatype Option<+T> = None | Some(value: T) {
    function GetOr(default: T): T {
      match this
      case Some(v) => v
      case None => default
    }
  }

  datatype Result<+T> = Ok(value: T) | Err(error: string) {
    predicate IsFailure() {
      Err?
    }

    function PropagateFailure<U>(): Result<U>
      requires Err?
    {
      Err(error)
    }

    function Extract(): T
      requires Ok?
    {
      value
    }
  }

  /** `Option::ok_or(msg)` followed by `?`. */
  function OkOr<T>(o: Option<T>, msg: string): Result<T> {
    match o
    case Some(v) => Ok(v)
    case None => Err(msg)
  }
}
