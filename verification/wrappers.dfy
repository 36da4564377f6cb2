/** Option and Result types shared by every module of the model.

    The recipes signal failure by raising Python or Conan exceptions; the model
    returns them as an `Err` carrying the exception kind, so that every error path
    of the source is an ordinary value here.
 */
module Wrappers {

  datatype Option<+T> = None | Some(value: T) {
    function GetOr(default: T): T {
      match this
      case Some(v) => v
      case None => default
    }
  }

  /** The exceptions the modelled code can raise. */
  datatype PyError =
    | TypeError               // `in` on a number, or indexing a str or list with a str
    | AttributeError          // `.replace`/`.items` on a value of the wrong JSON type
    | KeyError(key: string)   // dict lookup of a missing key
    | IndexError              // `[0]` on an empty str or list
    | InvalidConfiguration(message: string)
    | ConanError(message: string)

  datatype Result<+T> = Ok(value: T) | Err(error: PyError) {
    predicate IsFailure() {
      Err?
    }

    function PropagateFailure<U>(): Result<U>
      requires Err?
    {
      Err(error)
    }

    function Extract(): T
      requires Ok?
    {
      value
    }
  }
}
