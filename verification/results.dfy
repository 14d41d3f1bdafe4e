/** Failure-aware wrappers shared by every module of the model.

  `Result` stands for a Python call that either returns a value or raises an
  exception that is not caught; the error text names the exception.
*/
module Results {

  /** A value that may be absent (a failed lookup, a column that is not there). */
  datatype Option<+T> = None | Some(value: T)

  /** Either a value, or the text of the exception the source would raise. */
  datatype Result<+T> = Ok(value: T) | Err(error: string) {

    predicate IsFailure() {
      Err?
    }

    function PropagateFailure<U>(): Result<U>
      requires Err?
    {
      Err(error)
    }

    function Extract(): T
      requires Ok?
    {
      value
    }
  }

  /** The message of the `KeyError` pandas raises for an absent column or key. */
  function KeyError(name: string): string {
    "KeyError: '" + name + "'"
  }
}
