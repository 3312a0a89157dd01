/** Optional values and the failures of the topology editor.

    A failure is named after the Python exception the editor raises at that
    point; nothing in the editor catches one, so a failure ends the run. */
module Outcomes {

  datatype Option<T> = None | Some(value: T)

  /** The exception a step of the editor raises. `NameError` stands for the
      UnboundLocalError of reading `id_mapping` before it was assigned. */
  datatype Exception =
    | KeyError
    | TypeError
    | ValueError
    | IndexError
    | ZeroDivisionError
    | NameError

  datatype Result<T> = Ok(value: T) | Err(error: Exception) {

    predicate IsFailure() {
      Err?
    }

    function PropagateFailure<U>(): Result<U>
      requires Err?
    {
      Err(error)
    }

    function Extract(): T
      requires Ok?
    {
      value
    }
  }
}
