/** The two result types the model uses for Go's (value, error) and (value, found) returns. */
module Wrappers {

  datatype Option<+T> = None | Some(value: T)

  /** A value, or the Code of the source's Error struct. */
  datatype Result<+T> = Ok(value: T) | Err(code: string) {
    predicate IsFailure() {
      Err?
    }

    function PropagateFailure<U>(): Result<U>
      requires Err?
    {
      Err(code)
    }

    function Extract(): T
      requires Ok?
    {
      value
    }
  }
}
