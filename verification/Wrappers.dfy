/** Optional values, and results that fail with the source's `SubjectTokenError`. */
module Wrappers {

  datatype Option<+T> = None | Some(value: T)

  /** The role the value was meant to play in a subject or key, and the value itself, unmodified. */
  datatype TokenError = TokenError(role: string, value: string)

  datatype Result<+T> = Ok(value: T) | Err(error: TokenError) {
    predicate IsFailure() {
      Err?
    }

    function PropagateFailure<U>(): Result<U>
      requires Err?
    {
      Err(error)
    }

    function Extract(): T
      requires Ok?
    {
      value
    }
  }
}
