/** Optional values, results of operations that may throw, and what a
    JavaScript `catch` clause receives. */
module Wrappers {

  datatype Option<T> = None | Some(value: T)

  /** The outcome of a backend service call: the value it returns, or the
      message of the RuntimeException it throws. */
  datatype Result<T> = Ok(value: T) | Err(message: string)

  /** What a client-side `catch (error)` sees: an `Error` object with a
      message, or some other thrown value. */
  datatype Failure = ErrorWith(message: string) | NonError

  /** A network call made by a client store: it resolves with a value or rejects. */
  datatype Outcome<T> = Resolved(value: T) | Rejected(failure: Failure)

  /** `error instanceof Error ? error.message : fallback` */
  function MessageOf(f: Failure, fallback: string): (m: string)
    ensures f.ErrorWith? ==> m == f.message
    ensures f.NonError? ==> m == fallback
  {
    match f
    case ErrorWith(msg) => msg
    case NonError => fallback
  }
}
