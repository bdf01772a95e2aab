/** Small failure-carrying datatypes shared by every module. */
module Wrappers {

  datatype Option<+T> = None | Some(value: T)

  /** The outcome of an awaited `fetch`: an ok response carrying its parsed
      body, a response whose `ok` flag is false, or a thrown error. */
  datatype Fetch<+T> = Ok(data: T) | NotOk | Thrown

  /** A backend handler either returns a value or raises an HTTP error. */
  datatype Result<+T, +E> = Success(value: T) | Failure(error: E)

  /** JavaScript truthiness of a value that is either `null` or a string:
      `null` and `""` are falsy, every other string is truthy. */
  predicate Present(s: Option<string>) {
    s.Some? && s.value != ""
  }
}
