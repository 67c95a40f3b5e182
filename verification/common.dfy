/** Values shared by every part of the model: optional values, the outcome of
    a call that may throw, and the signed-in user as the auth layer reports it. */
module Common {

  /** A value that may be absent (`undefined` / `null` in the site's code). */
  datatype Option<+T> = None | Some(value: T)

  /** Why an operation threw. `Backend` stands for any error object returned by
      the hosted backend; its text is never inspected by the site. */
  datatype Error =
    | NotAuthenticated
    | InvalidFileUrl
    | Backend(message: string)

  /** The outcome of an operation that either returns a value or throws. */
  datatype Result<+T> = Ok(value: T) | Err(error: Error)

  /** A state change made by an operation together with what the operation
      returned or threw. */
  datatype Outcome<+S, +T> = Outcome(state: S, result: Result<T>)

  /** `x || ''` for an optional string. */
  function OrEmpty(x: Option<string>): string
  {
    if x.Some? then x.value else ""
  }

  /** The signed-in user; only the id is ever read. */
  datatype User = User(id: string)
}
