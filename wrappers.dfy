/** Option, the service's two error kinds and the Result every service call returns. */
module Wrappers {

  datatype Option<+T> = None | Some(value: T)

  /** A thrown error: a plain `Error` (answered with status 500) or a Boom not-found (status 404). */
  datatype Error = Plain(message: string) | NotFound(message: string)

  /** What an async service call settles to: a value, or the error it rejects with. */
  datatype Result<+T> = Ok(value: T) | Err(error: Error)

  /** `throw new Error(prefix + error.message)` inside a catch block. */
  function Wrap(prefix: string, e: Error): Error
  {
    Plain(prefix + e.message)
  }

  /** A wrapped error is always plain, whatever the inner kind was (a not-found loses its 404),
      and the inner message, prefixes included, survives intact after the new prefix. */
  lemma WrapKeepsMessage(prefix: string, e: Error)
    ensures Wrap(prefix, e).Plain?
    ensures |Wrap(prefix, e).message| == |prefix| + |e.message|
    ensures Wrap(prefix, e).message[..|prefix|] == prefix && Wrap(prefix, e).message[|prefix|..] == e.message
  {
  }

  /** `try { … } catch (error) { throw new Error(prefix + error.message) }` around a call that
      settled to `r`: a value passes through, an error is wrapped. */
  function Rethrow<T>(prefix: string, r: Result<T>): Result<T>
  {
    match r
    case Ok(_) => r
    case Err(e) => Err(Wrap(prefix, e))
  }
}
