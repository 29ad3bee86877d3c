/** Optional values and the outcome of a call that may throw.

    JavaScript's `null`/`undefined` become `None`; a rejected promise or a
    thrown exception becomes `Throws` carrying the exception's message. */
module Outcomes {

  datatype Option<+T> = None | Some(value: T) {

    /** The value, or `default` when absent (JavaScript's `x ?? default`). */
    function GetOr(default: T): T {
      match this
      case Some(v) => v
      case None => default
    }
  }

  /** What an awaited call did: resolved with a value, or threw with a message. */
  datatype Attempt<+T> = Ok(value: T) | Throws(message: string)

  /** JavaScript's `s || fallback` for a string: the empty string is falsy. */
  function OrElse(s: string, fallback: string): (r: string)
    ensures s != "" ==> r == s
    ensures s == "" ==> r == fallback
  {
    if s != "" then s else fallback
  }
}
