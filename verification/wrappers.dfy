/**
 * The optional value used throughout the model for JavaScript's `undefined` /
 * `null`, and the outcome of an operation that can fail with a message.
 */
module Wrappers {

  datatype Option<+T> = None | Some(value: T) {

    /** The value, or `default` when absent (JavaScript's `x ?? default`). */
    function GetOr(default: T): T
    {
      match this
      case Some(v) => v
      case None => default
    }
  }

  /** `m[k]` on a JavaScript object used as a map: `None` stands for a missing key. */
  function Get<K, V>(m: map<K, V>, k: K): (r: Option<V>)
    ensures r.Some? <==> k in m
    ensures r.Some? ==> r.value == m[k]
  {
    if k in m then Some(m[k]) else None
  }

  /** A value, or the message of the error thrown (or the promise rejected) in its place. */
  datatype Result<+T> = Success(value: T) | Failure(error: string)
}
