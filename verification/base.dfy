/** Shared result shapes: JavaScript's `undefined`/`null`, thrown errors and backend replies. */
module Base {

  /** A value that may be absent (`undefined` or `null` in the source). */
  datatype Option<T> = None | Some(value: T)
  {
    predicate IsSome() { this.Some? }

    function GetOr(default: T): (r: T)
      ensures this.Some? ==> r == value
      ensures this.None? ==> r == default
    {
      match this
      case None => default
      case Some(v) => v
    }
  }

  /** The outcome of an operation that either returns a value or throws with a message. */
  datatype Result<T> = Ok(value: T) | Err(msg: string)

  /**
   * What a backend query hands back: a row, the "no rows" answer
   * (PostgREST code PGRST116, an empty `maybeSingle`), or any other error.
   */
  datatype Fetch<T> = Found(row: T) | NotFound | Failed(msg: string)
}
