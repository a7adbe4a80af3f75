/** Optional values and fallible results, standing for JavaScript's `undefined` and thrown errors. */
module Wrappers {

  /** An optional field or a lookup that may find nothing (`undefined` / `null`). */
  datatype Option<+T> = None | Some(value: T) {
    function GetOr(default: T): T {
      match this
      case Some(v) => v
      case None => default
    }
  }

  /** The outcome of an operation that may throw; `Err` carries the thrown message. */
  datatype Result<+T> = Ok(value: T) | Err(message: string)
}
