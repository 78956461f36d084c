/** Optional values and results with an error, the two shapes every
    dashboard operation returns. `None` stands for JavaScript's `undefined`
    (or `null`) wherever the model needs one. */
module Wrappers {

  datatype Option<+T> = None | Some(value: T) {

    /** The wrapped value, or `default` when there is none. */
    function GetOr(default: T): T
    {
      match this
      case Some(v) => v
      case None => default
    }
  }

  /** A computation that either produced a value or failed with an error;
      it replaces a synchronous `throw` of the source. */
  datatype Result<+T, +E> = Ok(value: T) | Err(error: E)
}
