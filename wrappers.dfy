/** Small failure-carrying datatypes shared by the other modules. */
module Wrappers {

  /** A value that may be absent, standing for Python's `None`. */
  datatype Option<+T> = None | Some(value: T) {

    /** The carried value, or `default` when absent (`dict.get(key, default)`). */
    function GetOr(default: T): T {
      match this
      case Some(v) => v
      case None => default
    }
  }

  /** Either a value or the reason no value could be produced. */
  datatype Result<+T, +E> = Ok(value: T) | Err(error: E)
}
