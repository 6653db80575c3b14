/** Optional values and Python exceptions, as plain datatypes. */
module Wrappers {

  /** Python's `None` versus a present value. */
  datatype Option<+T> = None | Some(value: T) {
    function GetOr(default: T): T {
      match this
      case Some(v) => v
      case None => default
    }
  }

  /** The exception kinds the modelled code can raise. */
  datatype PyError =
    | ValueError     // int() of a segment that is not an integer literal
    | TypeError      // dict.update with an argument that is not a dict
    | AttributeError // .get or .update on something that is not a dict

  /** The normal outcome of a call, or the exception it raises. */
  datatype Result<+T> = Ok(value: T) | Raised(error: PyError)
}
