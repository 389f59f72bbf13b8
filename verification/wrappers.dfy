/** Optional values, used wherever the modelled code can produce "nothing" or fail. */
module Wrappers {

  /** The conventional Some/None datatype, standing for JavaScript's undefined result,
      Python's None, or an exception that the caller does not catch. */
  datatype Option<+T> = None | Some(value: T) {

    /** Returns the value encapsulated in Some or a default value if None */
    function GetOr(default: T): T {
      match this
      case Some(v) => v
      case None => default
    }
  }
}
