/** The optional value the Python code writes as `None` or a value. */
module Wrappers {
  datatype Option<+T> = None | Some(value: T)
  {
    /** `d.get(key, default)` once the lookup is done. */
    function GetOr(default: T): T
    {
      match this
      case None => default
      case Some(v) => v
    }
  }
}
