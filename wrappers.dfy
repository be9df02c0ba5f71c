/** The optional value used for fields a record may lack and for a match that may not exist. */
module Wrappers {

  datatype Option<+T> = None | Some(value: T) {

    /** The value when there is one, else `default` (Python's `dict.get(key, default)`). */
    function GetOr(default: T): T
    {
      match this
      case Some(v) => v
      case None => default
    }
  }
}
