/** The nullable-value type shared by every module: a SQL column that may be
    NULL, a request field that may be absent. */
module Wrappers {

  datatype Option<+T> = None | Some(value: T) {
    function GetOr(default: T): T
    {
      if Some? then value else default
    }

    /** This value when present, otherwise `other`: a field of an update
        body overriding the stored column. */
    function Or(other: Option<T>): Option<T>
    {
      if Some? then this else other
    }
  }
}
