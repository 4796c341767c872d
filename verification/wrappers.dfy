/** Option and Result, and the three states a key of a JSON record can be in. */
module Wrappers {

  datatype Option<+T> = None | Some(value: T)

  datatype Result<+T, +E> = Ok(value: T) | Err(error: E)

  /** A key of a record read from the database: missing, present with a JSON
      null, or present with a value. */
  datatype Field<+T> = Absent | Null | Present(value: T) {

    /** Python's `record.get(key, default)`: a missing key gives the default,
        a null gives None. */
    function Get(default: T): Option<T>
    {
      match this
      case Absent => Some(default)
      case Null => None
      case Present(v) => Some(v)
    }
  }
}
