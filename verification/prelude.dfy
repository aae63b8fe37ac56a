/** Shared wrapper types. A Python value that may be missing (a dict key
    that is absent, a DataFrame column that is not there, a cell that is
    None) is an `Option`. */
module Prelude {

  datatype Option<+T> = None | Some(value: T) {

    /** `d.get(key, default)`: the value, or the default when missing. */
    function GetOr(default: T): T {
      match this
      case Some(v) => v
      case None => default
    }
  }

  /** `d.get(key, 0)` on a dict of numbers: the value, or 0 when the key is absent. */
  function GetOrZero(d: map<string, real>, key: string): real {
    if key in d then d[key] else 0.0
  }

  /** A call that either returns a value or raises with a message. */
  datatype Outcome<+T> = Ok(value: T) | Raised(message: string)
}
