/** Rust's `Option`, as the few members of it the program uses. */
module Wrappers {

  datatype Option<+T> = None | Some(value: T) {

    /** `unwrap_or_default()` / `unwrap_or(default)` */
    function GetOr(default: T): T
    {
      match this
      case Some(v) => v
      case None => default
    }
  }
}
