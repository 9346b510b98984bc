/** The optional value the game code uses for level indices and the timer resource. */
module Wrappers {

  datatype Option<T> = None | Some(value: T) {

    /** The value inside Some, or `default` for None (Rust's `unwrap_or`). */
    function UnwrapOr(default: T): T {
      match this
      case Some(v) => v
      case None => default
    }
  }
}
