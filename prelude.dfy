/** The two wrappers the Rust code relies on: `Option` for absence and
    `Result` for failure. */
module Prelude {

  datatype Option<+T> = None | Some(value: T) {

    /** Rust's `unwrap_or`: the carried value, or `default` when absent. */
    function GetOr(default: T): T {
      if Some? then value else default
    }
  }

  datatype Result<+T, +E> = Ok(value: T) | Err(error: E)
}
