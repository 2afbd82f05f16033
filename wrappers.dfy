/** Optional values and error results, standing in for Ruby's `nil` and for
    the one error the deck can report. */
module Wrappers {

  datatype Option<+T> = None | Some(value: T)

  datatype Result<+T, +E> = Ok(value: T) | Err(error: E)
}
