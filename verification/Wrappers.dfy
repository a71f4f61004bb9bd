/** The result of what may be missing or may not be possible. */
module Wrappers {

  datatype Option<+T> = None | Some(value: T)
}
