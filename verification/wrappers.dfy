/** A value that may be absent, such as a dictionary entry that was never set. */
module Wrappers {

  datatype Option<+T> = None | Some(value: T)
}
