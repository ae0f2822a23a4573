/** A value that may be absent: a missing HTTP header, a user that a lookup did not find. */
module Wrappers {
  datatype Option<+T> = None | Some(value: T)
}
