/** The Option datatype: an unset tic time, an empty minimum, a mutex nobody owns. */
module Wrappers {
  datatype Option<+T> = None | Some(value: T)
}
