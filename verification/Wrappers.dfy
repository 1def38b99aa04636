/** The two failure-carrying shapes the other modules share. */
module Wrappers {
  datatype Option<+T> = None | Some(value: T)
}
