/** The Option datatype used for every provider call that may raise and for
    every Python function that returns None on failure. */
module Wrappers {
  datatype Option<+T> = None | Some(value: T)
}
