/** An optional value: the state after a run, or None when an event cannot occur. */
module Wrappers {

  /** A value that may be absent. */
  datatype Option<+T> = None | Some(value: T)
}
