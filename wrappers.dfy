/** A small shared value type: an optional value. */
module Wrappers {

  datatype Option<+T> = None | Some(value: T)
}
