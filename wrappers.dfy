/** The optional value used for item names that may be absent. */
module Wrappers {

  datatype Option<+T> = None | Some(value: T)
}
