/** The optional value used wherever Python returns `None` or a value. */
module Wrappers {

  datatype Option<+T> = None | Some(value: T)
}
