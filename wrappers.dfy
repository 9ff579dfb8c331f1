/** The optional value used where Python returns `None` or a value. */
module Wrappers {

  datatype Option<+T> = None | Some(value: T)
}
