/** The optional value used where the source passes `undefined`. */
module Wrappers {

  datatype Option<+T> = None | Some(value: T)
}
