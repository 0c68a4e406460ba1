/** The optional value used wherever the source calls `Array.find` and may get `undefined`. */
module Wrappers {

  datatype Option<+T> = None | Some(value: T)
}
