/** The optional value used wherever the source returns `null` or reads a
    property that may be `undefined`. */
module Wrappers {

  datatype Option<+T> = None | Some(value: T)
}
