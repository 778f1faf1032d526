/** The optional value used wherever the handler sees `null` or `undefined`. */
module Wrappers {

  datatype Option<+T> = None | Some(value: T)
}
