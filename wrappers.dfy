/** The optional value used for a cookie that may or may not be sent. */
module Wrappers {

  datatype Option<+T> = None | Some(value: T)
}
