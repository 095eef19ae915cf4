/** The optional value used for Go's nil: a missing error, a missing function record. */
module Wrappers {

  datatype Option<+T> = None | Some(value: T)
}
