/** The optional value used for "file not found" and for JSON keys that may be absent. */
module Wrappers {

  datatype Option<+T> = None | Some(value: T)
}
