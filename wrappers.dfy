/** The optional value used for keys that may be absent from a record. */
module Wrappers {

  datatype Option<+T> = None | Some(value: T)
}
