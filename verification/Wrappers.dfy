/** The optional value, for the source's nil results and missing entries. */
module Wrappers {

  datatype Option<+T> = None | Some(value: T)
}
