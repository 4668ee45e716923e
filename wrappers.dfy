/** The optional value used for a JSON field that may be missing and for a parse that may fail. */
module Wrappers {

  datatype Option<+T> = None | Some(value: T)
}
