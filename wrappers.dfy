/** The optional value used for lookups, config paths and fallible reads. */
module Wrappers {

  datatype Option<+T> = None | Some(value: T)
}
