/** The optional value used for JavaScript's `null` fields and lookups. */
module Wrappers {

  datatype Option<+T> = None | Some(value: T)
}
