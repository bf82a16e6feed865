/** The optional value used for "unreachable" distances and for the wildcard arguments of rule removal. */
module Wrappers {

  datatype Option<+T> = None | Some(value: T)
}
