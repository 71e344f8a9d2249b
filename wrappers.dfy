/** The optional value used for JavaScript's `undefined` fields and for
    "not found" results. */
module Wrappers {

  datatype Option<+T> = None | Some(value: T)
}
