/** A value that may be missing: JavaScript's `undefined` where a property or
    variable has never been assigned. */
module Wrappers {

  datatype Option<+T> = None | Some(value: T)
}
