/** The optional value used for JavaScript's `null` and for `NaN` results. */
module Wrappers {

  datatype Option<+T> = None | Some(value: T)
}
