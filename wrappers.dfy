/** The optional value used for JavaScript's `null` / missing properties. */
module Wrappers {
  datatype Option<+T> = None | Some(value: T)
}
