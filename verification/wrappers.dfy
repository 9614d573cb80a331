/** The optional value that stands in for the source's nullable pointers. */
module Wrappers {

  /** `None` plays the role of `nullptr`; `Some(v)` of a non-null pointer to `v`. */
  datatype Option<+T> = None | Some(value: T)
}
