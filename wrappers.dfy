/** The optional value used for the auto-refresh handle, which the source keeps as `null` or a number. */
module Wrappers {
  datatype Option<T> = None | Some(value: T)
}
