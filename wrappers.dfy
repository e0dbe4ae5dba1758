/** The one optional-value type the explorer model needs. */
module Wrappers {
  datatype Option<+T> = None | Some(value: T)
}
