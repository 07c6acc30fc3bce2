/** Stock optional-value type used for every host call that can fail. */
module Wrappers {
  datatype Option<+T> = None | Some(value: T)
}
