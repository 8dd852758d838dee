/** The optional-value type used wherever the dashboard shows an undefined number. */
module Wrappers {
  datatype Option<+T> = None | Some(value: T)
}
