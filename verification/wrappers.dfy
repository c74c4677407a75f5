/** The optional-value datatype used for lookups that may find nothing and
    for operations that may raise in the modelled program. */
module Wrappers {
  datatype Option<+T> = None | Some(value: T)
}
