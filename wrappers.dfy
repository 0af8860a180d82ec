/** The optional value used for Python's `None`-or-value variables and for
    lookups that may fail. */
module Wrappers {

  datatype Option<+T> = None | Some(value: T)
}
