/** The one result type shared by the models. */
module Wrappers {

  /** A value that may be missing: a failed parse, an absent key, a null pointer. */
  datatype Option<+T> = None | Some(value: T)
}
