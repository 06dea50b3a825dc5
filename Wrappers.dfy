/** The optional-value type used for Redis replies that may be absent or refused. */
module Wrappers {

  datatype Option<+T> = None | Some(value: T)
}
