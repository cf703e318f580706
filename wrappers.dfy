/** A value that may be missing: a failed fetch, a cart line that is not there, a request that was never built. */
module Wrappers {

  datatype Option<+T> = None | Some(value: T)
}
