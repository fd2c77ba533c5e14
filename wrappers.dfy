/** The optional value used for the request's `state` field and for the
    at-most-one event an invocation emits. */
module Wrappers {
  datatype Option<+T> = None | Some(value: T)
}
