/** What may be missing: a null pointer, a failed allocation, a lock nobody holds. */
module Wrappers {
  datatype Option<T> = None | Some(value: T)
}
