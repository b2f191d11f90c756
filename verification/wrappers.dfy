/** An optional value: `None` where the source has no value or gives up. */
module Wrappers {

  datatype Option<T> = None | Some(value: T)
}
