/** Optional values, used where the store answers "no such thing" with null. */
module Wrappers {

  datatype Option<T> = None | Some(value: T)

}
