/** Optional values, standing in for a DOM lookup that may find nothing and
    for a field that may hold `null`. */
module Wrappers {

  datatype Option<+T> = None | Some(value: T)
}
