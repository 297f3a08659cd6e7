/** Optional values: a DOM attribute or link that may be absent (`null` in the page). */
module Wrappers {
  datatype Option<+T> = None | Some(value: T)
}
