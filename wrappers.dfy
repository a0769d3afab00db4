/** Optional values: a JSON field that is present (Some) or absent (None). */
module Wrappers {

  datatype Option<+T> = None | Some(value: T)
}
