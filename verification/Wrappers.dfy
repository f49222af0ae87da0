// Optional values, used for nullable columns and failing lookups.
module Wrappers {
  datatype Option<+T> = None | Some(value: T)
}
