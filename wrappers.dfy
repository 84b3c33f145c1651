/** Swift's `Optional`: every configuration field is either absent (`nil`) or holds a value. */
module Wrappers {

  datatype Option<+T> = None | Some(value: T)
}
