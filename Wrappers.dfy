/** Optional values: the model's stand-in for the source's `null`-able state. */
module Wrappers {

  datatype Option<+T> = None | Some(value: T)

  /** JavaScript truthiness of a `number | null` timestamp: present and not 0. */
  predicate IsTruthy(t: Option<int>) {
    t.Some? && t.value != 0
  }
}
