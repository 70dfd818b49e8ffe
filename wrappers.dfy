/** Small value types shared by the modules: an optional value, and the
    JavaScript notion of a "truthy" optional string (undefined, null and the
    empty string are all falsy). */
module Wrappers {

  datatype Option<+T> = None | Some(value: T)

  /** `s ? a : b` on a string-valued prop or a `sessionStorage.getItem` result. */
  predicate IsTruthy(s: Option<string>)
  {
    s.Some? && s.value != ""
  }
}
