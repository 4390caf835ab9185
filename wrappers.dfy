/** Optional values: the model's counterpart of `undefined` / `null` in the client. */
module Wrappers {
  datatype Option<+T> = None | Some(value: T) {
    /** `this ?? default` */
    function GetOr(default: T): T {
      match this
      case Some(v) => v
      case None => default
    }
  }

  /** An optional string counts only when present and non-empty (JavaScript truthiness). */
  predicate Truthy(a: Option<string>) {
    a.Some? && a.value != ""
  }
}
