/** Optional values and JavaScript's treatment of missing or empty strings. */
module Wrappers {

  datatype Option<+T> = None | Some(value: T) {
    function GetOr(default: T): T {
      match this
      case Some(v) => v
      case None => default
    }
  }

  /** The outcome of an operation that can fail with a message (a thrown `Error`). */
  datatype Result<+T> = Ok(value: T) | Err(error: string)

  /** A string is truthy in JavaScript when it is present and not empty. */
  predicate Truthy(o: Option<string>) {
    o.Some? && o.value != ""
  }

  /** JavaScript `a || b` where `a` is an optional string and `b` a string. */
  function OrElse(o: Option<string>, default: string): (r: string)
    ensures Truthy(o) ==> r == o.value
    ensures !Truthy(o) ==> r == default
  {
    if o.Some? && o.value != "" then o.value else default
  }

  /** JavaScript `s || b` where the empty string stands for every falsy value. */
  function Or(s: string, default: string): (r: string)
    ensures s != "" ==> r == s
    ensures s == "" ==> r == default
  {
    if s != "" then s else default
  }
}
