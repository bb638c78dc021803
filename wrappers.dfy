/** Option and Result, the two failure-carrying shapes the model needs. */
module Wrappers {

  /** A value that may be absent: TypeScript's `T | undefined` or `T | null`. */
  datatype Option<+T> = None | Some(value: T)

  /** The outcome of an operation that may throw. */
  datatype Result<+R, +E> = Success(value: R) | Failure(error: E)

  /** JavaScript truthiness of a `string | null`: null and the empty string are falsy. */
  predicate Truthy(s: Option<string>)
    ensures s == None ==> !Truthy(s)
    ensures s == Some("") ==> !Truthy(s)
    ensures s.Some? && |s.value| > 0 ==> Truthy(s)
  {
    s.Some? && s.value != ""
  }
}
