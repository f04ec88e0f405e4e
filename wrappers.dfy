/** Optional values and the outcome of an operation that may throw. */
module Wrappers {

  /** A value that may be absent (`undefined` or `null` in the source). */
  datatype Option<+T> = None | Some(value: T)

  /** What an awaited call produced: its value, or the message of the Error it threw. */
  datatype Outcome<+T> = Ok(value: T) | Thrown(message: string)

  /** `x || ""` for an optional string. */
  function OrEmpty(o: Option<string>): string
  {
    match o
    case Some(s) => s
    case None => ""
  }

  /** JavaScript truthiness of an optional string: present and non-empty. */
  predicate Truthy(o: Option<string>)
  {
    o.Some? && o.value != ""
  }
}
