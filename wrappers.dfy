/** Option and Result, plus the two pieces of Python truthiness the engine relies on. */
module Wrappers {

  datatype Option<+T> = None | Some(value: T)

  datatype Result<+T> = Ok(value: T) | Err(error: string)

  /** `not x` for an optional string argument: None and "" are both falsy. */
  predicate Falsy(o: Option<string>)
  {
    o.None? || o.value == ""
  }

  /** Truthiness of a Python string: only the empty string is falsy. */
  predicate StrTruthy(s: string)
  {
    s != ""
  }
}
