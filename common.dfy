/** Option and Result, the two failure-carrying values the rest of the model uses
    for Python's `None` returns and raised exceptions. */
module Common {

  datatype Option<+T> = None | Some(value: T)

  /** `Err` carries the Python exception's name and message, e.g. "NameError: ...". */
  datatype Result<+T> = Ok(value: T) | Err(error: string)

  /** Python truthiness of an optional string: `None` and `''` are both falsy. */
  predicate Truthy(o: Option<string>)
  {
    o.Some? && o.value != ""
  }
}
