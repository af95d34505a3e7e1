/** Option and Result values for the parts of the program that return
    `null`, throw, or reject a promise. */
module Wrappers {

  datatype Option<+T> = None | Some(value: T)

  datatype Result<+R, +E> = Success(value: R) | Failure(error: E)

  /** `o || ''` for a value that may be missing: an absent value reads as the empty string. */
  function OrEmpty(o: Option<string>): string
  {
    match o
    case None => ""
    case Some(s) => s
  }

  /** JavaScript truthiness of a string that may be missing. */
  predicate Truthy(o: Option<string>)
  {
    o.Some? && o.value != ""
  }
}
