/** Optional values and the failures the .NET runtime raises as exceptions. */
module Outcomes {

  datatype Option<+T> = None | Some(value: T)

  /** The exceptions the modelled code can raise, by kind. */
  datatype Error =
    | DivideByZero        // integer division by a zero count
    | ArgumentOutOfRange  // indexing a List<T> past its end, or String.Remove with a bad start index or count
    | ArgumentNull        // a null key or a null/empty required argument
    | DuplicateKey        // ToDictionary meeting the same key twice
    | Format              // Decimal.Parse given text that is not a number

  datatype Result<+T> = Ok(value: T) | Err(error: Error)
}
