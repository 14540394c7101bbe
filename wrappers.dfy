/** Option and Result: the model's stand-ins for Java's null and for checked exceptions. */
module Wrappers {

  /** A value that may be absent; `None` plays the part of a Java `null` String. */
  datatype Option<T> = None | Some(value: T)

  /** The outcome of an operation that may throw; `Err` carries the exception. */
  datatype Result<T, E> = Ok(value: T) | Err(error: E)
}
