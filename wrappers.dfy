/** Failure-carrying result types shared by the day modules. */
module Wrappers {

  /** Rust's `Option<T>`. */
  datatype Option<T> = None | Some(value: T)

  /** The outcome of an operation that either yields a value or panics. */
  datatype Result<T> = Ok(value: T) | Panic(reason: string)
}
