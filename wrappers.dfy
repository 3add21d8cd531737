/** Option and Result, the two shapes the Rust and TypeScript code use for
    "maybe absent" and "value or error string". */
module Wrappers {

  datatype Option<+T> = None | Some(value: T)

  datatype Result<+T, +E> = Ok(value: T) | Err(error: E)
}
