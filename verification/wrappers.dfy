/** The value-or-error result used for operations of the simulator that can raise. */
module Wrappers {

  datatype Result<T, E> = Ok(value: T) | Err(error: E)
}
