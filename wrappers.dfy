/** Success-or-error results, used wherever the simulator would stop with a
    fatal diagnostic or a failed assertion. */
module Wrappers {

  datatype Result<+T, +E> = Ok(value: T) | Err(error: E)

  datatype Option<+T> = None | Some(value: T)
}
