/** Plain wrapper datatypes used throughout the model: an optional value and
    a value-or-error result (the model's stand-in for a JavaScript throw). */
module Wrappers {

  datatype Option<+T> = None | Some(value: T)

  datatype Result<+T, +E> = Ok(value: T) | Err(error: E)
}
