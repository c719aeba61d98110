/** The ways the parsing pipeline can fail. The program has no error types of its own:
    every failure is a native Python exception that aborts the whole run, so each
    constructor below names the exception it stands for. */
module Outcome {

  datatype Error =
    | IndexOutOfRange   // IndexError: a list index past either end
    | NotAnInteger      // ValueError: int() given text that is not a decimal integer
    | MissingAttribute  // KeyError: an element without the `Index` attribute, a frame without a column
    | NoText            // AttributeError: `.split` called on the None text of an empty element

  datatype Result<+T> = Ok(value: T) | Err(error: Error)

  datatype Option<+T> = None | Some(value: T)
}
