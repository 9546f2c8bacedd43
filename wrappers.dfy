/** Failure-carrying values shared by every module: Python's `None` and the
    exceptions the pipeline raises become explicit results. */
module Wrappers {

  datatype Option<+T> = None | Some(value: T)

  /** The Python exception classes the modelled code raises or lets escape. */
  datatype Error =
    | ValueError      // bad conversion, failed validator, failed int() parse
    | KeyError        // missing dict key, unknown tile id, missing table column
    | IndexError      // list index out of range after a split
    | ZeroDivision    // float division by zero
    | TypeError       // unexpected keyword argument / wrong value shape
    | AttributeError  // calling a dict method on a value that is not a dict
    | FileNotFound    // opening a local file that does not exist
    | ReadFailure     // an abstracted reader (FITS header, WCS) failed

  datatype Result<+T> = Ok(value: T) | Err(error: Error)
}
