/** Option/Result wrappers and the Python exceptions the core can raise. */
module Results {

  datatype Option<+T> = None | Some(value: T)

  /** The exception classes that the modelled code raises or catches. */
  datatype Error =
    | KeyError            // missing dictionary key or set element
    | IndexError          // list index out of range
    | ValueError          // int() of a malformed string
    | OSError             // a file-system call failed

  /** A value, or the exception that was raised instead of returning it. */
  datatype Result<+T> = Ok(value: T) | Err(error: Error)
}
