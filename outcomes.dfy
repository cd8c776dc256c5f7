/** Option, Result and the Python exceptions the modelled code can raise. */
module Outcomes {

  datatype Option<T> = None | Some(value: T)

  /** A Python error, named after the exception it stands for. */
  datatype Error =
    | FileNotFound(path: string)   // open, os.chdir, os.listdir or os.rename on a missing path
    | KeyMissing(key: string)      // KeyError from a dictionary lookup
    | NotIterable                  // TypeError: a `for` loop over None
    | NotTwoParts(name: string)    // ValueError: unpacking a split file name into two names

  datatype Result<T> = Ok(value: T) | Err(error: Error)
}
