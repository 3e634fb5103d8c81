/** Optional values and Python-style raised errors. */
module Wrappers {

  datatype Option<+T> = None | Some(value: T)

  /** The Python exceptions the modelled code can raise. */
  datatype Error =
    | RuntimeError(message: string)
    | TypeError(message: string)
    | AttributeError(message: string)
    | ValueError(message: string)

  /** A value returned normally, or an exception raised instead. */
  datatype Result<+T> = Ok(value: T) | Raised(error: Error)
}
