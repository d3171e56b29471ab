/** Failure-carrying results and the exceptions the modelled code raises. */
module Wrappers {

  datatype Option<+T> = None | Some(value: T)

  datatype Result<+R, +E> = Success(value: R) | Failure(error: E)

  datatype Outcome<+E> = Pass | Fail(error: E)

  /** The Python exceptions raised by the modelled code. */
  datatype PyException =
    | KeyError
    | TypeError
    | AttributeError
    | ValueError
    | SystemError
    | ProjectAlreadyLoaded
    | ProjectNotFound
}
