/** Values that stand for the exceptions the system raises, and the
    Option/Outcome wrappers used to return them instead of throwing. */
module Outcomes {

  datatype Option<T> = None | Some(value: T)

  /** The kinds of error the core raises or lets through. */
  datatype Error =
    | ValueError(message: string)      // the partitioner's bad part count
    | LookupError(message: string)     // a target the resolver cannot map
    | AttributeError(name: string)     // reading an attribute a record does not have
    | ExecutionError(message: string)  // anything a runnable's own run raises

  /** Either a returned value or a raised error. */
  datatype Outcome<T> = Ok(value: T) | Raised(error: Error)
}
