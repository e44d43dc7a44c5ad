/** Failure-carrying values for the two ways the pipeline can stop early. */
module Errors {

  datatype Option<T> = None | Some(value: T)

  datatype Result<T> = Success(value: T) | Failure(error: Error)

  /** The exceptions the modelled part of the script can raise. */
  datatype Error =
    | NoSession                 // IndexError: no session directory survives the baseline filter
    | MissingFile(path: string) // FileNotFoundError from reading an events table
}
