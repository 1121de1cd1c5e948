/** Option and Result values standing in for PHP's `null` returns and thrown exceptions. */
module Wrappers {

  datatype Option<+T> = None | Some(value: T)

  /** The exceptions the modelled code throws. */
  datatype Failure =
    | InvalidArgument   // Aeon\Calendar\Exception\InvalidArgumentException, Webmozart's assertion failure
    | EpochNotStarted   // Aeon\Calendar\Exception\Exception thrown by DateTime::timestamp

  datatype Result<+T> = Ok(value: T) | Err(error: Failure)
}
