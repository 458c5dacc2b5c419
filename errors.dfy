/** Error values and result wrappers shared by the host-state queries and the
    system dump entry. Each constructor of `Error` stands for one exception
    the C++ code throws or lets through. */
module Errors {

  datatype Error =
    /** std::runtime_error("Failed to get host state property"), thrown by
        getStateValue for a faulting bus call and for a non-string value alike. */
    | StateQueryFailed
    /** The exception the generated string-to-enum converters throw for a
        string that names no enumerator. */
    | InvalidEnumString
    /** xyz.openbmc_project.Common.Error.Unavailable, raised by delete_. */
    | Unavailable
    /** Any failure of a collaborator whose code is not part of this model
        (isInMpReboot, the host transport, the base entry). */
    | External(what: string)

  /** A value, or the exception that was thrown instead of returning it. */
  datatype Result<+T> = Ok(value: T) | Err(error: Error)

  /** The completion of a call that returns nothing: normal return, or an
      exception. */
  datatype Outcome = Pass | Fail(error: Error)
}
