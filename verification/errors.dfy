/** Error values of the command-line tool and the Go-style result wrapper used by every operation. */
module Errors {

  datatype Option<+T> = None | Some(value: T)

  /** One constructor per error the tool can return. Errors produced by a library
      the model does not see (HTTP transport, regexp compiler, log-level parser,
      login) carry that library's message unchanged. */
  datatype Error =
    | Transport(detail: string)      // error returned by the HTTP client itself
    | StatusNotSuccess               // reply decoded, but its status field was not "success"
    | UpdatesFailed                  // at least one region PUT failed
    | UpdateTimeout                  // no PUT response within the collection window
    | PatternInvalid(detail: string) // the anchored label pattern did not compile
    | LogLevelInvalid(detail: string)
    | MissingRequiredFlags
    | LoginFailed(detail: string)

  datatype Result<+T> = Ok(value: T) | Err(error: Error)

  /** The text the error prints as. */
  function Message(e: Error): string
  {
    match e
    case Transport(d) => d
    case StatusNotSuccess => "Dynect API call status was no success"
    case UpdatesFailed => "One or more of the GSLB updates failed"
    case UpdateTimeout => "Update requests did not return after 20 seconds"
    case PatternInvalid(d) => d
    case LogLevelInvalid(d) => d
    case MissingRequiredFlags => "Missing required flags"
    case LoginFailed(d) => d
  }
}
