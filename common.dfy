/** Option and Result datatypes used throughout the model. */
module Wrappers {

  datatype Option<+T> = None | Some(value: T)

  datatype Result<+T, +E> = Ok(value: T) | Err(error: E)
}

/** Every way one run of the client can fail. Each one ends the process with exit status 1. */
module Errors {
  import opened Wrappers

  datatype Error =
    | FileReadError(reason: string)     // ioutil.ReadFile failed (main.go, file input)
    | StdinReadError(reason: string)    // io.ReadAll(os.Stdin) failed
    | Usage                             // the assembled prompt is empty
    | ConfigError                       // the AWS configuration could not be loaded
    | InvokeError                       // InvokeModel failed
    | UnmarshalResponseError            // the response body is not a JSON object (or null)
    | UnexpectedFormat                  // "content" is missing, not a list, or empty
    | InvokeStreamError                 // InvokeModelWithResponseStream failed
    | UnmarshalChunkError               // a stream chunk is not a JSON object (or null)

  /** What one path writes to standard output, and why it ends with exit status 1 (none: status 0). */
  datatype Outcome = Outcome(output: string, failure: Option<Error>)
}
