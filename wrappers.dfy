/** Result, option and error values shared by every part of the cache engine.
    The Go code returns `(value, error)` pairs; here a call that can fail returns
    a `Result` or an `Outcome`, and `Error` names the error conditions the engine
    distinguishes. */
module Wrappers {

  datatype Option<+T> = None | Some(value: T)

  /** The error conditions of the engine. Messages are not modelled, only which
      condition was raised. */
  datatype Error =
    | KeyNotFound                  // "key not found"
    | KeyExpired                   // "key expired"
    | NotANumber                   // "value is not a number"
    | InvalidConfig(reason: string) // a rejected configuration field
    | Unsupported(what: string)    // an unsupported factory name or operation
    | InvalidShardIndex(index: int)
    | NoShardAvailable             // "no shard available for key"
    | CodecFailure                 // serialize/compress/decompress/deserialize failed
    | BackendFailure               // a backend or tier reported an error
    | BothTiersFailed              // hierarchical delete failed on L1 and on L2
    | CloseFailed(count: nat)      // Close collected this many errors

  datatype Result<+T> = Ok(value: T) | Err(error: Error)

  /** The result of an operation that returns only an error. */
  datatype Outcome = Pass | Fail(error: Error)
}
