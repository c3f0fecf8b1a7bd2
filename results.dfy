/** Error values and the failure-carrying wrappers the adapter returns. */
module Results {

  /** One constructor per place where the adapter returns a non-nil error. */
  datatype Error =
    | FileNameNotString     // Connect: resources[0] is not a string
    | DirNotString          // Connect: resources[1] is not a string
    | TempDirFailed         // Connect: the temporary directory could not be made
    | OpenFailed            // Connect: the database file could not be opened
    | BucketSetupFailed     // Connect: the bucket set-up transaction failed
    | KeyEncodeFailed       // Insert: the key document cannot be encoded
    | ValueEncodeFailed     // Insert: the value document cannot be encoded
    | SelectorEncodeFailed  // Remove: the selector cannot be encoded
    | NoBucket              // Insert, Remove, One: the selected bucket does not exist
    | PutRejected           // Insert: the engine refused the key/value pair
    | DecodeFailed          // One: the stored bytes do not decode into the result
    | EndOfInput            // One: the decoder found no bytes at all
    | CloseFailed           // Close: the database handle could not be closed
    | RemoveDirFailed       // Close: the temporary directory could not be removed

  /** Go's `error`: nil, or an error. */
  datatype Outcome = Pass | Fail(error: Error)

  /** A value or an error, for the operations that produce something. */
  datatype Result<+T> = Success(value: T) | Failure(error: Error)

  datatype Option<+T> = None | Some(value: T)
}
