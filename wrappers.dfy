/** Optional values and results with an error, used for the error paths of the pipeline. */
module Wrappers {

  datatype Option<+T> = None | Some(value: T)

  datatype Result<+T, +E> = Success(value: T) | Failure(error: E)

  /** The ways one invocation can fail; each one aborts the whole batch. */
  datatype Error =
    | DecodeError                        // the envelope could not be decoded
    | CoercionError                      // a typed annotation held a value int()/float() rejects
    | FingerprintError(stderr: string)   // the normalizer exited non-zero
}
