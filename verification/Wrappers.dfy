/** Shared value types: optional values, results and raw bytes. */
module Wrappers {

  type byte = b: int | 0 <= b < 256

  type Bytes = seq<byte>

  datatype Option<+T> = None | Some(value: T)

  /** The kinds of error that the modelled code can return (src/error.rs). */
  datatype Error =
    | S3
    | Codec
    | Missing
    | NoBackup
    | InvalidGenerationId
    | NoManifests
    | NoGenerationBefore

  datatype Result<+T> = Ok(value: T) | Err(error: Error)
}
