/** Status and error values of the Themis wrapper. The native status code
    table is kept abstract: a status is already classified as success, the
    "buffer too small" signal, or some other failure code. */
module Errors {

  datatype ErrorKind = Success | BufferTooSmall | Other(code: int)

  datatype Error = Error(kind: ErrorKind)

  datatype Result<T> = Ok(value: T) | Err(error: Error)

  /** `Error::from_themis_status`: the error describing a native status. */
  function FromThemisStatus(status: ErrorKind): Error {
    Error(status)
  }
}
