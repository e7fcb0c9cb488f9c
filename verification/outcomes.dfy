/** Small wrapper datatypes shared by the model: an optional value and the
    outcome of a call to the remote task store. */
module Outcomes {

  /** JavaScript's `null`-or-value, as used for `editIndex` and for the
      theme read back from browser storage. */
  datatype Option<+T> = None | Some(value: T)

  /** What a remote call came back with: the response body on success, or
      a failure (network error, error status, malformed body), which the
      component only logs. */
  datatype Outcome<+T> = Ok(value: T) | Failed
}
