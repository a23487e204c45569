/** The status codes that the connection itself sends or looks for, and the responses made of one alone. */
module Statuses {
  import opened Bytes
  import opened Decoding

  const CONTINUE: nat := 100
  const BAD_REQUEST: nat := 400
  const FORBIDDEN: nat := 403
  const BODY_TOO_LARGE: nat := 413
  const URI_TOO_LONG: nat := 414
  const INTERNAL_SERVER_ERROR: nat := 500
  const NOT_IMPLEMENTED: nat := 501
  const VERSION_NOT_SUPPORTED: nat := 505

  function Plain(phrase: nat -> bytes, status: nat): Message {
    Response(status, phrase(status), [], [])
  }
}
