/** The HTTP status codes the service uses (RFC 9110: section 15.3.1 OK,
    15.3.2 Created, 15.3.5 No Content, 15.5.5 Not Found, 15.5.21 Unprocessable
    Content) and the constant-name and reason-phrase lookups of the
    `http-status` package for those codes. */
module HttpStatus {
  import opened Outcomes

  const OK: int := 200
  const CREATED: int := 201
  const NO_CONTENT: int := 204
  const NOT_FOUND: int := 404
  const UNPROCESSABLE_ENTITY: int := 422

  /** `HttpStatus[`${code}_NAME`]`: the constant name of a code, absent for codes outside the table. */
  function Name(code: int): Option<string> {
    if code == OK then Some("OK")
    else if code == CREATED then Some("CREATED")
    else if code == NO_CONTENT then Some("NO_CONTENT")
    else if code == NOT_FOUND then Some("NOT_FOUND")
    else if code == UNPROCESSABLE_ENTITY then Some("UNPROCESSABLE_ENTITY")
    else None
  }

  /** `HttpStatus[code]`: the reason phrase of a code, absent for codes outside the table. */
  function Phrase(code: int): Option<string> {
    if code == OK then Some("OK")
    else if code == CREATED then Some("Created")
    else if code == NO_CONTENT then Some("No Content")
    else if code == NOT_FOUND then Some("Not Found")
    else if code == UNPROCESSABLE_ENTITY then Some("Unprocessable Entity")
    else None
  }
}
