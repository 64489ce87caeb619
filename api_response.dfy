/** The response formatter (src/Response/ApiResponse.ts): a status code and an
    optional body for each outcome. */
module ApiResponse {
  import opened Outcomes
  import HttpStatus
  import opened ServiceResponse

  /** The `error` member of an error body. */
  datatype ErrorInfo = ErrorInfo(title: Option<string>, detail: string)

  /** What a response can carry: a service envelope, a confirmation text, or
      the error body `{status, code, error{title, detail}}`. */
  datatype Body =
    | Resource(envelope: Envelope)
    | Text(text: string)
    | Problem(status: int, code: Option<string>, error: ErrorInfo)

  datatype Response = Response(status: int, body: Option<Body>)

  /** `success(data)`: 200 with `data` as the body. */
  function Success(data: Body): (r: Response)
    ensures r.status == 200 && r.body == Some(data)
  {
    Response(HttpStatus.OK, Some(data))
  }

  /** `created(data)`: 201 with `data` as the body. */
  function Created(data: Body): (r: Response)
    ensures r.status == 201 && r.body == Some(data)
  {
    Response(HttpStatus.CREATED, Some(data))
  }

  /** `noContent()`: 204 and no body at all. */
  function NoContent(): (r: Response)
    ensures r.status == 204 && r.body.None?
  {
    Response(HttpStatus.NO_CONTENT, None)
  }

  /** `error(f)`: the failure's status on the response and in the body, the
      failure's message as `error.detail`, and the status's constant name and
      reason phrase as `code` and `error.title`. */
  function Error(f: Failure): (r: Response)
    ensures r.status == f.status
    ensures r.body.Some? && r.body.value.Problem?
    ensures r.body.value.status == f.status && r.body.value.error.detail == f.message
  {
    Response(f.status, Some(Problem(f.status, HttpStatus.Name(f.status), ErrorInfo(HttpStatus.Phrase(f.status), f.message))))
  }

  /** The failure a client reads back from an error response. */
  function FailureOf(r: Response): Option<Failure> {
    match r.body
    case Some(Problem(status, _, info)) => Some(Failure(info.detail, status))
    case _ => None
  }

  /** An error response carries its failure whole: reading it back gives the
      failure that was rendered. */
  lemma ErrorRoundTrip(f: Failure)
    ensures FailureOf(Error(f)) == Some(f)
  {
  }

  /** `code` and `error.title` depend on the status alone: two failures with
      the same status differ at most in `error.detail`. */
  lemma ErrorNamesDependOnStatusOnly(f: Failure, g: Failure)
    requires f.status == g.status
    ensures Error(f).body.value.code == Error(g).body.value.code
    ensures Error(f).body.value.error.title == Error(g).body.value.error.title
  {
  }

  /** The two failure statuses the service raises are named as the status
      table names them. */
  lemma ErrorNamesOfServiceStatuses(f: Failure)
    requires f.status == HttpStatus.NOT_FOUND || f.status == HttpStatus.UNPROCESSABLE_ENTITY
    ensures f.status == 404 ==> Error(f).body.value.code == Some("NOT_FOUND") && Error(f).body.value.error.title == Some("Not Found")
    ensures f.status == 422 ==> Error(f).body.value.code == Some("UNPROCESSABLE_ENTITY") && Error(f).body.value.error.title == Some("Unprocessable Entity")
  {
  }

  /** Success and error responses cannot be confused: an error rendered from a
      4xx failure is never a 2xx response and carries no envelope. */
  lemma ErrorIsNotSuccess(f: Failure, data: Body)
    requires 400 <= f.status < 500
    ensures Error(f) != Success(data) && Error(f) != Created(data) && Error(f) != NoContent()
    ensures !Error(f).body.value.Resource?
  {
  }
}
