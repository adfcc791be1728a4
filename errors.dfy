/** The failure records the core raises: `getHttpError` and
    `throwSuspiciousOperationError` of src/utils.mjs, and the results and
    outcomes that carry them. */
module HttpErrors {
  import opened Wrappers

  /** An error object handed over by a collaborator (the multipart parser,
      the file sender, the response): its message and its `code`, which
      may be missing. */
  datatype NativeError = NativeError(message: string, code: Option<string>)

  /** `new HttpError(statusCode, body, message, { code, cause })`. */
  datatype HttpError = HttpError(
    status: nat,
    body: string,
    message: string,
    code: Option<string>,
    cause: Option<NativeError>)

  /** The state of a promise the core returns: still pending, resolved, or
      rejected with an error record. */
  datatype Outcome = Pending | Resolved | Rejected(error: HttpError)

  datatype Result<+T> = Ok(value: T) | Err(error: HttpError)

  /** What a template literal shows for an optional value: JavaScript
      renders a missing one as "undefined". */
  function Interpolate(v: Option<string>): string {
    match v
    case Some(s) => s
    case None => "undefined"
  }

  /** `HTTP_FILE-${error.code}` */
  function FileErrorCode(code: Option<string>): string {
    "HTTP_FILE-" + Interpolate(code)
  }

  /** getHttpError: every field of the record is the corresponding argument. */
  function GetHttpError(statusCode: nat, body: string, message: string, code: Option<string>, cause: Option<NativeError>): (e: HttpError)
    ensures e.status == statusCode && e.body == body && e.message == message
    ensures e.code == code && e.cause == cause
  {
    HttpError(statusCode, body, message, code, cause)
  }

  /** The rejection for a collaborator's failure:
      `getHttpError(status, body, error.message, `HTTP_FILE-${error.code}`, error)`.
      The public body is fixed by the caller; the internal message, the code
      and the cause all come from the failure. */
  function FromNative(status: nat, body: string, cause: NativeError): (e: HttpError)
    ensures e.status == status && e.body == body
    ensures e.message == cause.message && e.cause == Some(cause)
    ensures e.code == Some("HTTP_FILE-" + Interpolate(cause.code))
  {
    GetHttpError(status, body, cause.message, Some(FileErrorCode(cause.code)), Some(cause))
  }

  /** throwSuspiciousOperationError: a 400 without code or cause whose public
      body names the host, and whose internal message wraps that body with
      the "SuspiciousOperation: " prefix and the client address. */
  function SuspiciousOperation(message: string, ip: string, host: string): (e: HttpError)
    ensures e.status == 400 && e.code.None? && e.cause.None?
    ensures e.body == message + " " + host
    ensures e.message == "SuspiciousOperation: " + e.body + " with ip(" + ip + ")"
  {
    GetHttpError(400, message + " " + host, "SuspiciousOperation: " + message + " " + host + " with ip(" + ip + ")", None, None)
  }
}
