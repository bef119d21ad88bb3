/**
 * cdn/src/delegate/error.rs: the error type of the CDN service's upload
 * handlers. An `ApiError` is a status code and an optional fixed message;
 * it becomes a JSON response `{"error": reason}`, every standard error
 * converts to a 500 "Internal server error", and it converts back into an
 * I/O error for the byte stream the uploader reads. The JSON value is kept
 * as a structure; its serialisation is not part of this model.
 */
module DelegateError {
  import opened Common

  datatype ApiError = ApiError(code: nat, body: Option<string>)

  /** What `From<E>` makes of every error `E`. */
  const INTERNAL_SERVER_ERROR: ApiError := ApiError(500, Some("Internal server error"))

  /** `StatusCode::canonical_reason` of the `http` crate: the registered reason phrase, if any. */
  function CanonicalReason(code: nat): Option<string>
  {
    match code
    case 100 => Some("Continue")
    case 101 => Some("Switching Protocols")
    case 102 => Some("Processing")
    case 200 => Some("OK")
    case 201 => Some("Created")
    case 202 => Some("Accepted")
    case 203 => Some("Non Authoritative Information")
    case 204 => Some("No Content")
    case 205 => Some("Reset Content")
    case 206 => Some("Partial Content")
    case 207 => Some("Multi-Status")
    case 208 => Some("Already Reported")
    case 226 => Some("IM Used")
    case 300 => Some("Multiple Choices")
    case 301 => Some("Moved Permanently")
    case 302 => Some("Found")
    case 303 => Some("See Other")
    case 304 => Some("Not Modified")
    case 305 => Some("Use Proxy")
    case 307 => Some("Temporary Redirect")
    case 308 => Some("Permanent Redirect")
    case 400 => Some("Bad Request")
    case 401 => Some("Unauthorized")
    case 402 => Some("Payment Required")
    case 403 => Some("Forbidden")
    case 404 => Some("Not Found")
    case 405 => Some("Method Not Allowed")
    case 406 => Some("Not Acceptable")
    case 407 => Some("Proxy Authentication Required")
    case 408 => Some("Request Timeout")
    case 409 => Some("Conflict")
    case 410 => Some("Gone")
    case 411 => Some("Length Required")
    case 412 => Some("Precondition Failed")
    case 413 => Some("Payload Too Large")
    case 414 => Some("URI Too Long")
    case 415 => Some("Unsupported Media Type")
    case 416 => Some("Range Not Satisfiable")
    case 417 => Some("Expectation Failed")
    case 418 => Some("I'm a teapot")
    case 421 => Some("Misdirected Request")
    case 422 => Some("Unprocessable Entity")
    case 423 => Some("Locked")
    case 424 => Some("Failed Dependency")
    case 426 => Some("Upgrade Required")
    case 428 => Some("Precondition Required")
    case 429 => Some("Too Many Requests")
    case 431 => Some("Request Header Fields Too Large")
    case 451 => Some("Unavailable For Legal Reasons")
    case 500 => Some("Internal Server Error")
    case 501 => Some("Not Implemented")
    case 502 => Some("Bad Gateway")
    case 503 => Some("Service Unavailable")
    case 504 => Some("Gateway Timeout")
    case 505 => Some("HTTP Version Not Supported")
    case 506 => Some("Variant Also Negotiates")
    case 507 => Some("Insufficient Storage")
    case 508 => Some("Loop Detected")
    case 510 => Some("Not Extended")
    case 511 => Some("Network Authentication Required")
    case _ => None
  }

  /** The reason `into_response` reports: the message, else the reason phrase, else "Unknown error". */
  function Reason(e: ApiError): string
  {
    match e.body
    case Some(text) => text
    case None =>
      match CanonicalReason(e.code)
      case Some(phrase) => phrase
      case None => "Unknown error"
  }

  /** The JSON body `{"error": reason}`. */
  datatype ErrorBody = ErrorBody(error: string)

  datatype JsonResponse = JsonResponse(status: nat, contentType: string, body: ErrorBody)

  /** `into_response`: the error's own status, a JSON content type, and the reason. */
  function IntoResponse(e: ApiError): (r: JsonResponse)
    ensures r.status == e.code && r.contentType == "application/json"
    ensures e.body.Some? ==> r.body.error == e.body.value
    ensures e.body.None? && CanonicalReason(e.code).Some? ==> r.body.error == CanonicalReason(e.code).value
    ensures e.body.None? && CanonicalReason(e.code).None? ==> r.body.error == "Unknown error"
  {
    JsonResponse(e.code, "application/json", ErrorBody(Reason(e)))
  }

  /** `From<E> for APIError`: whatever the error, a 500 with the fixed message. */
  function FromError<E>(err: E): (e: ApiError)
    ensures e.code == 500 && e.body == Some("Internal server error")
  {
    INTERNAL_SERVER_ERROR
  }

  /** Every standard error reaches the client as the same 500 response. */
  lemma StdErrorsLookAlike<E>(a: E, b: E)
    ensures IntoResponse(FromError(a)) == IntoResponse(FromError(b))
            == JsonResponse(500, "application/json", ErrorBody("Internal server error"))
  {
  }

  datatype IoErrorKind = Other

  datatype IoError = IoError(kind: IoErrorKind, message: string)

  /** `From<APIError> for IoError`: kind Other, the message or "Unknown error"; the status is dropped. */
  function ToIoError(e: ApiError): (io: IoError)
    ensures io.kind == Other
    ensures e.body.Some? ==> io.message == e.body.value
    ensures e.body.None? ==> io.message == "Unknown error"
  {
    IoError(Other, match e.body case Some(text) => text case None => "Unknown error")
  }

  /**
   * The I/O error and the response agree on the reason exactly when the
   * error has a message or its status has no reason phrase: a message-less
   * 404 answers "Not Found" but reads back as "Unknown error".
   */
  lemma IoErrorReason(e: ApiError)
    ensures ToIoError(e).message == IntoResponse(e).body.error
            <==> e.body.Some? || CanonicalReason(e.code).None? || CanonicalReason(e.code) == Some("Unknown error")
  {
  }

  lemma MessagelessNotFound()
    ensures IntoResponse(ApiError(404, None)).body.error == "Not Found"
    ensures ToIoError(ApiError(404, None)).message == "Unknown error"
  {
  }
}
