/**
 * The server's error taxonomy (blog_server/src/domain/error.rs): the
 * repository-level `DomainError`, the service-level `BlogError`, and the two
 * wire encodings of a `BlogError` — an HTTP status with a JSON body, and a
 * gRPC status.
 */
module Errors {
  import opened Wrappers
  import opened Json

  datatype DomainError =
    | UserNotFound
    | Validation(detail: string)
    | PostNotFound
    | Forbidden
    | Internal(detail: string)

  /** The `Display` text of a `DomainError`. */
  function DomainErrorText(e: DomainError): string {
    match e
    case UserNotFound => "User not found"
    case Validation(d) => "Validation error: " + d
    case PostNotFound => "Post not found"
    case Forbidden => "Forbidden"
    case Internal(d) => "Internal server error: " + d
  }

  datatype BlogError =
    | Validation(message: string)
    | Forbidden
    | NotFound(resource: string)
    | Unautorized
    | Internal(message: string)

  /** The `Display` text of a `BlogError`. */
  function BlogErrorText(e: BlogError): string {
    match e
    case Validation(m) => "Validation error: " + m
    case Forbidden => "Forbidden"
    case NotFound(r) => "Not found: " + r
    case Unautorized => "Unauthorized"
    case Internal(m) => "Internal: " + m
  }

  /** `From<DomainError> for BlogError`, the conversion `?` applies. */
  function ToBlogError(e: DomainError): (b: BlogError)
    ensures e.UserNotFound? ==> b == BlogError.NotFound("user not found")
    ensures e.PostNotFound? ==> b == BlogError.NotFound("Post not found")
    ensures e.Validation? ==> b == BlogError.Validation(e.detail)
    ensures e.Internal? ==> b == BlogError.Internal(e.detail)
    ensures e.Forbidden? <==> b.Forbidden?
    ensures !b.Unautorized?
  {
    match e
    case UserNotFound => BlogError.NotFound("user not found")
    case Validation(d) => BlogError.Validation(d)
    case PostNotFound => BlogError.NotFound("Post not found")
    case Forbidden => BlogError.Forbidden
    case Internal(d) => BlogError.Internal(d)
  }

  // ---------------------------------------------------------------------
  // HTTP encoding (`ResponseError for BlogError`)
  // ---------------------------------------------------------------------

  /** `status_code` */
  function StatusCode(e: BlogError): int {
    match e
    case Forbidden => FORBIDDEN
    case NotFound(_) => NOT_FOUND
    case Unautorized => UNAUTHORIZED
    case Internal(_) => INTERNAL_SERVER_ERROR
    case Validation(_) => BAD_REQUEST
  }

  /** The `details` member: `{"resource": …}` for Validation and NotFound only. */
  function Details(e: BlogError): Option<Json> {
    match e
    case Validation(m) => Some(JObject([("resource", JString(m))]))
    case Forbidden => None
    case NotFound(r) => Some(JObject([("resource", JString(r))]))
    case Unautorized => None
    case Internal(_) => None
  }

  /** `ErrorBody { error, details }`; `details` is skipped when None. */
  function ErrorBody(e: BlogError): Json {
    var error := [("error", JString(BlogErrorText(e)))];
    match Details(e)
    case None => JObject(error)
    case Some(d) => JObject(error + [("details", d)])
  }

  /** `error_response`: the status code with the JSON error body. */
  function ErrorResponse(e: BlogError): (r: HttpResponse)
    ensures r.status == StatusCode(e) && r.body == JsonBody(ErrorBody(e))
    ensures 400 <= r.status < 600
  {
    HttpResponse(StatusCode(e), JsonBody(ErrorBody(e)))
  }

  /** What actix-web sends for a handler result: the response, or the error's response. */
  function Respond(r: Result<HttpResponse, BlogError>): HttpResponse {
    match r
    case Success(resp) => resp
    case Failure(e) => ErrorResponse(e)
  }

  // ---------------------------------------------------------------------
  // gRPC encoding (`From<BlogError> for Status`)
  // ---------------------------------------------------------------------

  /** `tonic::Code`, with its numbering. */
  datatype Code =
    | Ok | Cancelled | Unknown | InvalidArgument | DeadlineExceeded | NotFound
    | AlreadyExists | PermissionDenied | ResourceExhausted | FailedPrecondition
    | Aborted | OutOfRange | Unimplemented | Internal | Unavailable | DataLoss
    | Unauthenticated

  function CodeNumber(c: Code): int {
    match c
    case Ok => 0
    case Cancelled => 1
    case Unknown => 2
    case InvalidArgument => 3
    case DeadlineExceeded => 4
    case NotFound => 5
    case AlreadyExists => 6
    case PermissionDenied => 7
    case ResourceExhausted => 8
    case FailedPrecondition => 9
    case Aborted => 10
    case OutOfRange => 11
    case Unimplemented => 12
    case Internal => 13
    case Unavailable => 14
    case DataLoss => 15
    case Unauthenticated => 16
  }

  /** `tonic::Status`: a code and a message. */
  datatype Status = Status(code: Code, message: string)

  function ToStatus(e: BlogError): Status {
    match e
    case Validation(m) => Status(Code.InvalidArgument, m)
    case Forbidden => Status(Code.PermissionDenied, "Forbiden")
    case NotFound(r) => Status(Code.NotFound, r)
    case Unautorized => Status(Code.Unauthenticated, "Unautorized")
    case Internal(m) => Status(Code.Internal, m)
  }

  /**
   * The HTTP status conventionally paired with a gRPC code (the mapping used
   * by gRPC-to-HTTP gateways), as an independent reference for the two
   * encodings above.
   */
  function HttpStatusOfCode(c: Code): int {
    match c
    case Ok => OK
    case InvalidArgument => BAD_REQUEST
    case Unauthenticated => UNAUTHORIZED
    case PermissionDenied => FORBIDDEN
    case NotFound => NOT_FOUND
    case AlreadyExists => 409
    case FailedPrecondition => BAD_REQUEST
    case OutOfRange => BAD_REQUEST
    case ResourceExhausted => 429
    case Cancelled => 499
    case Unimplemented => 501
    case Unavailable => 503
    case DeadlineExceeded => 504
    case _ => INTERNAL_SERVER_ERROR
  }

  predicate SameVariant(a: BlogError, b: BlogError) {
    (a.Validation? && b.Validation?) || (a.Forbidden? && b.Forbidden?) ||
    (a.NotFound? && b.NotFound?) || (a.Unautorized? && b.Unautorized?) ||
    (a.Internal? && b.Internal?)
  }

  // ---------------------------------------------------------------------
  // Properties of the encodings
  // ---------------------------------------------------------------------

  /** The five variants get five distinct HTTP statuses, each one a client or server error. */
  lemma StatusCodesDistinct(a: BlogError, b: BlogError)
    ensures StatusCode(a) == StatusCode(b) <==> SameVariant(a, b)
    ensures StatusCode(a) in {400, 401, 403, 404, 500}
  {
  }

  /** The five variants get five distinct gRPC codes, none of them Ok. */
  lemma GrpcCodesDistinct(a: BlogError, b: BlogError)
    ensures ToStatus(a).code == ToStatus(b).code <==> SameVariant(a, b)
    ensures ToStatus(a).code != Code.Ok
  {
  }

  /**
   * The two encodings agree: for every error, the gRPC code's conventional
   * HTTP status is the HTTP status actually sent, so 400/INVALID_ARGUMENT,
   * 401/UNAUTHENTICATED, 403/PERMISSION_DENIED, 404/NOT_FOUND and
   * 500/INTERNAL go together.
   */
  lemma EncodingsAgree(e: BlogError)
    ensures HttpStatusOfCode(ToStatus(e).code) == StatusCode(e)
    ensures StatusCode(e) == BAD_REQUEST <==> ToStatus(e).code == Code.InvalidArgument
    ensures StatusCode(e) == UNAUTHORIZED <==> ToStatus(e).code == Code.Unauthenticated
    ensures StatusCode(e) == FORBIDDEN <==> ToStatus(e).code == Code.PermissionDenied
    ensures StatusCode(e) == NOT_FOUND <==> ToStatus(e).code == Code.NotFound
    ensures StatusCode(e) == INTERNAL_SERVER_ERROR <==> ToStatus(e).code == Code.Internal
  {
  }

  /** The JSON body has `details` exactly for Validation and NotFound, and then its resource is the payload. */
  lemma ErrorBodyDetails(e: BlogError)
    ensures Member(ErrorBody(e), "details").Some? <==> (e.Validation? || e.NotFound?)
    ensures e.Validation? ==> Member(ErrorBody(e), "details") == Some(JObject([("resource", JString(e.message))]))
    ensures e.NotFound? ==> Member(ErrorBody(e), "details") == Some(JObject([("resource", JString(e.resource))]))
  {
    var error := [("error", JString(BlogErrorText(e)))];
    if e.Validation? || e.NotFound? {
      assert ErrorBody(e).members == error + [("details", Details(e).value)];
    }
  }

  /** The body's `error` member is the variant's display text, including an Internal error's detail. */
  lemma ErrorBodyMessage(e: BlogError)
    ensures Member(ErrorBody(e), "error") == Some(JString(BlogErrorText(e)))
    ensures e.Internal? ==> Member(ErrorBody(e), "error") == Some(JString("Internal: " + e.message))
    ensures e.NotFound? ==> Member(ErrorBody(e), "error") == Some(JString("Not found: " + e.resource))
  {
  }

  /** The gRPC message carries the payload for Validation, NotFound and Internal, fixed texts otherwise. */
  lemma StatusMessages(e: BlogError)
    ensures e.Validation? ==> ToStatus(e).message == e.message
    ensures e.NotFound? ==> ToStatus(e).message == e.resource
    ensures e.Internal? ==> ToStatus(e).message == e.message
    ensures e.Forbidden? ==> ToStatus(e).message == "Forbiden"
    ensures e.Unautorized? ==> ToStatus(e).message == "Unautorized"
  {
  }

  /** Both not-found domain errors come out as HTTP 404 and gRPC NOT_FOUND. */
  lemma DomainNotFoundEncodings(e: DomainError)
    requires e.UserNotFound? || e.PostNotFound?
    ensures StatusCode(ToBlogError(e)) == NOT_FOUND
    ensures ToStatus(ToBlogError(e)).code == Code.NotFound
  {
  }
}
