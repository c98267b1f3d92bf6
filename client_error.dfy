/** The client library's error type `AppError` (blog_client/src/error.rs). */
module ClientError {
  import Errors

  /**
   * Transport, connection and metadata failures carry their library's
   * display text; a gRPC error status is carried whole.
   */
  datatype AppError =
    | GrpcError(detail: string)
    | GrpcServerError(status: Errors.Status)
    | HttpError(detail: string)
    | InvalidMetadataValue(detail: string)
    | Internal(message: string)
    | Unauthorized
    | NotFound
}
