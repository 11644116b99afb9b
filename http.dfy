/** How a request handler ends when it does not return its response: an
    HTTPException it raises, the 422 that request validation produces before
    the handler runs, or an exception the handler does not catch (a 500). */
module Http {
  const BadRequest: int := 400
  const Unauthorized: int := 401
  const Forbidden: int := 403
  const NotFound: int := 404
  const Conflict: int := 409
  const UnprocessableEntity: int := 422

  datatype Failure =
    | HttpError(status: int, detail: string)
    | Unprocessable(field: string)
    | ServerError(exception: string)
  {
    /** The status code the client sees. */
    function Status(): int {
      match this
      case HttpError(s, _) => s
      case Unprocessable(_) => UnprocessableEntity
      case ServerError(_) => 500
    }
  }
}
