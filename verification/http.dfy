/** The failures the auth core raises as FastAPI `HTTPException`s, and the
    outcome of a handler: either its response body or the exception. */
module Http {

  const BadRequest: int := 400
  const Unauthorized: int := 401
  const InternalServerError: int := 500

  datatype HttpError = HttpError(status: int, detail: string)

  datatype Response<+T> = Ok(value: T) | Err(error: HttpError)

}
