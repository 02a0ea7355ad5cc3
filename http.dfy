/** HTTP errors as the route handlers raise them. */
module Http {
  import opened Wrappers

  const BadRequest: int := 400
  const Unauthorized: int := 401
  const Forbidden: int := 403
  const NotFound: int := 404

  /**
   * An `HTTPException`: its status code, its `detail` message and the value of its
   * `WWW-Authenticate` header when it sets one.
   */
  datatype HttpError = HttpError(status: int, detail: string, authenticate: Option<string>)
}
