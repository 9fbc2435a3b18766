/** The one HTTP notion the core raises: an error response with a status, a detail and headers. */
module Http {
  const Unauthorized: int := 401

  /** The challenge header both 401 responses carry. */
  const BearerChallenge: map<string, string> := map["WWW-Authenticate" := "Bearer"]

  /** The response an exception no handler catches becomes. */
  const InternalServerError: int := 500

  datatype HttpError = HttpError(statusCode: int, detail: string, headers: map<string, string>)
}
