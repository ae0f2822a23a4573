/**
  Request bodies, response envelopes and the exceptions the controller throws.
  A controller call ends in exactly one `Response`: a success envelope, a
  field-tagged 400 error envelope (built by SendErrorValid), or an exception
  that the web framework turns into an error reply.
*/
module Payload {
  import opened Jwt

  datatype RegisterRequest = RegisterRequest(username: string, email: string, password: string)
  datatype LoginRequest = LoginRequest(username: string, password: string)
  datatype RefreshTokenRequest = RefreshTokenRequest(refreshToken: string)
  datatype ReActiveRequest = ReActiveRequest(email: string)

  /** A value put in the `data` map of a success envelope. */
  datatype Value =
    | Text(text: string)
    | Issued(token: Token)
    | Body(request: RefreshTokenRequest)

  const StatusOk: int := 200
  const StatusBadRequest: int := 400

  datatype SuccessResponse = SuccessResponse(status: int, message: string, success: bool, data: map<string, Value>)

  datatype ErrorResponseMap = ErrorResponseMap(status: int, message: string, details: map<string, string>)

  datatype Exception =
    | BadCredentials(message: string)
    | RecordNotFound(message: string)
    | MessageNotReadable(message: string)
    | Failure(message: string)
    | NullPointer

  datatype Response =
    | Ok(body: SuccessResponse)
    | BadRequest(error: ErrorResponseMap)
    | Thrown(exception: Exception)

  /** The success envelope every operation builds: status 200, success set. */
  function Success(message: string, data: map<string, Value>): Response {
    Ok(SuccessResponse(StatusOk, message, true, data))
  }

  /** `r` is a 400 error envelope whose only detail is about `field`. */
  predicate RejectedOn(r: Response, field: string) {
    r.BadRequest? && r.error.status == StatusBadRequest && r.error.details.Keys == {field}
  }
}
