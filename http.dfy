/** The JSON responses the two form endpoints send. */
module Http {
  import opened Wrappers

  datatype Payload =
    | Failure(error: string)
    | Invalid(error: string, details: seq<string>)
    | Success(message: string, via: Option<string>, note: Option<string>)

  datatype Response = Response(status: nat, payload: Payload)

  const MethodNotAllowed := Response(405, Failure("Method not allowed"))
  const TooManyRequests := Response(429, Failure("Too many requests. Please try again later."))
  const InternalError := Response(500, Failure("Internal server error"))
}
