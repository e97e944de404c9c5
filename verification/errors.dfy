/** The closed set of failures the core raises. API errors carry the HTTP
    status (0 when no response arrived) and, when the error body decoded,
    that body. */
module Errors {
  import opened Results
  import opened JsonValues

  datatype ErrorKind =
    | InvalidArgument      // InvalidArgumentException: misuse caught before any request
    | ConnectionError      // Error\ApiConnectionError: the transport failed
    | AuthenticationError  // Error\AuthenticationError
    | InvalidRequest       // Error\InvalidRequest
    | RateLimitError       // Error\RateLimitError
    | ApiError             // Error\ApiError
    | UndefinedProperty    // the plain Exception thrown by reading a missing field
    | TypeError            // PHP's TypeError when a non-array body reaches the Object constructor

  /** A raised error. `message` is a JSON value because the errors built
      from a decoded error body carry whatever its "message" member holds. */
  datatype Error = Error(kind: ErrorKind, message: Json, code: int, body: Option<Json>)

  /** Errors that come from the remote API, as opposed to local misuse. */
  predicate FromApi(k: ErrorKind) {
    k in {ConnectionError, AuthenticationError, InvalidRequest, RateLimitError, ApiError}
  }

  function LocalError(kind: ErrorKind, message: string): (e: Error)
    requires !FromApi(kind)
    ensures !FromApi(e.kind) && e.code == 0 && e.body == None
  {
    Error(kind, JString(message), 0, None)
  }
}
