/**
 * The HTTP side as the client sees it: a response reduced to what the
 * classification reads, the outcome of the transport step, and what a call
 * ends in (a value, or the exception it raises).
 */
module Http {
  import opened Wrappers
  import opened Json
  import opened Exceptions

  /** Python errors raised by the code itself rather than by the library's own classes. */
  datatype Fault =
    | TypeError            // `in` or `timedelta` on a value of the wrong type
    | AttributeError       // `.get` on a value that is not a dict
    | KeyError(key: string)
    | ValueError           // `int()` of text that is not an integer
    | JsonDecodeError      // `response.json()` on a body that is not JSON

  /** What a call can raise. */
  datatype Exception =
    | Iol(error: IolError)         // one of the library's own errors
    | HttpError(status: int)       // requests.HTTPError from `raise_for_status()`
    | Runtime(fault: Fault)

  datatype Outcome<+T> = Ok(value: T) | Raise(exc: Exception)

  /**
   * A received response: its status, its `Retry-After` header (looked up
   * case-insensitively by the library) and its body, None when the body does
   * not decode as JSON.
   */
  datatype Response = Response(status: int, retryAfter: Option<string>, body: Option<Json>)

  /** The transport step: a requests exception (connection, timeout, ...) or a response. */
  datatype Transport = TransportFailed(cause: Cause) | Got(response: Response)

  /** The statuses `raise_for_status()` rejects: client and server errors. */
  predicate IsErrorStatus(status: int): (b: bool)
    ensures 200 <= status < 400 ==> !b
    ensures status == 401 || status == 429 || status == 500 ==> b
  {
    400 <= status < 600
  }

  /** `response.json()`. */
  function DecodeBody(resp: Response): (r: Outcome<Json>)
    ensures r.Ok? <==> resp.body.Some?
    ensures r.Ok? ==> r.value == resp.body.value
    ensures r.Raise? ==> r.exc == Runtime(JsonDecodeError)
  {
    match resp.body
    case Some(data) => Ok(data)
    case None => Raise(Runtime(JsonDecodeError))
  }

  /** `except handler:` catches what a call raised; HTTPError and Python's own errors are outside the hierarchy. */
  predicate Handles(handler: ErrorClass, x: Exception)
  {
    x.Iol? && Catches(handler, x.error)
  }

  lemma OnlyIolErrorsAreHandled(handler: ErrorClass, x: Exception)
    ensures Handles(handler, x) ==> Handles(IOLError, x)
    ensures x.HttpError? || x.Runtime? ==> !Handles(handler, x)
  {
    if Handles(handler, x) {
      EveryErrorIsIolError(x.error);
    }
  }
}
