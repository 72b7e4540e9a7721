/**
 * The HTTP client wrapper (`RequestAPI._request`, `Constants.HTTP_STATUS_CODES`).
 *
 * The network is an oracle `send`: the response to the n-th attempt of the
 * request.  A response is a status code and a decoded JSON body.
 */
module Http {
  import opened Wrappers

  /** The `range(...)` bound of the attempt loop (`DISCORD_API_RATE_LIMIT`). */
  const RateLimit: nat := 5

  /** The reason phrases the program knows (`HTTP_STATUS_CODES`). */
  const StatusReasons: map<int, string> := map[
    400 := "Bad Request",
    401 := "Unauthorized",
    403 := "Forbidden",
    404 := "Not Found",
    405 := "Method Not Allowed",
    408 := "Request Timeout",
    429 := "Too Many Requests",
    500 := "Internal Server Error",
    501 := "Not Implemented",
    502 := "Bad Gateway",
    503 := "Service Unavailable",
    504 := "Gateway Timeout"
  ]

  datatype Response<T> = Response(status: int, body: T)

  /** Every way the program raises `RequestError`. */
  datatype RequestError =
    | StatusError(status: int, reason: Option<string>)  // a non-200 answer; the reason when the table knows the code
    | InvalidChannelType                                 // the channel is neither GUILD_TEXT nor GUILD_NEWS
    | QuotaExceeded                                      // the playlist insert answered 403
    | UnexpectedApiError(status: int)                    // the playlist insert failed otherwise

  /** What one response turns into: its body on 200, otherwise the error raised at once. */
  function Classify<T>(resp: Response<T>): (r: Result<T, RequestError>)
    ensures r.Success? <==> resp.status == 200
    ensures r.Success? ==> r.value == resp.body
    ensures r.Failure? ==> r.error.StatusError? && r.error.status == resp.status
    ensures r.Failure? ==> (r.error.reason.Some? <==> resp.status in StatusReasons)
    ensures r.Failure? && resp.status in StatusReasons ==> r.error.reason == Some(StatusReasons[resp.status])
  {
    if resp.status == 200 then Success(resp.body)
    else if resp.status in StatusReasons then Failure(StatusError(resp.status, Some(StatusReasons[resp.status])))
    else Failure(StatusError(resp.status, None))
  }

  /**
   * The attempt loop of `_request`.  Every branch of its body leaves the loop,
   * so exactly one request is sent and its response alone decides the outcome:
   * the loop never retries.
   */
  method Request<T>(send: nat -> Response<T>) returns (r: Result<T, RequestError>, sent: nat)
    ensures sent == 1
    ensures r == Classify(send(0))
  {
    sent := 0;
    for attempt := 0 to RateLimit
      invariant attempt == 0 && sent == 0
    {
      var resp := send(attempt);
      sent := sent + 1;
      if resp.status == 200 {
        return Success(resp.body), sent;
      } else if resp.status in StatusReasons {
        return Failure(StatusError(resp.status, Some(StatusReasons[resp.status]))), sent;
      } else {
        return Failure(StatusError(resp.status, None)), sent;
      }
    }
    assert false;
  }
}
