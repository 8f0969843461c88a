/** The authenticated request helper: every reply whose status is a client
    or server error is turned into an HttpError carrying that status. */
module Transport {
  import opened Values

  /** An HTTP reply that arrived: its status code and its decoded JSON body. */
  datatype Response = Response(code: int, body: Dict)

  /** The statuses raise_for_status rejects. */
  predicate IsErrorStatus(code: int) {
    400 <= code < 600
  }

  /** make_authenticated_request: the reply, or the exception it raises. */
  function Request(reply: Result<Response>): (r: Result<Response>)
    ensures r.Ok? <==> reply.Ok? && !IsErrorStatus(reply.value.code)
    ensures r.Ok? ==> r == reply
    ensures reply.Ok? && IsErrorStatus(reply.value.code) ==> r == Err(HttpError(reply.value.code))
    ensures reply.Err? ==> r == reply
  {
    match reply
    case Err(_) => reply
    case Ok(resp) => if IsErrorStatus(resp.code) then Err(HttpError(resp.code)) else reply
  }
}
