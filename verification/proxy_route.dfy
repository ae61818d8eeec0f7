/** The same-origin `POST /api/predict` route of the frontend: it forwards
    the request body to the backend and maps what comes back to a reply.
    The outbound fetch is a parameter (`backend`) from the body sent to
    what the fetch produced. */
module ProxyRoute {
  import opened Wrappers
  import opened Json

  /** Error text when the backend answered with a non-2xx status. */
  const BackendServiceError: string := "Backend service error"

  /** Error text when anything on the way threw. */
  const ReachError: string := "Failed to reach backend service"

  /** What the fetch to the backend produced: a response with its status
      and its body read as JSON (None when `response.json()` throws), or a
      failure to get any response. */
  datatype Upstream = Responded(status: int, body: Option<Json>) | Unreachable

  /** `response.ok`: the status is in the range 200 to 299. */
  predicate IsOk(status: int) {
    200 <= status <= 299
  }

  /** A status the Fetch standard's `Response` constructor accepts together
      with a body, and so one `NextResponse.json` can reply with: in the
      range 200 to 599 and not one of the null-body statuses 204, 205 and
      304. Any other status makes the call throw. */
  predicate AcceptsBody(status: int) {
    200 <= status <= 599 && status != 204 && status != 205 && status != 304
  }

  datatype Reply = Reply(status: int, body: Json)

  /** One run of the route: the body sent to the backend (None when the
      route never got as far as the fetch) and the reply. */
  datatype Exchange = Exchange(forwarded: Option<Json>, reply: Reply)

  /** The reply for a backend outcome, once a body has been sent. An ok
      response is re-emitted with `NextResponse.json`'s default status 200.
      A non-ok status is passed on with the service error when a reply may
      carry it; otherwise (304, or a status outside 200 to 599) building that
      reply throws inside the try block and the catch answers 500. */
  function Relay(outcome: Upstream): (reply: Reply)
    ensures outcome.Unreachable? ==> reply == Reply(500, FailureBody(ReachError))
    ensures outcome.Responded? && !IsOk(outcome.status) && AcceptsBody(outcome.status) ==>
              reply == Reply(outcome.status, FailureBody(BackendServiceError))
    ensures outcome.Responded? && !IsOk(outcome.status) && !AcceptsBody(outcome.status) ==>
              reply == Reply(500, FailureBody(ReachError))
    ensures outcome.Responded? && IsOk(outcome.status) && outcome.body.None? ==>
              reply == Reply(500, FailureBody(ReachError))
    ensures outcome.Responded? && IsOk(outcome.status) && outcome.body.Some? ==>
              reply == Reply(200, outcome.body.value)
  {
    match outcome
    case Unreachable => Reply(500, FailureBody(ReachError))
    case Responded(status, body) =>
      if !IsOk(status) then
        if AcceptsBody(status) then Reply(status, FailureBody(BackendServiceError))
        else Reply(500, FailureBody(ReachError))
      else
        match body
        case None => Reply(500, FailureBody(ReachError))
        case Some(data) => Reply(200, data)
  }

  /** POST. `request` is the incoming body read as JSON (None when
      `request.json()` throws); `backend` stands for the fetch. */
  function Post(request: Option<Json>, backend: Json -> Upstream): (x: Exchange)
    ensures x.forwarded == request
    ensures request.None? ==> x.reply == Reply(500, FailureBody(ReachError))
    ensures request.Some? ==> x.reply == Relay(backend(request.value))
  {
    match request
    case None => Exchange(None, Reply(500, FailureBody(ReachError)))
    case Some(body) => Exchange(Some(body), Relay(backend(body)))
  }

  /** Every reply is either the backend's own body, passed through with
      status 200 after an ok response, or a failure body whose `success` is
      false; in particular any status other than 200 carries a failure body. */
  lemma ReplyIsPassThroughOrFailure(request: Option<Json>, backend: Json -> Upstream)
    ensures var x := Post(request, backend);
            || IsFailureBody(x.reply.body)
            || (&& x.reply.status == 200
                && request.Some?
                && backend(request.value).Responded?
                && IsOk(backend(request.value).status)
                && backend(request.value).body == Some(x.reply.body))
    ensures Post(request, backend).reply.status != 200 ==> IsFailureBody(Post(request, backend).reply.body)
  {
  }

  /** A non-ok status is passed on unchanged exactly when a reply may carry
      it (a 304 becomes a 500), while an ok status other than 200 (say 201)
      is not passed on: the reply then says 200. Every reply status is one a
      reply may carry. */
  lemma StatusRelay(request: Json, backend: Json -> Upstream)
    requires backend(request).Responded?
    ensures var st := backend(request).status;
            var x := Post(Some(request), backend);
            && (!IsOk(st) ==> (x.reply.status == st <==> AcceptsBody(st)))
            && (IsOk(st) && backend(request).body.Some? ==> x.reply.status == 200)
            && AcceptsBody(x.reply.status)
  {
  }
}
