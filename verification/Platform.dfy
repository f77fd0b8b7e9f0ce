/** Stock option type shared by the modules of the project. */
module Options {
  datatype Option<+T> = None | Some(value: T)
}

/**
 What one request to the learning platform can come back with, and how the
 client reads the answer (internal/platform/http.go, internal/platform/limits.go).
 A response keeps only the parts the client branches on.
 */
module Platform {
  import opened Options

  /** successFalse: the body says "success": false. badCode: a code other than "" and "0".
      hasData: the body has a "data" member that is not null. */
  datatype Body = Body(successFalse: bool, limitedWords: bool, badCode: bool, hasData: bool)

  datatype Response = Response(status: int, json: Option<Body>)

  datatype FaultCode = AccountRequired | AccessDenied | TooFrequent | RemoteError | OtherFault

  datatype Failure = Transport(connected: bool, transient: bool) | Coded(code: FaultCode)

  datatype Outcome = Failed(error: Failure) | Replied(response: Response)

  predicate SaysFailure(r: Response) {
    r.json.Some? && r.json.value.successFalse
  }

  predicate RateLimited(r: Response) {
    r.status != 403 && (r.status == 429 || (SaysFailure(r) && r.json.value.limitedWords))
  }

  /** The error that decoding the response reports, if any. */
  function DataFault(r: Response): Option<FaultCode> {
    if r.status == 401 then Some(AccountRequired)
    else if r.status == 403 then Some(AccessDenied)
    else if RateLimited(r) then Some(TooFrequent)
    else if r.status != 200 || r.json.None? || SaysFailure(r) || r.json.value.badCode then Some(RemoteError)
    else None
  }

  /** What decoding makes of a response: the status decides before the body, and without an
      error the status is 200 and the body says neither failure nor an error code. */
  lemma FaultsAre(r: Response)
    ensures DataFault(r) == None <==>
      r.status == 200 && r.json.Some? && !r.json.value.successFalse && !r.json.value.badCode
    ensures DataFault(r) == Some(AccountRequired) <==> r.status == 401
    ensures DataFault(r) == Some(AccessDenied) <==> r.status == 403
    ensures DataFault(r) == Some(TooFrequent) <==>
      r.status !in {401, 403} &&
      (r.status == 429 || (r.json.Some? && r.json.value.successFalse && r.json.value.limitedWords))
    ensures RateLimited(r) <==>
      r.status != 403 && (r.status == 429 || (r.json.Some? && r.json.value.successFalse && r.json.value.limitedWords))
  {
  }

  predicate HasData(r: Response) {
    r.json.Some? && r.json.value.hasData
  }

  /** The replies by which the platform, or the client before it connected, states that
      the request it ends took no effect. From 500 on an answer states nothing: a submission
      treats it as a lost connection, whatever its body says. */
  predicate Refuses(o: Outcome) {
    match o
    case Failed(Transport(connected, _)) => !connected
    case Failed(Coded(code)) => code == AccountRequired || code == AccessDenied
    case Replied(r) => r.status < 500 && (SaysFailure(r) || r.status in {400, 401, 403, 404, 422, 429})
  }

  /** The platform does not take a request that it refuses. */
  predicate Honest(o: Outcome, took: bool) {
    Refuses(o) ==> !took
  }
}
