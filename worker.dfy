/** The master's proxy for one worker: `ping` and `terminate` turn a
    `ConnectionError` into `False`. */
module WorkerClient {
  import opened Outcomes
  import opened Json
  import opened CommandValidator
  import opened Communication

  /** What a proxy call sent and what it returned or raised. */
  datatype Reply = Reply(sent: Option<JsonValue>, result: Result<bool>)

  /** `except ConnectionError: return False`, else `return True`; any other
      exception (a timeout, another OSError) is not caught. */
  function CatchConnectionError(d: Delivery): (r: Reply)
    ensures r.sent == d.sent
    ensures r.result == Ok(true) <==> d.result.Ok?
    ensures r.result == Ok(false) <==> d.result == Raise(ConnectionError)
    ensures r.result.Raise? <==> d.result.Raise? && d.result.exc != ConnectionError
  {
    match d.result
    case Ok(_) => Reply(d.sent, Ok(true))
    case Raise(e) => Reply(d.sent, if e == ConnectionError then Ok(false) else Raise(e))
  }

  /** `ping`: sends "ping" with `{}`. */
  function Ping(w: Communicator, t: Transport): (r: Reply)
    ensures r.sent.Some? ==> r.sent.value == Envelope(w, "ping", JObject([]))
    ensures r.result == Ok(true) <==> t == Replied(Accept)
    ensures r.result == Ok(false) <==>
      (t.Replied? && t.response != Accept) || (!t.Replied? && t.exc == ConnectionError)
  {
    CatchConnectionError(Communicate(w, "ping", JObject([]), t))
  }

  /** `terminate`: sends "terminate" with `{}`. */
  function Terminate(w: Communicator, t: Transport): (r: Reply)
    ensures r.sent.Some? ==> r.sent.value == Envelope(w, "terminate", JObject([]))
    ensures r.result == Ok(true) <==> t == Replied(Accept)
    ensures r.result == Ok(false) <==>
      (t.Replied? && t.response != Accept) || (!t.Replied? && t.exc == ConnectionError)
  {
    CatchConnectionError(Communicate(w, "terminate", JObject([]), t))
  }

  /** Both envelopes pass the worker's validator and fail the master's:
      "ping" ... */
  lemma PingRouted(w: Communicator)
    ensures ValidateWorker(Envelope(w, "ping", JObject([])))
    ensures !ValidateMaster(Envelope(w, "ping", JObject([])))
  {
    ToWorker(w, "ping", JObject([]));
  }

  /** ... and "terminate". */
  lemma TerminateRouted(w: Communicator)
    ensures ValidateWorker(Envelope(w, "terminate", JObject([])))
    ensures !ValidateMaster(Envelope(w, "terminate", JObject([])))
  {
    ToWorker(w, "terminate", JObject([]));
  }
}
