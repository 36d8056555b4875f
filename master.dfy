/** The worker's proxy for its master: three fixed commands, each a single
    `communicate` call whose failure reaches the caller unchanged. */
module MasterClient {
  import opened Outcomes
  import opened Json
  import opened CommandValidator
  import opened Communication

  /** `Master(server_host, server_port, host, port)`. */
  function NewMaster(selfHost: string, selfPort: int, host: string, port: int): (m: Communicator)
    ensures m.cls == MasterClass && m.timeout == DefaultTimeout
    ensures m.selfHost == selfHost && m.selfPort == selfPort && m.targetHost == host && m.targetPort == port
  {
    NewPeer(MasterClass, selfHost, selfPort, host, port)
  }

  /** `connect`: sends "connect" with the default payload `{}`. */
  function Connect(m: Communicator, t: Transport): (d: Delivery)
    ensures d.sent.Some? ==> d.sent.value == Envelope(m, "connect", JObject([]))
    ensures d.result.Ok? <==> t == Replied(Accept)
  {
    Communicate(m, "connect", JObject([]), t)
  }

  /** `disconnect`: sends "disconnect" with the default payload `{}`. */
  function Disconnect(m: Communicator, t: Transport): (d: Delivery)
    ensures d.sent.Some? ==> d.sent.value == Envelope(m, "disconnect", JObject([]))
    ensures d.result.Ok? <==> t == Replied(Accept)
  {
    Communicate(m, "disconnect", JObject([]), t)
  }

  /** `task_done(f)`: sends "task_done" with `{"output": f}`. */
  function TaskDone(m: Communicator, outputFile: string, t: Transport): (d: Delivery)
    ensures d.sent.Some? ==> d.sent.value == Envelope(m, "task_done", JObject([("output", JString(outputFile))]))
    ensures d.result.Ok? <==> t == Replied(Accept)
  {
    Communicate(m, "task_done", JObject([("output", JString(outputFile))]), t)
  }

  /** None of the three catches anything: whatever `communicate` raises, the
      caller sees. */
  lemma FailuresPropagate(m: Communicator, f: string, t: Transport)
    ensures Connect(m, t).result == Communicate(m, "connect", JObject([]), t).result
    ensures Disconnect(m, t).result == Communicate(m, "disconnect", JObject([]), t).result
    ensures TaskDone(m, f, t).result == Communicate(m, "task_done", JObject([("output", JString(f))]), t).result
    ensures t.Replied? && t.response != Accept ==>
      Connect(m, t).result == Disconnect(m, t).result == TaskDone(m, f, t).result == Raise(ConnectionError)
  {
  }

  /** Every envelope the master proxy sends passes the master's validator and
      fails the worker's: "connect", ... */
  lemma ConnectRouted(m: Communicator)
    ensures ValidateMaster(Envelope(m, "connect", JObject([])))
    ensures !ValidateWorker(Envelope(m, "connect", JObject([])))
  {
    ToMaster(m, "connect", JObject([]));
  }

  /** ... "disconnect", ... */
  lemma DisconnectRouted(m: Communicator)
    ensures ValidateMaster(Envelope(m, "disconnect", JObject([])))
    ensures !ValidateWorker(Envelope(m, "disconnect", JObject([])))
  {
    ToMaster(m, "disconnect", JObject([]));
  }

  /** ... and "task_done". */
  lemma TaskDoneRouted(m: Communicator, f: string)
    ensures ValidateMaster(Envelope(m, "task_done", JObject([("output", JString(f))])))
    ensures !ValidateWorker(Envelope(m, "task_done", JObject([("output", JString(f))])))
  {
    ToMaster(m, "task_done", JObject([("output", JString(f))]));
  }
}
