/** The client side of the wire protocol: one JSON envelope per connection,
    answered by the literal `ACCEPT`. */
module Communication {
  import opened Outcomes
  import opened Json
  import opened Text
  import opened Bytes
  import opened CommandValidator

  const DefaultTimeout: int := 5

  /** `b"ACCEPT"`. */
  const Accept: seq<Byte> := [65, 67, 67, 69, 80, 84]

  /** Which class an endpoint object belongs to: the hand-written equality
      only compares against objects whose class is exactly `Communicator`. */
  datatype PeerClass = CommunicatorClass | MasterClass | WorkerClass

  /** A peer proxy: where it sends from, where it sends to, and its timeout. */
  datatype Communicator = Communicator(
    cls: PeerClass,
    selfHost: string, selfPort: int,
    targetHost: string, targetPort: int,
    timeout: int)

  /** A proxy built with the default timeout. */
  function NewPeer(cls: PeerClass, selfHost: string, selfPort: int, targetHost: string, targetPort: int): (c: Communicator)
    ensures c.timeout == DefaultTimeout == 5
    ensures c.cls == cls && c.selfHost == selfHost && c.selfPort == selfPort
    ensures c.targetHost == targetHost && c.targetPort == targetPort
  {
    Communicator(cls, selfHost, selfPort, targetHost, targetPort, DefaultTimeout)
  }

  predicate SameTarget(a: Communicator, b: Communicator) {
    a.targetHost == b.targetHost && a.targetPort == b.targetPort
  }

  /** The hand-written `__eq__`: against an object of class exactly
      `Communicator` it compares the targets only; against any other object it
      defers to `object.__eq__`, i.e. identity (`None` here). */
  function Eq(self: Communicator, other: Communicator): (r: Option<bool>)
    ensures r.Some? <==> other.cls == CommunicatorClass
    ensures r.Some? ==> (r.value <==> SameTarget(self, other))
  {
    if other.cls == CommunicatorClass then Some(SameTarget(self, other)) else None
  }

  /** `__str__`, and the string `__hash__` hashes: "host:port". */
  function Str(c: Communicator): (s: string)
    ensures |s| > |c.targetHost| && s[..|c.targetHost|] == c.targetHost && s[|c.targetHost|] == ':'
    ensures s[|c.targetHost| + 1..] == IntToString(c.targetPort)
  {
    c.targetHost + ":" + IntToString(c.targetPort)
  }

  /** The printed target determines the target: the port's digits hold no ':'
      so the last ':' separates host from port. */
  lemma StrIdentifies(a: Communicator, b: Communicator)
    ensures Str(a) == Str(b) <==> SameTarget(a, b)
  {
    if Str(a) == Str(b) {
      var s := Str(a);
      var ha, hb := a.targetHost, b.targetHost;
      var pa, pb := IntToString(a.targetPort), IntToString(b.targetPort);
      assert s == ha + ":" + pa == hb + ":" + pb;
      assert ha == s[..|ha|] == hb;
      assert pa == s[|ha| + 1..] == pb;
      IntToStringInjective(a.targetPort, b.targetPort);
    }
  }

  /** `__hash__` agrees with `__eq__`: endpoints that compare equal hash the same string. */
  lemma HashAgreesWithEq(a: Communicator, b: Communicator)
    requires Eq(a, b) == Some(true)
    ensures Str(a) == Str(b)
  {
  }

  /** The envelope `communicate` serialises and sends. */
  function Envelope(c: Communicator, name: string, data: JsonValue): (e: JsonValue)
    ensures e.JObject? && |e.fields| == 4
    ensures Get(e.fields, "host") == Some(JString(c.selfHost))
    ensures Get(e.fields, "port") == Some(JInt(c.selfPort))
    ensures Get(e.fields, "name") == Some(JString(name))
    ensures Get(e.fields, "data") == Some(data)
  {
    var fs := [("host", JString(c.selfHost)), ("port", JInt(c.selfPort)), ("name", JString(name)), ("data", data)];
    assert fs[..3] == [fs[0], fs[1], fs[2]];
    assert fs[..3][..2] == [fs[0], fs[1]];
    assert fs[..3][..2][..1] == [fs[0]];
    JObject(fs)
  }

  /** An envelope with an object payload passes a validator exactly when its
      name is one the validator allows. */
  lemma EnvelopeValidIff(c: Communicator, name: string, data: JsonValue, names: seq<string>)
    requires data.JObject?
    ensures Validate(Envelope(c, name, data), names) <==> name in names
  {
    ValidateIsEnvelope(Envelope(c, name, data), names);
  }

  /** An envelope with an object payload and one of the master's names goes
      to the master's handlers and is refused by a worker's validator. */
  lemma ToMaster(c: Communicator, name: string, data: JsonValue)
    requires data.JObject? && name in MasterCmdNames
    ensures ValidateMaster(Envelope(c, name, data)) && !ValidateWorker(Envelope(c, name, data))
  {
    NamesDisjoint();
    EnvelopeValidIff(c, name, data, MasterCmdNames);
    EnvelopeValidIff(c, name, data, WorkerCmdNames);
  }

  /** Likewise the other way round for the workers' names. */
  lemma ToWorker(c: Communicator, name: string, data: JsonValue)
    requires data.JObject? && name in WorkerCmdNames
    ensures ValidateWorker(Envelope(c, name, data)) && !ValidateMaster(Envelope(c, name, data))
  {
    NamesDisjoint();
    EnvelopeValidIff(c, name, data, WorkerCmdNames);
    EnvelopeValidIff(c, name, data, MasterCmdNames);
  }

  /** What the socket did during one call: the connection could not be made,
      the peer answered with some bytes (the first `recv(512)`), or the
      connection broke after the envelope was sent. */
  datatype Transport = Unreachable(exc: Exc) | Replied(response: seq<Byte>) | Lost(exc: Exc)

  /** What one `communicate` call sent, and whether it returned or raised. */
  datatype Delivery = Delivery(sent: Option<JsonValue>, result: Result<()>)

  /** `communicate`: send the envelope and insist on `ACCEPT` exactly. */
  function Communicate(c: Communicator, name: string, data: JsonValue, t: Transport): (d: Delivery)
    ensures d.sent == if t.Unreachable? then None else Some(Envelope(c, name, data))
    ensures d.result.Ok? <==> t == Replied(Accept)
    ensures t.Replied? && t.response != Accept ==> d.result == Raise(ConnectionError)
    ensures !t.Replied? ==> d.result == Raise(t.exc)
  {
    match t
    case Unreachable(e) => Delivery(None, Raise(e))
    case Lost(e) => Delivery(Some(Envelope(c, name, data)), Raise(e))
    case Replied(bytes) =>
      Delivery(Some(Envelope(c, name, data)), if bytes == Accept then Ok(()) else Raise(ConnectionError))
  }
}
