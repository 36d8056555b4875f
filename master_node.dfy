/** The master's node: module-level queue and semaphore fed by
    `MasterServer`, and a main loop that dispatches through `getattr`. */
module MasterNodes {
  import opened Outcomes
  import opened Json
  import opened Bytes
  import opened CommandValidator
  import opened EventHandler
  import opened Nodes
  import Communication

  /** The names `getattr` finds on a `MasterNode`: its methods (the private
      ones under their mangled names), the attributes `__init__` sets, and
      what every object inherits. No command name is among them. */
  const MasterNodeAttributes: set<string> := {
    "main_loop", "run_server", "shutdown_server", "wait_finished",
    "_MasterNode__run_command", "_MasterNode__run_server_thread",
    "host", "port", "server_thread", "server", "workers",
    "__init__", "__class__", "__dict__", "__doc__", "__module__", "__weakref__",
    "__eq__", "__ne__", "__lt__", "__le__", "__gt__", "__ge__", "__hash__",
    "__repr__", "__str__", "__format__", "__dir__", "__sizeof__",
    "__getattribute__", "__setattr__", "__delattr__", "__getstate__",
    "__reduce__", "__reduce_ex__", "__new__", "__init_subclass__", "__subclasshook__"
  }

  /** Validation, then `command["name"]` (outside the `try`), then `getattr`. */
  function MasterRoute(cmd: JsonValue): (r: Route)
    ensures r.Call? ==> r.name in MasterNodeAttributes
  {
    if !ValidateMaster(cmd) then Drop(Invalid(cmd))
    else
      match Subscript(cmd, "name")
      case Raise(e) => Drop(Escaped(e))
      case Ok(v) =>
        MasterName(cmd);
        if v.s in MasterNodeAttributes then Call(Handler("MasterNode", v.s), v.s)
        else Drop(NotImplemented(v.s))
  }

  /** One pass of the master's loop over a dequeued command: the `try`
      swallows AttributeError, the exception a missing attribute raises. */
  function MasterDispatch(cmd: JsonValue, run: (Handler, JsonValue) -> HandlerOutcome): StepResult {
    match MasterRoute(cmd)
    case Drop(r) => r
    case Call(h, name) => Settle(name, run(h, cmd), AttributeError)
  }

  /** `MasterNode` implements none of its commands: no method is ever
      called, a valid named command is reported as not implemented, a valid
      command without `name` escapes with KeyError, and the rest are invalid. */
  lemma MasterNeverDispatches(cmd: JsonValue, run: (Handler, JsonValue) -> HandlerOutcome)
    ensures !MasterRoute(cmd).Call?
    ensures !ValidateMaster(cmd) ==> MasterDispatch(cmd, run) == Invalid(cmd)
    ensures ValidateMaster(cmd) && Subscript(cmd, "name").Raise? ==>
      MasterDispatch(cmd, run) == Escaped(KeyError)
    ensures ValidateMaster(cmd) && Subscript(cmd, "name").Ok? ==>
      Subscript(cmd, "name").value.JString? &&
      MasterDispatch(cmd, run) == NotImplemented(Subscript(cmd, "name").value.s)
  {
    if ValidateMaster(cmd) {
      if !cmd.JObject? {
        NonObjectRejected(cmd, MasterCmdNames);
      } else if Subscript(cmd, "name").Ok? {
        MasterName(cmd);
        CommandNamesAreNotAttributes();
      }
    }
  }

  lemma CommandNamesAreNotAttributes()
    ensures forall n :: n in MasterCmdNames ==> n !in MasterNodeAttributes
  {
  }

  /** `MasterServer.handle`: the same read-strip-store-ACCEPT rule as a
      node's handler, on the module-level queue. */
  method ServerHandle(globals: CommandQueue, request: seq<Byte>, decode: seq<Byte> -> Option<JsonValue>)
    returns (reply: seq<Byte>)
    requires globals.Valid()
    modifies globals
    ensures globals.Valid()
    ensures reply == Communication.Accept
    ensures globals.commands == old(globals.commands) + Parsed(decode(StripBytes(Take(request, RecvSize))))
  {
    reply := globals.Handle(request, decode);
  }

  /** A master: its address, its worker list, and the module-level queue,
      which every `MasterNode` built with the same `globals` shares. */
  class MasterNode {
    const host: string
    const port: int
    const globals: CommandQueue
    var workers: seq<Communication.Communicator>

    constructor (host: string, port: int, globals: CommandQueue)
      ensures this.host == host && this.port == port && this.globals == globals
      ensures workers == []
    {
      this.host := host;
      this.port := port;
      this.globals := globals;
      workers := [];
    }

    /** One pass of `main_loop`; nothing but the shared queue changes. */
    method Step(run: (Handler, JsonValue) -> HandlerOutcome) returns (r: StepResult)
      requires globals.Valid()
      modifies globals
      ensures globals.Valid() && workers == old(workers)
      ensures old(globals.commands) == [] ==> r == Idle && globals.commands == []
      ensures old(globals.commands) != [] ==>
        && r == MasterDispatch(old(globals.commands)[0], run)
        && globals.commands == old(globals.commands)[1..]
    {
      var c := globals.Next();
      match c
      case None => r := Idle;
      case Some(cmd) => r := MasterDispatch(cmd, run);
    }

    /** `main_loop`, with the exit flag found clear `rounds` times: commands
        are handled in queue order, one per pass, until the first escape. */
    method MainLoop(rounds: nat, run: (Handler, JsonValue) -> HandlerOutcome) returns (trace: seq<StepResult>)
      requires globals.Valid()
      modifies globals
      ensures globals.Valid() && workers == old(workers)
      ensures |trace| <= rounds
      ensures forall i | 0 <= i < |trace| ::
        trace[i] == if i < |old(globals.commands)| then MasterDispatch(old(globals.commands)[i], run) else Idle
      ensures forall i | 0 <= i < |trace| - 1 :: !trace[i].Escaped?
      ensures |trace| == rounds || (|trace| > 0 && trace[|trace| - 1].Escaped?)
      ensures globals.commands ==
        old(globals.commands)[if |trace| < |old(globals.commands)| then |trace| else |old(globals.commands)|..]
    {
      trace := [];
      while |trace| < rounds && (|trace| == 0 || !trace[|trace| - 1].Escaped?)
        invariant globals.Valid()
        invariant |trace| <= rounds
        invariant forall i | 0 <= i < |trace| ::
          trace[i] == if i < |old(globals.commands)| then MasterDispatch(old(globals.commands)[i], run) else Idle
        invariant forall i | 0 <= i < |trace| - 1 :: !trace[i].Escaped?
        invariant globals.commands ==
          old(globals.commands)[if |trace| < |old(globals.commands)| then |trace| else |old(globals.commands)|..]
        decreases rounds - |trace|
      {
        ghost var before := globals.commands;
        var r := Step(run);
        TraceStep(old(globals.commands), trace, r, before, globals.commands, c => MasterDispatch(c, run));
        trace := trace + [r];
      }
    }
  }
}
