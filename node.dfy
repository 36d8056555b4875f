/** `Node`: a command queue fed by the socket handler's parse-or-drop step,
    and a main loop that takes one command per pass, validates it and runs
    the handler registered under its name. */
module Nodes {
  import opened Outcomes
  import opened Json
  import opened Bytes
  import opened CommandValidator
  import opened EventHandler
  import Communication

  /** `recv(1024)`: the most bytes one request handler reads. */
  const RecvSize: nat := 1024

  /** What a handler call did. */
  datatype HandlerOutcome = Returned | Raised(exc: Exc)

  /** What one pass of a main loop did with the head of the queue. */
  datatype StepResult =
    | Idle                          // the queue was empty
    | Invalid(command: JsonValue)   // validation refused it; no handler ran
    | NotImplemented(name: string)  // no handler, or the handler raised the swallowed exception
    | Handled(name: string)         // the handler returned
    | Escaped(exc: Exc)             // an exception left the main loop, ending it

  /** A command's fate decided before any handler runs. */
  datatype Route = Drop(result: StepResult) | Call(handler: Handler, name: string)

  /** Which `validate_command` the node has: the base class's, or `WorkerNode`'s. */
  datatype Role = BaseRole | WorkerRole

  /** `validate_command`: the base class raises, the worker validates. */
  function ValidateCommand(role: Role, cmd: JsonValue): Result<bool> {
    match role
    case BaseRole => Raise(NotImplementedError)
    case WorkerRole => Ok(ValidateWorker(cmd))
  }

  /** The part of a main-loop pass before the handler: validation, then
      `str(command["name"])` (outside the `try`), then the table lookup. */
  function RouteCommand(role: Role, table: map<string, Handler>, cmd: JsonValue): (r: Route)
    ensures r.Call? ==>
      && role == WorkerRole && ValidateWorker(cmd)
      && Subscript(cmd, "name") == Ok(JString(r.name))
      && r.name in WorkerCmdNames
      && r.name in table && r.handler == table[r.name]
  {
    match ValidateCommand(role, cmd)
    case Raise(e) => Drop(Escaped(e))
    case Ok(valid) =>
      if !valid then Drop(Invalid(cmd))
      else
        match Subscript(cmd, "name")
        case Raise(e) => Drop(Escaped(e))
        case Ok(v) =>
          // a validated name is a string, so `str` leaves it as it is
          WorkerName(cmd);
          if v.s in table then Call(table[v.s], v.s) else Drop(NotImplemented(v.s))
  }

  /** The handler's outcome as the `try` around it sees it: the one
      exception class the `except` names is reported as "not implemented",
      every other one escapes. */
  function Settle(name: string, outcome: HandlerOutcome, swallowed: Exc): StepResult {
    match outcome
    case Returned => Handled(name)
    case Raised(e) => if e == swallowed then NotImplemented(name) else Escaped(e)
  }

  /** One main-loop pass over a dequeued command; `run` says what the
      handler does when called. */
  function Dispatch(role: Role, table: map<string, Handler>, cmd: JsonValue,
                    run: (Handler, JsonValue) -> HandlerOutcome): StepResult
  {
    match RouteCommand(role, table, cmd)
    case Drop(r) => r
    case Call(h, name) => Settle(name, run(h, cmd), KeyError)
  }

  /** The base class cannot validate: every command it dequeues ends the loop. */
  lemma BaseRoleEscapes(table: map<string, Handler>, cmd: JsonValue, run: (Handler, JsonValue) -> HandlerOutcome)
    ensures Dispatch(BaseRole, table, cmd, run) == Escaped(NotImplementedError)
  {
  }

  /** A command the worker's validator refuses is dropped whatever the table
      holds and whatever the handlers would do. */
  lemma InvalidDropped(table: map<string, Handler>, cmd: JsonValue, run: (Handler, JsonValue) -> HandlerOutcome)
    requires !ValidateWorker(cmd)
    ensures Dispatch(WorkerRole, table, cmd, run) == Invalid(cmd)
  {
  }

  /** A handler returns normally exactly when the command is valid, names a
      registered handler, and that handler returns. */
  lemma HandledIff(table: map<string, Handler>, cmd: JsonValue, name: string,
                   run: (Handler, JsonValue) -> HandlerOutcome)
    ensures Dispatch(WorkerRole, table, cmd, run) == Handled(name) <==>
      && ValidateWorker(cmd)
      && Subscript(cmd, "name") == Ok(JString(name))
      && name in table
      && run(table[name], cmd) == Returned
  {
    if ValidateWorker(cmd) && Subscript(cmd, "name") == Ok(JString(name)) {
      WorkerName(cmd);
    }
  }

  /** A valid name with no registered handler is reported as not implemented. */
  lemma UnknownNameDropped(table: map<string, Handler>, cmd: JsonValue, name: string,
                           run: (Handler, JsonValue) -> HandlerOutcome)
    requires ValidateWorker(cmd) && Subscript(cmd, "name") == Ok(JString(name))
    requires name !in table
    ensures Dispatch(WorkerRole, table, cmd, run) == NotImplemented(name)
  {
    WorkerName(cmd);
  }

  /** A KeyError raised inside a handler cannot be told apart from the
      handler being absent. */
  lemma KeyErrorLikeUnknown(table: map<string, Handler>, cmd: JsonValue, name: string,
                            run: (Handler, JsonValue) -> HandlerOutcome)
    requires ValidateWorker(cmd) && Subscript(cmd, "name") == Ok(JString(name))
    requires name in table && run(table[name], cmd) == Raised(KeyError)
    ensures Dispatch(WorkerRole, table, cmd, run) == Dispatch(WorkerRole, table - {name}, cmd, run)
    ensures Dispatch(WorkerRole, table, cmd, run) == NotImplemented(name)
  {
    WorkerName(cmd);
  }

  /** Any other exception from a handler leaves the loop. */
  lemma HandlerExceptionEscapes(table: map<string, Handler>, cmd: JsonValue, name: string, e: Exc,
                                run: (Handler, JsonValue) -> HandlerOutcome)
    requires ValidateWorker(cmd) && Subscript(cmd, "name") == Ok(JString(name))
    requires name in table && run(table[name], cmd) == Raised(e) && e != KeyError
    ensures Dispatch(WorkerRole, table, cmd, run) == Escaped(e)
  {
    WorkerName(cmd);
  }

  /** The validator requires no key, so a valid command without `name` gets
      past validation and then escapes with KeyError; `{}` is one. */
  lemma MissingNameEscapes(table: map<string, Handler>, cmd: JsonValue, run: (Handler, JsonValue) -> HandlerOutcome)
    requires cmd.JObject? && Get(cmd.fields, "name").None?
    ensures ValidateWorker(cmd) ==> Dispatch(WorkerRole, table, cmd, run) == Escaped(KeyError)
    ensures Dispatch(WorkerRole, table, JObject([]), run) == Escaped(KeyError)
  {
    EmptyObjectAccepted(WorkerCmdNames);
  }

  /** The list `put` adds for a parse result: the command, or nothing. */
  function Parsed(o: Option<JsonValue>): seq<JsonValue> {
    if o.Some? then [o.value] else []
  }

  /** The command queue and the semaphore counting its commands. Puts and
      releases happen together and so do acquires and gets, so in this
      sequential model the count is the queue's length. */
  class CommandQueue {
    var commands: seq<JsonValue>
    var permits: nat

    ghost predicate Valid()
      reads this
    {
      permits == |commands|
    }

    constructor ()
      ensures Valid() && commands == []
    {
      commands := [];
      permits := 0;
    }

    /** `store_command`: input `json.loads` accepts goes to the tail and
        releases the semaphore once; input it rejects (a ValueError) is
        dropped and changes nothing. */
    method StoreCommand(raw: seq<Byte>, decode: seq<Byte> -> Option<JsonValue>)
      requires Valid()
      modifies this
      ensures Valid()
      ensures commands == old(commands) + Parsed(decode(raw))
      ensures permits == old(permits) + |Parsed(decode(raw))|
    {
      var parsed := decode(raw);
      if parsed.Some? {
        commands := commands + [parsed.value];
        permits := permits + 1;
      }
    }

    /** The request handler: at most `RecvSize` bytes are read and stripped,
        stored if they parse, and `ACCEPT` is sent back either way. */
    method Handle(request: seq<Byte>, decode: seq<Byte> -> Option<JsonValue>) returns (reply: seq<Byte>)
      requires Valid()
      modifies this
      ensures Valid()
      ensures reply == Communication.Accept
      ensures commands == old(commands) + Parsed(decode(StripBytes(Take(request, RecvSize))))
    {
      var data := StripBytes(Take(request, RecvSize));
      StoreCommand(data, decode);
      reply := Communication.Accept;
    }

    /** The head of a main-loop pass: `acquire`, then `get` unless the queue
        is empty. At most one command leaves, from the head. */
    method Next() returns (c: Option<JsonValue>)
      requires Valid()
      modifies this
      ensures Valid()
      ensures old(commands) == [] ==> c == None && commands == []
      ensures old(commands) != [] ==> c == Some(old(commands)[0]) && commands == old(commands)[1..]
    {
      if permits > 0 {
        permits := permits - 1;
      }
      if |commands| == 0 {
        c := None;
      } else {
        c := Some(commands[0]);
        commands := commands[1..];
      }
    }
  }

  /** A node: its address, its role's validator, its own queue, the shared
      handler table, and its server as far as `set_master` looks at it. */
  class Node {
    const host: string
    const port: int
    const role: Role
    const queue: CommandQueue
    const registry: HandlerRegistry
    var server: Option<(string, int)>
    var serverCreated: bool

    ghost predicate Valid()
      reads this, queue
    {
      queue.Valid()
    }

    constructor (host: string, port: int, role: Role, registry: HandlerRegistry)
      ensures Valid() && fresh(queue) && queue.commands == []
      ensures this.host == host && this.port == port && this.role == role && this.registry == registry
      ensures server == None && !serverCreated
    {
      this.host := host;
      this.port := port;
      this.role := role;
      this.registry := registry;
      this.queue := new CommandQueue();
      server := None;
      serverCreated := false;
    }

    /** What the server thread records once its socket is bound: the server
        (with the address it is bound to), then the `server_created` event. */
    method ServerStarted(address: (string, int))
      modifies this
      ensures server == Some(address) && serverCreated
    {
      server := Some(address);
      serverCreated := true;
    }

    /** One pass of `main_loop`. */
    method Step(run: (Handler, JsonValue) -> HandlerOutcome) returns (r: StepResult)
      requires Valid()
      modifies queue
      ensures Valid()
      ensures old(queue.commands) == [] ==> r == Idle && queue.commands == []
      ensures old(queue.commands) != [] ==>
        && r == Dispatch(role, registry.handlers, old(queue.commands)[0], run)
        && queue.commands == old(queue.commands)[1..]
    {
      var c := queue.Next();
      match c
      case None => r := Idle;
      case Some(cmd) => r := Dispatch(role, registry.handlers, cmd, run);
    }

    /** `main_loop`, with the exit flag found clear `rounds` times before it
        is found set. Pass `i` handles the `i`-th queued command, in order,
        or finds the queue empty; the first escaping exception ends the loop. */
    method MainLoop(rounds: nat, run: (Handler, JsonValue) -> HandlerOutcome) returns (trace: seq<StepResult>)
      requires Valid()
      modifies queue
      ensures Valid()
      ensures |trace| <= rounds
      ensures forall i | 0 <= i < |trace| ::
        trace[i] == if i < |old(queue.commands)| then Dispatch(role, registry.handlers, old(queue.commands)[i], run) else Idle
      ensures forall i | 0 <= i < |trace| - 1 :: !trace[i].Escaped?
      ensures |trace| == rounds || (|trace| > 0 && trace[|trace| - 1].Escaped?)
      ensures queue.commands == old(queue.commands)[if |trace| < |old(queue.commands)| then |trace| else |old(queue.commands)|..]
    {
      trace := [];
      while |trace| < rounds && (|trace| == 0 || !trace[|trace| - 1].Escaped?)
        invariant Valid()
        invariant |trace| <= rounds
        invariant forall i | 0 <= i < |trace| ::
          trace[i] == if i < |old(queue.commands)| then Dispatch(role, registry.handlers, old(queue.commands)[i], run) else Idle
        invariant forall i | 0 <= i < |trace| - 1 :: !trace[i].Escaped?
        invariant queue.commands == old(queue.commands)[if |trace| < |old(queue.commands)| then |trace| else |old(queue.commands)|..]
        decreases rounds - |trace|
      {
        ghost var before := queue.commands;
        ghost var handlers := registry.handlers;
        var r := Step(run);
        TraceStep(old(queue.commands), trace, r, before, queue.commands, c => Dispatch(role, handlers, c, run));
        trace := trace + [r];
      }
    }
  }

  /** One more pass of a main loop: the pass result joins the trace, and the
      queue loses its head if it had one. */
  lemma TraceStep(cmds0: seq<JsonValue>, trace: seq<StepResult>, r: StepResult,
                  before: seq<JsonValue>, after: seq<JsonValue>, f: JsonValue -> StepResult)
    requires forall i | 0 <= i < |trace| :: trace[i] == if i < |cmds0| then f(cmds0[i]) else Idle
    requires forall i | 0 <= i < |trace| - 1 :: !trace[i].Escaped?
    requires |trace| == 0 || !trace[|trace| - 1].Escaped?
    requires before == cmds0[if |trace| < |cmds0| then |trace| else |cmds0|..]
    requires before == [] ==> r == Idle && after == []
    requires before != [] ==> r == f(before[0]) && after == before[1..]
    ensures var t := trace + [r];
      && (forall i | 0 <= i < |t| :: t[i] == if i < |cmds0| then f(cmds0[i]) else Idle)
      && (forall i | 0 <= i < |t| - 1 :: !t[i].Escaped?)
      && after == cmds0[if |t| < |cmds0| then |t| else |cmds0|..]
  {
  }
}
