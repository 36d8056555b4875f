/** `WorkerNode`: a node that validates with the worker's command names,
    knows its master, and registers the `ping`, `map` and `reduce` handlers
    in the shared handler table. */
module WorkerNodes {
  import opened Outcomes
  import opened Json
  import opened Text
  import opened Tables
  import opened Files
  import opened CommandValidator
  import opened EventHandler
  import opened Communication
  import opened MasterClient
  import opened Nodes
  import opened SourceWrapping
  import opened ReduceTasks

  const PingHandler: Handler := Handler("WorkerNode", "ping")
  const MapHandler: Handler := Handler("WorkerNode", "map")
  const ReduceHandler: Handler := Handler("WorkerNode", "reduce")

  /** The handler table after the `WorkerNode` class body ran its three
      `@event_handler` decorations, in definition order. */
  function WorkerTable(table: map<string, Handler>): (r: map<string, Handler>)
    ensures r.Keys == table.Keys + {"ping", "map", "reduce"}
    ensures r["ping"] == PingHandler && r["map"] == MapHandler && r["reduce"] == ReduceHandler
    ensures forall k :: k in table && k !in {"ping", "map", "reduce"} ==> r[k] == table[k]
  {
    Register(Register(Register(table, PingHandler), MapHandler), ReduceHandler)
  }

  /** Each entry of the worker's table sits under its own function's name. */
  predicate NamedByFunction(table: map<string, Handler>) {
    forall k :: k in table ==> table[k].fnName == k
  }

  lemma WorkerTableNamedByFunction()
    ensures NamedByFunction(WorkerTable(map[]))
  {
    var t := WorkerTable(map[]);
    forall k | k in t ensures t[k].fnName == k {
      assert k in {"ping", "map", "reduce"};
    }
  }

  /** Defining the class: `__set_name__` for each decorated method. */
  method DefineWorkerNode(registry: HandlerRegistry)
    modifies registry
    ensures registry.handlers == WorkerTable(old(registry.handlers))
    ensures registry.attributes == old(registry.attributes)
      [("WorkerNode", "ping") := PingHandler]
      [("WorkerNode", "map") := MapHandler]
      [("WorkerNode", "reduce") := ReduceHandler]
  {
    registry.SetName("WorkerNode", "ping", PingHandler);
    registry.SetName("WorkerNode", "map", MapHandler);
    registry.SetName("WorkerNode", "reduce", ReduceHandler);
  }

  // ---------------------------------------------------------------------
  // Output file names

  /** `f"{os.path.dirname(input_file)}/{command['name']}_{hash(self)}.txt"`. */
  function OutputPath(inputFile: string, name: string, identity: int): string {
    Dirname(inputFile) + "/" + name + "_" + IntToString(identity) + ".txt"
  }

  /** The input's base name plays no part: two tasks of one kind on one node
      over files of one directory write the same output file. */
  lemma OutputPathIgnoresBasename(dir: string, a: string, b: string, name: string, identity: int)
    requires forall i :: 0 <= i < |a| ==> a[i] != '/'
    requires forall i :: 0 <= i < |b| ==> b[i] != '/'
    requires dir == [] || dir[|dir| - 1] != '/'
    ensures OutputPath(dir + "/" + a, name, identity) == OutputPath(dir + "/" + b, name, identity)
  {
    DirnameOfJoin(dir, a);
    DirnameOfJoin(dir, b);
  }

  /** The output file lies in the input's directory; a bare file name (no
      directory) sends it to the root directory "/". */
  lemma OutputPathDirectory(inputFile: string, name: string, identity: int)
    requires forall i :: 0 <= i < |name| ==> name[i] != '/'
    requires var d := Dirname(inputFile); d == [] || d[|d| - 1] != '/'
    ensures Dirname(OutputPath(inputFile, name, identity)) == if Dirname(inputFile) == [] then "/" else Dirname(inputFile)
  {
    var file := name + "_" + IntToString(identity) + ".txt";
    var digits := IntToString(identity);
    forall i | 0 <= i < |file| ensures file[i] != '/' {
      if |name| + 1 <= i < |name| + 1 + |digits| {
        assert file[i] == digits[i - |name| - 1];
      }
    }
    assert OutputPath(inputFile, name, identity) == Dirname(inputFile) + "/" + file;
    DirnameOfJoin(Dirname(inputFile), file);
  }

  /** Nodes with different identities never share an output file. */
  lemma OutputPathIdentifiesNode(inputFile: string, name: string, a: int, b: int)
    requires OutputPath(inputFile, name, a) == OutputPath(inputFile, name, b)
    ensures a == b
  {
    var prefix := Dirname(inputFile) + "/" + name + "_";
    var pa := OutputPath(inputFile, name, a);
    var sa, sb := IntToString(a), IntToString(b);
    assert pa == prefix + sa + ".txt";
    assert OutputPath(inputFile, name, b) == prefix + sb + ".txt";
    assert |sa| == |sb|;
    assert sa == pa[|prefix|..|prefix| + |sa|];
    assert sb == pa[|prefix|..|prefix| + |sb|];
    IntToStringInjective(a, b);
  }

  // ---------------------------------------------------------------------
  // Handlers

  /** What a handler's surroundings decide: whether a source text compiles,
      what the loaded reduce function emits, and what the socket does for
      the `task_done` report. */
  datatype Env = Env(compiles: string -> bool, behaviour: ReduceBehaviour, transport: Transport)

  /** A handler call: its outcome, the file system after it, and the
      envelope it sent to the master, if any. */
  datatype TaskRun = TaskRun(outcome: HandlerOutcome, fs: FileSystem, sent: Option<JsonValue>)

  /** `command["data"][function_key]` and then `command["data"]["filename"]`. */
  function TaskArgs(cmd: JsonValue, functionKey: string): (r: Result<(JsonValue, JsonValue)>)
    ensures r.Ok? <==>
      && Subscript(cmd, "data").Ok?
      && Subscript(Subscript(cmd, "data").value, functionKey).Ok?
      && Subscript(Subscript(cmd, "data").value, "filename").Ok?
    ensures r.Ok? ==>
      && r.value.0 == Subscript(Subscript(cmd, "data").value, functionKey).value
      && r.value.1 == Subscript(Subscript(cmd, "data").value, "filename").value
    ensures r.Raise? ==> r.exc in {KeyError, TypeError}
  {
    var data :- Subscript(cmd, "data");
    var f :- Subscript(data, functionKey);
    var file :- Subscript(data, "filename");
    Ok((f, file))
  }

  /** The exception the `map` handler raises. It never returns: after its
      checks it calls `MapTask()` without the required `map_func` argument. */
  function MapOutcome(master: Option<Communicator>, cmd: JsonValue): (e: Exc)
    ensures master.None? ==> e == AttributeError
    ensures master.Some? && TaskArgs(cmd, "map_function").Raise? ==> e == TaskArgs(cmd, "map_function").exc
    ensures e in {AttributeError, KeyError, TypeError}
  {
    if master.None? then AttributeError
    else match TaskArgs(cmd, "map_function")
      case Raise(e) => e
      case Ok((_, file)) =>
        // `os.path.dirname` of a non-string is a TypeError, and so is `MapTask()`
        TypeError
  }

  /** The `reduce` handler, as a function of the node's master and identity,
      the command and its surroundings. */
  function ReduceSpec(master: Option<Communicator>, identity: int, cmd: JsonValue, fs: FileSystem, env: Env): (t: TaskRun)
    ensures master.None? ==> t == TaskRun(Raised(AttributeError), fs, None)
    ensures t.outcome == Returned ==> t.sent.Some? && t.sent.value.JObject?
  {
    if master.None? then TaskRun(Raised(AttributeError), fs, None)
    else match TaskArgs(cmd, "reduce_function")
      case Raise(e) => TaskRun(Raised(e), fs, None)
      case Ok((fv, iv)) =>
        if !iv.JString? then TaskRun(Raised(TypeError), fs, None)
        else
          var output := OutputPath(iv.s, "reduce", identity);
          if !fv.JString? then TaskRun(Raised(AttributeError), fs, None)        // no `.replace`
          else if !env.compiles(ReduceSource(fv.s)) then TaskRun(Raised(SyntaxError), fs, None)
          else match LoadJson(fs, iv.s)
            case Raise(e) => TaskRun(Raised(e), fs, None)
            case Ok(data) =>
              if !data.JObject? then TaskRun(Raised(AttributeError), fs, None)  // no `.items`
              else
                var results := ReduceAll(Empty(), Items(data.fields), Loaded(ReduceSource(fv.s)), env.behaviour);
                match DumpJson(fs, output, TableJson(results))
                case Raise(e) => TaskRun(Raised(e), fs, None)
                case Ok(written) =>
                  var d := TaskDone(master.value, output, env.transport);
                  TaskRun(if d.result.Ok? then Returned else Raised(d.result.exc), written, d.sent)
  }

  /** What calling handler `h` on `cmd` does: `ping` does nothing; no other
      function is in the worker's table. */
  function HandlerSpec(master: Option<Communicator>, identity: int, h: Handler, cmd: JsonValue,
                       fs: FileSystem, env: Env): TaskRun
  {
    if h == MapHandler then TaskRun(Raised(MapOutcome(master, cmd)), fs, None)
    else if h == ReduceHandler then ReduceSpec(master, identity, cmd, fs, env)
    else TaskRun(Returned, fs, None)
  }

  /** The handlers' outcomes, as the node's dispatch sees them. */
  function HandlerOutcomes(master: Option<Communicator>, identity: int, fs: FileSystem, env: Env): (Handler, JsonValue) -> HandlerOutcome {
    (h: Handler, c: JsonValue) => HandlerSpec(master, identity, h, c, fs, env).outcome
  }

  /** One pass of the worker's main loop over a dequeued command. */
  datatype Pass = Pass(result: StepResult, fs: FileSystem, sent: Option<JsonValue>)

  function WorkerPass(master: Option<Communicator>, identity: int, table: map<string, Handler>,
                      cmd: JsonValue, fs: FileSystem, env: Env): (p: Pass)
    ensures p.result == Dispatch(WorkerRole, table, cmd, HandlerOutcomes(master, identity, fs, env))
    ensures RouteCommand(WorkerRole, table, cmd).Drop? ==> p.fs == fs && p.sent == None
  {
    match RouteCommand(WorkerRole, table, cmd)
    case Drop(r) => Pass(r, fs, None)
    case Call(h, name) =>
      var t := HandlerSpec(master, identity, h, cmd, fs, env);
      Pass(Settle(name, t.outcome, KeyError), t.fs, t.sent)
  }

  // ---------------------------------------------------------------------
  // What the handlers do to a dispatched command

  /** A validated `terminate` finds no handler: it is reported as not
      implemented and nothing else happens. */
  lemma TerminateNotImplemented(master: Option<Communicator>, identity: int, cmd: JsonValue, fs: FileSystem, env: Env)
    requires ValidateWorker(cmd) && Subscript(cmd, "name") == Ok(JString("terminate"))
    ensures WorkerPass(master, identity, WorkerTable(map[]), cmd, fs, env) == Pass(NotImplemented("terminate"), fs, None)
  {
    assert "terminate" !in WorkerTable(map[]);
  }

  /** A validated `ping` is handled and does nothing. */
  lemma PingHandled(master: Option<Communicator>, identity: int, cmd: JsonValue, fs: FileSystem, env: Env)
    requires ValidateWorker(cmd) && Subscript(cmd, "name") == Ok(JString("ping"))
    ensures WorkerPass(master, identity, WorkerTable(map[]), cmd, fs, env) == Pass(Handled("ping"), fs, None)
  {
    assert "ping" in WorkerTable(map[]);
  }

  /** A validated `map` is never handled: a missing `data`, `map_function`
      or `filename` is swallowed as "not implemented", and everything else
      ends the loop, with TypeError once the master is set and the keys are there. */
  lemma MapNeverHandled(master: Option<Communicator>, identity: int, cmd: JsonValue, fs: FileSystem, env: Env)
    requires ValidateWorker(cmd) && Subscript(cmd, "name") == Ok(JString("map"))
    ensures var p := WorkerPass(master, identity, WorkerTable(map[]), cmd, fs, env);
      && p.fs == fs && p.sent == None
      && p.result == (if MapOutcome(master, cmd) == KeyError then NotImplemented("map") else Escaped(MapOutcome(master, cmd)))
    ensures master.Some? && TaskArgs(cmd, "map_function").Ok? ==>
      WorkerPass(master, identity, WorkerTable(map[]), cmd, fs, env).result == Escaped(TypeError)
  {
    assert "map" in WorkerTable(map[]);
  }

  /** A `reduce` before `set_master` ends the loop with AttributeError
      before the command's data is read. */
  lemma ReduceNeedsMaster(identity: int, cmd: JsonValue, fs: FileSystem, env: Env)
    requires ValidateWorker(cmd) && Subscript(cmd, "name") == Ok(JString("reduce"))
    ensures WorkerPass(None, identity, WorkerTable(map[]), cmd, fs, env) == Pass(Escaped(AttributeError), fs, None)
  {
    assert "reduce" in WorkerTable(map[]);
  }

  /** A `reduce` whose `data` lacks `reduce_function` or `filename` raises
      KeyError in the handler, which the loop swallows. */
  lemma ReduceMissingKeySwallowed(master: Communicator, identity: int, cmd: JsonValue, fs: FileSystem, env: Env)
    requires ValidateWorker(cmd) && Subscript(cmd, "name") == Ok(JString("reduce"))
    requires TaskArgs(cmd, "reduce_function") == Raise(KeyError)
    ensures WorkerPass(Some(master), identity, WorkerTable(map[]), cmd, fs, env) == Pass(NotImplemented("reduce"), fs, None)
  {
    assert "reduce" in WorkerTable(map[]);
  }

  /** What the loaded function emitted for key `k` of an input object's
      members: nothing when the object has no such key. */
  function KeyEmissions(fields: seq<(string, JsonValue)>, k: string, call: Callable, behaviour: ReduceBehaviour): seq<string> {
    match Get(fields, k)
    case None => []
    case Some(v) => ReduceEmissions(call, k, v, behaviour)
  }

  /** The results of one call per key of an object, written as JSON, hold
      under each key exactly what that key's call emitted, and hold a key
      only if its call emitted something. */
  lemma ResultsPerKey(fields: seq<(string, JsonValue)>, call: Callable, behaviour: ReduceBehaviour, k: string)
    ensures var emitted := KeyEmissions(fields, k, call, behaviour);
      Get(TableJson(ReduceAll(Empty(), Items(fields), call, behaviour)).fields, k) ==
        (if emitted != [] then Some(StringsJson(emitted)) else None)
  {
    var items := Items(fields);
    var results := ReduceAll(Empty(), items, call, behaviour);
    TableJsonGet(results, k);
    assert forall i :: 0 <= i < |items| ==> items[i].0 == KeysOf(fields)[i];
    ReduceAllPerKey(items, call, behaviour);
    ReduceAllOnlyEmitted(items, call, behaviour);
    var emitted := KeyEmissions(fields, k, call, behaviour);
    if Get(fields, k).Some? {
      assert k in KeysOf(fields);
      var i :| 0 <= i < |KeysOf(fields)| && KeysOf(fields)[i] == k;
      assert items[i] == (k, Get(fields, k).value);
      if emitted != [] {
        assert k in results.entries && results.entries[k] == emitted;
      } else {
        forall j | 0 <= j < |items| && items[j].0 == k ensures ReduceEmissions(call, k, items[j].1, behaviour) == [] {
          assert items[j].1 == Get(fields, k).value;
        }
        assert !Emitted(items, k, call, behaviour);
      }
    } else {
      forall j | 0 <= j < |items| ensures items[j].0 != k {
        assert Get(fields, items[j].0).Some?;
      }
      assert !Emitted(items, k, call, behaviour);
    }
  }

  /** A `reduce` that returns has written its results to the output file,
      and reported that file to the master. */
  lemma ReduceReturned(master: Communicator, identity: int, cmd: JsonValue, fs: FileSystem, env: Env,
                       source: string, inputFile: string, fields: seq<(string, JsonValue)>)
    requires TaskArgs(cmd, "reduce_function") == Ok((JString(source), JString(inputFile)))
    requires LoadJson(fs, inputFile) == Ok(JObject(fields))
    requires ReduceSpec(Some(master), identity, cmd, fs, env).outcome == Returned
    ensures var output := OutputPath(inputFile, "reduce", identity);
      var results := ReduceAll(Empty(), Items(fields), Loaded(ReduceSource(source)), env.behaviour);
      && DumpJson(fs, output, TableJson(results)).Ok?
      && ReduceSpec(Some(master), identity, cmd, fs, env) ==
           TaskRun(Returned, DumpJson(fs, output, TableJson(results)).value,
                   Some(Envelope(master, "task_done", JObject([("output", JString(output))]))))
  {
  }

  /** A `reduce` that returns has run the loaded function once per key of the
      input object and written, to the output file only, every key whose call
      emitted something with exactly what it emitted, and no other key; then
      it reported that file to the master. */
  lemma ReduceStoresPerKey(master: Communicator, identity: int, cmd: JsonValue, fs: FileSystem, env: Env,
                           source: string, inputFile: string, fields: seq<(string, JsonValue)>, k: string)
    requires TaskArgs(cmd, "reduce_function") == Ok((JString(source), JString(inputFile)))
    requires LoadJson(fs, inputFile) == Ok(JObject(fields))
    requires ReduceSpec(Some(master), identity, cmd, fs, env).outcome == Returned
    ensures var t := ReduceSpec(Some(master), identity, cmd, fs, env);
      var output := OutputPath(inputFile, "reduce", identity);
      var emitted := KeyEmissions(fields, k, Loaded(ReduceSource(source)), env.behaviour);
      && (forall p :: p != output ==> LoadJson(t.fs, p) == LoadJson(fs, p))
      && LoadJson(t.fs, output).Ok? && LoadJson(t.fs, output).value.JObject?
      && Get(LoadJson(t.fs, output).value.fields, k) == (if emitted != [] then Some(StringsJson(emitted)) else None)
      && t.sent == Some(Envelope(master, "task_done", JObject([("output", JString(output))])))
  {
    var output := OutputPath(inputFile, "reduce", identity);
    var call := Loaded(ReduceSource(source));
    var j := TableJson(ReduceAll(Empty(), Items(fields), call, env.behaviour));
    ReduceReturned(master, identity, cmd, fs, env, source, inputFile, fields);
    LoadAfterDump(fs, output, j, k);
    forall p | p != output ensures LoadJson(DumpJson(fs, output, j).value, p) == LoadJson(fs, p) {
      LoadAfterDump(fs, output, j, p);
    }
    ResultsPerKey(fields, call, env.behaviour, k);
  }

  /** The `for key, values in data.items()` loop of the `reduce` handler:
      one `execute` per item, in order. */
  method ExecuteEach(task: ReduceTask, items: seq<(string, JsonValue)>, behaviour: ReduceBehaviour)
    requires task.Valid()
    modifies task
    ensures task.Valid() && task.call == old(task.call)
    ensures task.results == ReduceAll(old(task.results), items, task.call, behaviour)
  {
    var count := |items|;
    for i := 0 to count
      invariant task.Valid() && task.call == old(task.call)
      invariant task.results == ReduceAll(old(task.results), items[..i], task.call, behaviour)
    {
      task.Execute(items[i].0, items[i].1, behaviour);
      assert items[..i + 1][..i] == items[..i];
    }
    assert items[..count] == items;
  }

  // ---------------------------------------------------------------------
  // The node

  class WorkerNode {
    const node: Node
    /** `hash(self)`: some integer fixed for the node's lifetime. */
    const identity: int
    var master: Option<Communicator>

    ghost predicate Valid()
      reads this, node, node.queue, node.registry
    {
      node.Valid() && node.role == WorkerRole && node.registry.handlers == WorkerTable(map[])
    }

    /** `WorkerNode(host, port)`, once the class has been defined. */
    constructor (host: string, port: int, registry: HandlerRegistry, identity: int)
      requires registry.handlers == WorkerTable(map[])
      ensures Valid() && fresh(node) && fresh(node.queue)
      ensures node.host == host && node.port == port && node.registry == registry && node.queue.commands == []
      ensures node.server == None && !node.serverCreated
      ensures this.identity == identity && master == None
    {
      node := new Node(host, port, WorkerRole, registry);
      this.identity := identity;
      master := None;
    }

    /** `set_master`: only once the node's own server exists, and then the
        master proxy sends from the server's bound address to `host:port`. */
    method SetMaster(host: string, port: int) returns (r: Result<()>)
      modifies this`master
      ensures r.Ok? <==> node.serverCreated && node.server.Some?
      ensures r.Ok? ==> master == Some(NewMaster(node.server.value.0, node.server.value.1, host, port))
      ensures r.Raise? ==> r.exc == GenericException && master == old(master)
    {
      if !node.serverCreated || node.server.None? {
        return Raise(GenericException);
      }
      var address := node.server.value;
      master := Some(NewMaster(address.0, address.1, host, port));
      r := Ok(());
    }

    /** `connect_master`: without a master, `None.connect` is an AttributeError. */
    method ConnectMaster(t: Transport) returns (d: Delivery)
      ensures master.None? ==> d == Delivery(None, Raise(AttributeError))
      ensures master.Some? ==> d == Connect(master.value, t)
      ensures d.result.Ok? <==> master.Some? && t == Replied(Accept)
    {
      if master.None? {
        return Delivery(None, Raise(AttributeError));
      }
      d := Connect(master.value, t);
    }

    /** `disconnect_master`, likewise. */
    method DisconnectMaster(t: Transport) returns (d: Delivery)
      ensures master.None? ==> d == Delivery(None, Raise(AttributeError))
      ensures master.Some? ==> d == Disconnect(master.value, t)
      ensures d.result.Ok? <==> master.Some? && t == Replied(Accept)
    {
      if master.None? {
        return Delivery(None, Raise(AttributeError));
      }
      d := Disconnect(master.value, t);
    }

    /** The `reduce` handler: a fresh task loads the function, runs it once
        per `(key, values)` of the input object in order, stores its results
        and reports the output file to the master. */
    method Reduce(cmd: JsonValue, fs: FileSystem, env: Env) returns (t: TaskRun)
      ensures t == ReduceSpec(master, identity, cmd, fs, env)
    {
      if master.None? {
        return TaskRun(Raised(AttributeError), fs, None);
      }
      var args := TaskArgs(cmd, "reduce_function");
      if args.Raise? {
        return TaskRun(Raised(args.exc), fs, None);
      }
      var (fv, iv) := args.value;
      if !iv.JString? {
        return TaskRun(Raised(TypeError), fs, None);
      }
      var output := OutputPath(iv.s, "reduce", identity);
      var task := new ReduceTask();
      if !fv.JString? {
        return TaskRun(Raised(AttributeError), fs, None);
      }
      var loaded := task.LoadFunction(fv.s, env.compiles);
      if loaded.Raise? {
        return TaskRun(Raised(loaded.exc), fs, None);
      }
      var content := LoadJson(fs, iv.s);
      if content.Raise? {
        return TaskRun(Raised(content.exc), fs, None);
      }
      var data := content.value;
      if !data.JObject? {
        return TaskRun(Raised(AttributeError), fs, None);
      }
      ExecuteEach(task, Items(data.fields), env.behaviour);
      var stored := task.StoreResults(output, fs);
      if stored.Raise? {
        return TaskRun(Raised(stored.exc), fs, None);
      }
      var d := TaskDone(master.value, output, env.transport);
      t := TaskRun(if d.result.Ok? then Returned else Raised(d.result.exc), stored.value, d.sent);
    }

    /** One pass of the worker's `main_loop`: the head command, if any, is
        routed and its handler run. */
    method Step(fs: FileSystem, env: Env) returns (p: Pass)
      requires Valid()
      modifies node.queue
      ensures Valid()
      ensures old(node.queue.commands) == [] ==> p == Pass(Idle, fs, None) && node.queue.commands == []
      ensures old(node.queue.commands) != [] ==>
        && p == WorkerPass(master, identity, node.registry.handlers, old(node.queue.commands)[0], fs, env)
        && node.queue.commands == old(node.queue.commands)[1..]
    {
      var c := node.queue.Next();
      if c.None? {
        return Pass(Idle, fs, None);
      }
      var cmd := c.value;
      match RouteCommand(WorkerRole, node.registry.handlers, cmd)
      case Drop(r) =>
        p := Pass(r, fs, None);
      case Call(h, name) =>
        var t: TaskRun;
        if h == MapHandler {
          t := TaskRun(Raised(MapOutcome(master, cmd)), fs, None);
        } else if h == ReduceHandler {
          t := Reduce(cmd, fs, env);
        } else {
          t := TaskRun(Returned, fs, None);
        }
        p := Pass(Settle(name, t.outcome, KeyError), t.fs, t.sent);
    }
  }
}
