# PyMapReduce in Dafny

A model of the core of PyMapReduce, a small MapReduce runtime in Python. It
covers three groups of code:

- **The master's pipeline** (`MapReduce`):
  - splitting the input text into chunk files;
  - dispatching chunks to workers round by round;
  - the shuffle that groups every map output into one key → values table;
  - partitioning that table into one chunk per worker;
  - the one-chunk-per-worker reduce phase.
- **The nodes' command intake and dispatch.** A FIFO queue is fed by a parse-or-drop request handler. A main loop takes one command per pass, validates it and dispatches it:
  - a worker dispatches through the shared `event_handler` table;
  - the master dispatches through `getattr`.
- **The pieces those two rely on:**
  - the JSON Schema envelope validator;
  - the client proxies and their exact-`ACCEPT` rule;
  - the map and reduce task accumulators;
  - the text that wraps a user's function body for `exec`;
  - the `### START ###` loader.

Sockets, threads, timing and foreign code become inputs:
- what the socket returned (`Transport`);
- whether a worker accepted dispatch `n`, or finished wait `m` (`accepts`, `done`);
- what `json.loads` makes of some bytes (`decode`);
- whether a text compiles (`compiles`);
- what a loaded user function emits (`MapBehaviour`, `ReduceBehaviour`).

Files are a map from path to the JSON they hold (`Files.FileSystem`), or plain text for the input file.

Modules, one per source file plus the Python built-ins they use:

| module | file | models |
|---|---|---|
| `Outcomes` | outcomes.dfy | Python exceptions (`Exc`), `Result`, `Option` |
| `Json` | json.dfy | JSON values, `dict` lookup with last-duplicate-wins, `d.items()`, `v[k]` |
| `Text` | text.dfy | `str.isspace`, `strip`, `rstrip`, `splitlines`, `split`, `replace`, `join`, `str(int)`, `os.path.dirname`/`basename` |
| `Bytes` | bytes.dfy | `bytes.strip`, `recv(n)` |
| `Tables` | table.dfy | insertion-ordered `dict[str, list[str]]` and its JSON form |
| `Files` | files.dfy | `json.load`/`json.dump` on named files |
| `CommandValidator` | command_validator.dfy | communication/command_validator.py |
| `Communication` | communicator.dfy | communication/communicator.py |
| `MasterClient` | master.dfy | communication/master.py |
| `WorkerClient` | worker.dfy | communication/worker.py |
| `EventHandler` | event_handler.dfy | communication/event_handler.py |
| `Nodes` | node.dfy | communication/node.py |
| `MasterNodes` | master_node.dfy | communication/master_node.py |
| `WorkerNodes` | worker_node.dfy | communication/worker_node.py |
| `SourceWrapping`, `MapTasks`, `ReduceTasks` | source_wrapping.dfy, map_task.dfy, reduce_task.dfy | mapreduce/map_task.py, mapreduce/reduce_task.py |
| `FunctionLoader` | function_loader.dfy | mapreduce/function_loader.py |
| `MapReduce` | map_reduce.dfy | mapreduce/map_reduce.py |

The code takes the source's own form:
- Objects whose fields change in place are classes with `modifies` clauses: `ReduceTask`, `MapTask`, `CommandQueue`, `Node`, `MasterNode`, `WorkerNode` and `HandlerRegistry`.
- Loops are `while`/`for` loops with invariants. Each such method is proved equal to a specification function, and the lemmas state what the source promises about that function.

## Model

| member | source | states |
|---|---|---|
| `CommandValidator.GetFullSchema` | communication/command_validator.py:21-24 | the full schema equals `CMD_SCHEMA` everywhere except the name enum, which becomes the given list; `CMD_SCHEMA` itself is a constant value, so one validation cannot affect another |
| `CommandValidator.Strings` | communication/command_validator.py:23 | the enum holds exactly the JSON strings of the given names |
| `CommandValidator.ValidateIsEnvelope` | communication/command_validator.py:8-16 | the schema accepts exactly the objects whose `host` (if present) is a string, `port` an integer, `name` a string in the list and `data` an object; both directions |
| `CommandValidator.SchemaMembers` | communication/command_validator.py:10-15 | on an object, the schema holds iff each of its four `properties` subschemas holds for the member present under that key |
| `CommandValidator.NameConforms` | communication/command_validator.py:13 | a present `name` passes its subschema iff it is a string in the enum |
| `CommandValidator.TypeOnlyConforms` | communication/command_validator.py:11-14 | a `{"type": t}` subschema holds iff the member, if present, has type `t` |
| `CommandValidator.NonObjectRejected` | communication/command_validator.py:9 | any instance that is not an object is rejected |
| `CommandValidator.EmptyObjectAccepted` | communication/command_validator.py:8-16 | no key is required: `{}` validates, whatever the names |
| `CommandValidator.ExtraKeyIrrelevant` | communication/command_validator.py:8-16 | a member under any key other than the four never changes the verdict |
| `CommandValidator.AcceptedNames` | communication/command_validator.py:36-42 | a name the master accepts is one of its four names; a name a worker accepts is one of the workers' four |
| `CommandValidator.MasterName` | communication/command_validator.py:37-38 | `validate_master` passes a present `name` only from `MASTER_CMD_NAMES` |
| `CommandValidator.WorkerName` | communication/command_validator.py:41-42 | `validate_worker` passes a present `name` only from `WORKER_CMD_NAMES` |
| `CommandValidator.RolesDisjoint` | communication/command_validator.py:5-6 | no named command passes both validators |
| `CommandValidator.NamesDisjoint` | communication/command_validator.py:5-6 | the two name lists share no name |
| `Communication.NewPeer` | communication/communicator.py:12-16 | a proxy keeps the given addresses and gets the default timeout 5 |
| `Communication.Eq` | communication/communicator.py:18-24 | against an object of class exactly `Communicator` it compares the targets only; otherwise it defers to identity |
| `Communication.Str` | communication/communicator.py:29-30 | the string is the target host, then `:`, then the decimal form of the port (`str(port)`, which reads back as the port) |
| `Communication.StrIdentifies` | communication/communicator.py:26-30 | two proxies print (and hash) the same string iff their targets are equal |
| `Communication.HashAgreesWithEq` | communication/communicator.py:18-27 | proxies that `__eq__` calls equal hash the same string |
| `Communication.Envelope` | communication/communicator.py:38-43 | the envelope is an object with exactly `host`, `port`, `name`, `data` bound to the self address, the command name and the payload |
| `Communication.EnvelopeValidIff` | communication/communicator.py:38-43 | an envelope with an object payload passes a validator iff its name is in the validator's list |
| `Communication.ToMaster` | communication/communicator.py:38-43 | an envelope carrying a master command name passes the master's validator and fails the worker's |
| `Communication.ToWorker` | communication/communicator.py:38-43 | an envelope carrying a worker command name passes the worker's validator and fails the master's |
| `Communication.Communicate` | communication/communicator.py:32-50 | the envelope is sent once a connection exists; the call succeeds iff the reply is exactly `ACCEPT`; other bytes raise ConnectionError; socket errors propagate |
| `MasterClient.NewMaster` | communication/master.py:5-11 | a master proxy is a `Communicator` of class `Master` with the given addresses and the default timeout |
| `MasterClient.Connect` | communication/master.py:13-14 | sends `connect` with `{}`; succeeds iff the reply is `ACCEPT` |
| `MasterClient.Disconnect` | communication/master.py:16-17 | sends `disconnect` with `{}`; succeeds iff the reply is `ACCEPT` |
| `MasterClient.TaskDone` | communication/master.py:19-20 | sends `task_done` with `{"output": f}`; succeeds iff the reply is `ACCEPT` |
| `MasterClient.FailuresPropagate` | communication/master.py:13-20 | none of the three catches anything; a wrong reply is a ConnectionError for all three |
| `MasterClient.ConnectRouted` | communication/master.py:13-14 | the `connect` envelope passes the master's validator only |
| `MasterClient.DisconnectRouted` | communication/master.py:16-17 | the `disconnect` envelope passes the master's validator only |
| `MasterClient.TaskDoneRouted` | communication/master.py:19-20 | the `task_done` envelope passes the master's validator only |
| `WorkerClient.CatchConnectionError` | communication/worker.py:15-22 | success gives True; ConnectionError gives False; any other exception escapes |
| `WorkerClient.Ping` | communication/worker.py:14-22 | sends `ping` with `{}`; True iff the reply is `ACCEPT`; False iff the reply was wrong or the connection failed with ConnectionError |
| `WorkerClient.Terminate` | communication/worker.py:24-32 | sends `terminate` with `{}`; the same mapping of outcomes to booleans |
| `WorkerClient.PingRouted` | communication/worker.py:17 | the `ping` envelope passes the worker's validator only |
| `WorkerClient.TerminateRouted` | communication/worker.py:27 | the `terminate` envelope passes the worker's validator only |
| `EventHandler.Register` | communication/event_handler.py:9 | the function is stored under its own name; all other entries stay |
| `EventHandler.ReRegisterOverwrites` | communication/event_handler.py:9 | registering a second function of the same name is as if only the second had been registered |
| `EventHandler.HandlerRegistry.SetName` | communication/event_handler.py:8-10 | the one shared table gets the function under its name, and the owner's attribute is rebound to the raw function |
| `Nodes.RouteCommand` | communication/node.py:33-48 | a handler is called only for a command the worker's validator accepts, whose `name` is a worker command name with a registered handler, and it is that handler |
| `Nodes.BaseRoleEscapes` | communication/node.py:41-42 | the base class's `validate_command` raises NotImplementedError, so any command it dequeues ends the loop |
| `Nodes.InvalidDropped` | communication/node.py:33-37 | a command the validator refuses is dropped and no handler runs |
| `Nodes.HandledIff` | communication/node.py:44-50 | a pass reports "handled" iff the command is valid, names a registered handler, and that handler returns |
| `Nodes.UnknownNameDropped` | communication/node.py:47-50 | a valid name without a handler is reported as not implemented |
| `Nodes.KeyErrorLikeUnknown` | communication/node.py:47-50 | a KeyError inside a handler gives the same result as the handler being absent |
| `Nodes.HandlerExceptionEscapes` | communication/node.py:47-50 | any other exception from a handler leaves the loop |
| `Nodes.MissingNameEscapes` | communication/node.py:45 | a valid command without `name` (`{}` is one) escapes the loop with KeyError |
| `Nodes.CommandQueue.StoreCommand` | communication/node.py:64-71 | input that parses joins the tail and adds one permit; input that does not changes nothing |
| `Nodes.CommandQueue.Handle` | communication/node.py:59-62 | at most 1024 bytes are read and stripped, then stored if they parse; the reply is `ACCEPT` either way |
| `Nodes.CommandQueue.Next` | communication/node.py:28-32 | an empty queue yields nothing and stays empty; otherwise the head command leaves, and only it |
| `Nodes.Node.constructor` | communication/node.py:13-24 | a node starts with its own empty queue, no server and the event clear |
| `Nodes.Node.ServerStarted` | communication/node.py:73-76 | the server is recorded, then `server_created` is set |
| `Nodes.Node.Step` | communication/node.py:27-39 | one pass: idle on an empty queue, else the head command is removed and dispatched |
| `Nodes.Node.MainLoop` | communication/node.py:26-39 | pass `i` dispatches the `i`-th queued command, in FIFO order, or is idle; the loop ends at the first escaping exception or after the given number of passes; the queue loses exactly the commands taken |
| `Nodes.TraceStep` | communication/node.py:27-39 | one more pass extends the trace by the head command's result and removes that command |
| `MasterNodes.MasterRoute` | communication/master_node.py:49-61 | a method is looked up only by a name `getattr` can find on a `MasterNode` |
| `MasterNodes.MasterNeverDispatches` | communication/master_node.py:49-64 | no command name is an attribute of `MasterNode`, so no method is ever called. A valid named command is "not implemented", a valid one without `name` escapes with KeyError, and the rest are invalid |
| `MasterNodes.CommandNamesAreNotAttributes` | communication/master_node.py:32-83 | none of the four master command names is an attribute of `MasterNode` |
| `MasterNodes.ServerHandle` | communication/master_node.py:17-29 | parsed input goes on the module-level queue; `ACCEPT` is sent either way |
| `MasterNodes.MasterNode.constructor` | communication/master_node.py:33-40 | `workers` starts empty; every master uses the one module-level queue it is given |
| `MasterNodes.MasterNode.Step` | communication/master_node.py:43-55 | one pass over the shared queue; `workers` is untouched |
| `MasterNodes.MasterNode.MainLoop` | communication/master_node.py:42-55 | commands are handled in FIFO order, one per pass, until the first escape; `workers` never changes |
| `WorkerNodes.WorkerTable` | communication/worker_node.py:37-64 | defining `WorkerNode` adds `ping`, `map` and `reduce` to the shared table and changes no other entry |
| `WorkerNodes.WorkerTableNamedByFunction` | communication/worker_node.py:37-64 | each entry sits under its own function's name |
| `WorkerNodes.DefineWorkerNode` | communication/worker_node.py:37-64 | the three decorations register the handlers and rebind the three attributes |
| `WorkerNodes.OutputPathIgnoresBasename` | communication/worker_node.py:48-50 | two tasks of one kind on one node over files of one directory get the same output path |
| `WorkerNodes.OutputPathDirectory` | communication/worker_node.py:70-72 | the output lies in the input's directory, or in `/` for a bare file name |
| `WorkerNodes.OutputPathIdentifiesNode` | communication/worker_node.py:70-72 | nodes with different identities never share an output path |
| `WorkerNodes.TaskArgs` | communication/worker_node.py:68-69 | `command["data"][fn]` then `command["data"]["filename"]`; it fails with KeyError or TypeError |
| `WorkerNodes.MapOutcome` | communication/worker_node.py:42-58 | without a master, AttributeError; a missing key, that lookup's exception; otherwise TypeError from `MapTask()` |
| `WorkerNodes.ReduceSpec` | communication/worker_node.py:63-85 | without a master, AttributeError before any data is read, and nothing changes; a handler that returns has sent some object envelope |
| `WorkerNodes.WorkerPass` | communication/worker_node.py:21-22 | a worker pass is the node's dispatch with the worker's handlers; a dropped command changes no file and sends nothing |
| `WorkerNodes.TerminateNotImplemented` | communication/worker_node.py:37-64 | a validated `terminate` finds no handler and is reported as not implemented |
| `WorkerNodes.PingHandled` | communication/worker_node.py:37-39 | a validated `ping` is handled and changes nothing |
| `WorkerNodes.MapNeverHandled` | communication/worker_node.py:41-61 | a validated `map` never returns: a missing key is swallowed, anything else escapes (TypeError once master and keys are there) |
| `WorkerNodes.ReduceNeedsMaster` | communication/worker_node.py:65-66 | `reduce` before `set_master` escapes with AttributeError and changes nothing |
| `WorkerNodes.ReduceMissingKeySwallowed` | communication/worker_node.py:68-69 | a missing `reduce_function` or `filename` raises KeyError, which the loop swallows |
| `WorkerNodes.ResultsPerKey` | communication/worker_node.py:77-82 | the written results hold, under each key of the input, exactly what its call emitted, and hold a key only if that call emitted something |
| `WorkerNodes.ReduceReturned` | communication/worker_node.py:74-85 | a `reduce` that returns wrote its results to the output path and sent `task_done` with that path |
| `WorkerNodes.ReduceStoresPerKey` | communication/worker_node.py:63-85 | after a returning `reduce`, only the output file changed; it holds each key's emissions exactly; the master was told its path |
| `WorkerNodes.ExecuteEach` | communication/worker_node.py:79-80 | one `execute` per `(key, values)` of the input, in order |
| `WorkerNodes.WorkerNode.constructor` | communication/worker_node.py:17-19 | a worker node starts without a master, as a worker-role node over its own empty queue |
| `WorkerNodes.WorkerNode.SetMaster` | communication/worker_node.py:24-29 | succeeds iff `server_created` is set and a server exists; then the master proxy sends from the server's address to `host:port`; otherwise it raises and the master is unchanged |
| `WorkerNodes.WorkerNode.ConnectMaster` | communication/worker_node.py:31-32 | without a master, AttributeError; otherwise `connect` |
| `WorkerNodes.WorkerNode.DisconnectMaster` | communication/worker_node.py:34-35 | without a master, AttributeError; otherwise `disconnect` |
| `WorkerNodes.WorkerNode.Reduce` | communication/worker_node.py:63-85 | the handler equals `ReduceSpec` on every branch |
| `WorkerNodes.WorkerNode.Step` | communication/worker_node.py:16-85 | one worker pass: idle on an empty queue, else the head command is removed and its handler run |
| `SourceWrapping.IndentLine` | mapreduce/map_task.py:12 | four spaces, then the line with trailing whitespace cut, and only whitespace cut |
| `SourceWrapping.BodyLines` | mapreduce/reduce_task.py:25-29 | one indented line per line of the stripped, `emit`-rewritten body, in order |
| `SourceWrapping.WrappedLines` | mapreduce/reduce_task.py:26-31 | read back line by line, the text is the header, the body lines and the footer |
| `MapTasks.MapSourceLines` | mapreduce/map_task.py:10-15 | the map source is `def map_function(self, key, value):`, the body lines, then the footer |
| `MapTasks.EmitRewriteIsTextual` | mapreduce/map_task.py:10 | the rewrite is textual: `emitted` becomes `self.emitted` |
| `MapTasks.MapTask.Init` | mapreduce/map_task.py:7-8 | results start empty; `call` is the defined function |
| `MapTasks.MapTask.Create` | mapreduce/map_task.py:6-15 | the task exists iff the wrapped source compiles (else SyntaxError), with empty results |
| `MapTasks.MapTask.Emit` | mapreduce/map_task.py:17-18 | the pair goes at the end; earlier pairs stay |
| `MapTasks.MapTask.Call` | mapreduce/map_task.py:17-18 | results grow by exactly the pairs emitted, in order, duplicates kept |
| `MapTasks.PairWithOne` | tests/map_task_test.py:3-6 | one `(w, "1")` per word, in order |
| `MapTasks.WordCountOnSample` | tests/map_task_test.py:3-9 | on `"v v b a c a"` the body emits the six pairs in word order |
| `MapTasks.WordCountTask` | tests/map_task_test.py:8-9 | given that the loaded body emits one `(w, "1")` per word (the loaded function's emissions are an input, not derived from the body's text), a task built from that body and called on a value holds exactly its word-count pairs |
| `ReduceTasks.ReduceSourceLines` | mapreduce/reduce_task.py:24-31 | the reduce source is `def reduce_function(self, key, values):`, the body lines, then the footer |
| `ReduceTasks.AppendAllEffect` | mapreduce/reduce_task.py:33-37 | a run of emits under one key appends the values, in order, to that key's list; a new key joins the key order at the end; nothing else changes |
| `ReduceTasks.AppendAllTwice` | mapreduce/reduce_task.py:20-22 | two `execute`s with the same key append to the same list, in order |
| `ReduceTasks.ReduceAllOnlyEmitted` | mapreduce/reduce_task.py:33-37 | the results hold a key only if some call for it emitted |
| `ReduceTasks.ReduceAllPerKey` | mapreduce/reduce_task.py:20-37 | with distinct keys, each key holds exactly what its call emitted |
| `ReduceTasks.ReduceTask.constructor` | mapreduce/reduce_task.py:15-18 | empty results, key `""`, `call` does nothing |
| `ReduceTasks.ReduceTask.LoadFunction` | mapreduce/reduce_task.py:24-31 | `call` is bound to the wrapped source iff it compiles; otherwise SyntaxError and `call` unchanged |
| `ReduceTasks.ReduceTask.Emit` | mapreduce/reduce_task.py:33-37 | the value joins the current key's list (`""` before any `execute`), creating it if absent |
| `ReduceTasks.ReduceTask.Execute` | mapreduce/reduce_task.py:20-22 | the key becomes current, then the call's emits land under it in order; the default `call` changes nothing |
| `ReduceTasks.ReduceTask.StoreResults` | mapreduce/reduce_task.py:39-41 | the results are dumped as JSON to that file; an unwritable file raises OSError |
| `FunctionLoader.Lines` | mapreduce/function_loader.py:9 | the file's lines, each ending in its `\n` (the last maybe not), joined give the text |
| `FunctionLoader.AfterFirstMarker` | mapreduce/function_loader.py:10-13 | with the first marker at `m`, the kept lines are exactly the lines after `m`, later markers included |
| `FunctionLoader.AfterMarkerIsTail` | mapreduce/function_loader.py:10-13 | the kept lines are a tail of the file's lines |
| `FunctionLoader.BodyIsSuffix` | mapreduce/function_loader.py:15 | the body is a suffix of the file, character for character |
| `FunctionLoader.NoMarkerNoBody` | mapreduce/function_loader.py:7-15 | with no marker line the body is `""` |
| `FunctionLoader.KeepAfterMarker` | mapreduce/function_loader.py:7-13 | the flag loop keeps exactly the lines after the first marker |
| `FunctionLoader.FromFile` | mapreduce/function_loader.py:6-17 | the body is returned if it compiles, else SyntaxError |
| `MapReduce.ChunkNamesDistinct` | mapreduce/map_reduce.py:62 | chunks with different numbers get different file names |
| `MapReduce.ChunkNames` | mapreduce/map_reduce.py:129-132 | names `0 .. n-1`, in order |
| `MapReduce.CeilDivIsCeiling` | mapreduce/map_reduce.py:57 | `CeilDiv` is the ceiling of `n / c` |
| `MapReduce.PiecesShape` | mapreduce/map_reduce.py:60-61 | the reads put together give the text; each is at most `chunk_size` characters, all but the last exactly that |
| `MapReduce.PiecesCount` | mapreduce/map_reduce.py:56-57 | there are `ceil(size / chunk_size)` reads with data |
| `MapReduce.ReadChunks` | mapreduce/map_reduce.py:60-65 | read `i` takes the `i`-th piece and goes to the `i`-th name |
| `MapReduce.SplitFile` | mapreduce/map_reduce.py:54-67 | a missing file raises FileNotFoundError; `chunk_size == 0` raises ZeroDivisionError; a negative one gives no chunks; otherwise chunk `i` is the `i`-th piece under `ChunkName(filename, i)` |
| `MapReduce.SplitFileChunks` | mapreduce/map_reduce.py:56-65 | `ceil(size/chunk_size)` chunks concatenating to the text, each at most `chunk_size` characters, all but the last exactly that |
| `MapReduce.Unpack` | mapreduce/map_reduce.py:75 | `k, v = x`: a two-element list gives its two strings, a two-character string its two characters, a two-key dict its keys in first-occurrence order; other lengths raise ValueError, scalars TypeError |
| `MapReduce.UnpackAll` | mapreduce/map_reduce.py:75 | all pairs unpack, or the first failure decides |
| `MapReduce.MapOutputPairs` | mapreduce/map_reduce.py:73-75 | a loaded list's elements are unpacked; a dict yields its keys, so it succeeds iff every key has two characters, which become the pair; a non-empty string raises ValueError and an empty one yields nothing; a scalar is not iterable |
| `MapReduce.UnpackKeys` | mapreduce/map_reduce.py:75 | iterating a dict's keys unpacks iff every key has two characters, each giving its two characters |
| `MapReduce.FilePairs` | mapreduce/map_reduce.py:72-75 | a load failure propagates; otherwise the file's pairs |
| `MapReduce.AllPairsPrefixRaise` | mapreduce/map_reduce.py:71-75 | the first failing file decides the outcome |
| `MapReduce.GroupedSnoc` | mapreduce/map_reduce.py:76-79 | each pair is one `append`-or-create step |
| `MapReduce.GroupedEntries` | mapreduce/map_reduce.py:70-79 | a key has an entry iff some pair has it, and the entry is every value paired with it, in file and pair order |
| `MapReduce.GroupedKeyOrder` | mapreduce/map_reduce.py:70-79 | the keys are listed in the order of their first pairs |
| `MapReduce.GroupInto` | mapreduce/map_reduce.py:75-79 | one file's pairs, in order, join the table built so far |
| `MapReduce.Shuffle` | mapreduce/map_reduce.py:69-87 | the loops compute the grouped table of all pairs, dumped next to the first output, as `ShuffleSpec` says |
| `MapReduce.ShuffleNoOutputs` | mapreduce/map_reduce.py:81-83 | no map output: IndexError |
| `MapReduce.ShuffleWrites` | mapreduce/map_reduce.py:81-87 | the shuffle file, read back, gives each key its values in order and nothing for other keys; no other file changes |
| `MapReduce.Len` | mapreduce/map_reduce.py:126 | `len` of a dict counts its keys; a scalar has none (TypeError) |
| `MapReduce.DivBound` | mapreduce/map_reduce.py:127 | `k` runs of `n // k` fit in `n` entries and leave fewer than `k` over |
| `MapReduce.DumpLoop` | mapreduce/map_reduce.py:129-138 | the loop dumps run `i` to name `i`, stopping at the first unwritable file |
| `MapReduce.SplitShuffle` | mapreduce/map_reduce.py:120-140 | load, `len`, `//`, then one dump per chunk, as `SplitShuffleSpec` says |
| `MapReduce.DumpChunksContents` | mapreduce/map_reduce.py:133-137 | after dumping to distinct names, name `i` holds run `i` as a dict; other files are unchanged |
| `MapReduce.SplitDictChunks` | mapreduce/map_reduce.py:129-138 | each chunk file holds exactly its run; no other file changes |
| `MapReduce.SplitShuffleChunks` | mapreduce/map_reduce.py:126-138 | exactly `split_count` chunk files, named after the shuffle file; chunk `i` holds entries `[i*cs, (i+1)*cs)`; nothing else changes |
| `MapReduce.ChunkNamesAllDistinct` | mapreduce/map_reduce.py:130-132 | the chunk names are pairwise different |
| `MapReduce.ChunksDisjoint` | mapreduce/map_reduce.py:133-135 | two different chunks share no key |
| `MapReduce.RunsBounds` | mapreduce/map_reduce.py:133-135 | two different runs are index ranges, one wholly before the other |
| `MapReduce.RemainderDropped` | mapreduce/map_reduce.py:127-135 | the last `len - k*cs` entries (fewer than `k`) are in no chunk |
| `MapReduce.FiveKeysTwoWorkers` | mapreduce/map_reduce.py:127-135 | five keys on two workers: two chunks of two keys; the fifth key is in neither |
| `MapReduce.SplitShuffleNoWorkers` | mapreduce/map_reduce.py:93 | no workers: ZeroDivisionError once the file is read and sized |
| `MapReduce.Remove` | mapreduce/map_reduce.py:44 | `list.remove` succeeds iff the worker is present, else ValueError |
| `MapReduce.RemoveMultiset` | mapreduce/map_reduce.py:44 | removal takes away exactly one copy |
| `MapReduce.RemoveAllMultiset` | mapreduce/map_reduce.py:44 | successive removals take away one copy per timeout |
| `MapReduce.Collected` | mapreduce/map_reduce.py:47-49 | results are at most one per wait; a result without `output` raises KeyError or TypeError |
| `MapReduce.AcceptedWorkersCount` | mapreduce/map_reduce.py:35-37 | one worker is waited for per accepted dispatch |
| `MapReduce.AcceptedStrict` | mapreduce/map_reduce.py:35-37 | after an accepted dispatch every later one offers a later chunk: none is sent twice |
| `MapReduce.RejectedKeepsChunk` | mapreduce/map_reduce.py:35-37 | a rejected dispatch leaves the same chunk for the next worker |
| `MapReduce.AcceptedReachesEvery` | mapreduce/map_reduce.py:35-37 | each chunk below `sent_chunks` went to some accepted dispatch |
| `MapReduce.AcceptedNone` | mapreduce/map_reduce.py:30-37 | with no dispatch accepted nothing is ever sent |
| `MapReduce.OfferedStep` | mapreduce/map_reduce.py:35-37 | `sent_chunks` grows exactly when `map` returns True, and the chunk offered is `chunk_files[sent_chunks]` |
| `MapReduce.AwaitSpecShape` | mapreduce/map_reduce.py:39-49 | `AwaitSpec`, the waiting loop as a value, raises only KeyError or TypeError (a result without `output`) or ValueError (removing a missing worker). It adds at most one result per worker waited for. When it does not raise, it has waited for every working worker, in order |
| `MapReduce.DispatchRaisesIff` | mapreduce/map_reduce.py:33-37 | the dispatch loop raises IndexError iff, as some worker of the list is reached, every chunk has already been accepted; both directions |
| `MapReduce.RoundIndexErrorIff` | mapreduce/map_reduce.py:30-49 | a round raises IndexError exactly under the same condition, since the waiting loop never raises it |
| `MapReduce.OneChunkOneWorker` | mapreduce/map_reduce.py:24-52 | one chunk and one worker that accepts and finishes: the run returns that worker's output after one round |
| `MapReduce.OneChunkTwoWorkers` | mapreduce/map_reduce.py:33-37 | one chunk and two workers of which the first accepts: the second worker's `chunk_files[1]` raises IndexError before any wait |
| `MapReduce.Dispatch` | mapreduce/map_reduce.py:33-37 | the loop computes `DispatchSpec`. Each worker in turn is offered the next chunk, and accepters join `working_nodes`. IndexError is raised exactly when a worker is reached after the last chunk went, and then some workers are left unoffered |
| `MapReduce.AwaitAll` | mapreduce/map_reduce.py:39-49 | the loop computes `AwaitSpec`: each working worker is waited for in order; a timeout removes it, a finish appends its `output` |
| `MapReduce.TimeoutStep` | mapreduce/map_reduce.py:42-45 | a timed-out worker in the list is removed from it |
| `MapReduce.DoneStep` | mapreduce/map_reduce.py:47-49 | a worker that finished stays |
| `MapReduce.MapRound` | mapreduce/map_reduce.py:30-49 | the round computes `RoundSpec`: it dispatches to the worker list as it stands at the start of the round, then waits. It keeps the `run_map` bookkeeping |
| `MapReduce.RunMap` | mapreduce/map_reduce.py:24-52 | the status, results, workers, dispatches and waits are exactly `RunMapSpec`'s, round by round. So the run ends `Finished` or `Stopped(IndexError)` as the source decides. Accepted chunks go out in index order, once each. Timeouts remove workers. Results follow dispatch order. With no accepter or no worker the loop never ends |
| `MapReduce.ResultsAtMostChunks` | mapreduce/map_reduce.py:39-49 | at most one result per chunk |
| `MapReduce.SplitShuffleNames` | mapreduce/map_reduce.py:120-140 | a successful split returns the `split_count` chunk names |
| `MapReduce.OfferChunks` | mapreduce/map_reduce.py:98-102 | worker `i` is offered chunk `i`; the accepters join `working_nodes` in order |
| `MapReduce.RunReduce` | mapreduce/map_reduce.py:89-118 | a failed split escapes before any offer; no workers divides by zero; worker `i` gets chunk `i`; only accepters are waited for, and results follow their order |
| `MapReduce.RunReduceChunks` | mapreduce/map_reduce.py:93-99 | the chunk files offered are different files, each holding its run of the shuffle table |
| `Tables.AppendFacts` | mapreduce/map_reduce.py:76-79 | `append`-or-create: the value joins the end of the key's list, a new key goes last in key order, nothing else changes |
| `Tables.TableJsonGet` | mapreduce/reduce_task.py:39-41 | reading a key back from the dumped table gives its list, and nothing for an absent key |
| `Files.LoadAfterDump` | mapreduce/reduce_task.py:40-41 | what is dumped is loaded back; no other file changes |
| `Bytes.StripBytes` | communication/node.py:60 | the middle slice with the whitespace bytes taken off both ends |
| `Bytes.Take` | communication/node.py:60 | `recv(1024)` yields at most 1024 bytes, a prefix of what was sent |
| `Json.Get` | communication/node.py:45 | the value bound last to the key, or none iff no member has it |
| `Json.KeysOf` | communication/worker_node.py:79 | the object's keys once each, exactly the keys of its members |
| `Json.FirstKeyIndex` | communication/worker_node.py:79 | the first member position holding the key, or the member count if none does |
| `Json.KeysOfFirstOrder` | communication/worker_node.py:79 | the keys come in the order of their first occurrence among the members, the order `json.loads` gives the dict |
| `Json.Items` | communication/worker_node.py:79 | `d.items()` pairs each key, in order, with the value bound to it last |
| `Json.Subscript` | communication/node.py:45 | `v[k]`: the value if `v` is a dict with `k`, KeyError on a dict without it, TypeError otherwise |
| `Text.Strip` | mapreduce/map_task.py:12 | the slice left after cutting whitespace at both ends |
| `Text.RStrip` | mapreduce/map_task.py:12 | the prefix left after cutting trailing whitespace |
| `Text.SplitLinesOfJoin` | mapreduce/map_task.py:12-15 | splitting lines joined by `\n` gives them back |
| `Text.SplitLinesHaveNoBreak` | mapreduce/map_task.py:12 | no line `splitlines` yields holds a line boundary |
| `Text.WordsOfJoin` | tests/map_task_test.py:4 | splitting words joined by spaces gives the words back |
| `Text.WordsHaveNoSpace` | tests/map_task_test.py:4 | every word of `split()` is non-empty and holds no whitespace |
| `Text.FindAt` | mapreduce/map_task.py:10 | where `find` reports an index, the pattern occurs there |
| `Text.FindFirst` | mapreduce/map_task.py:10 | no occurrence starts earlier |
| `Text.FindNone` | mapreduce/map_task.py:10 | `-1` means no occurrence |
| `Text.JoinSplit` | mapreduce/map_task.py:10 | joining the pieces of a split with the separator gives the text back |
| `Text.SplitPiecesFree` | mapreduce/map_task.py:10 | no piece of a split holds the separator |
| `Text.ReplaceIsJoinSplit` | mapreduce/reduce_task.py:25 | `s.replace(p, q) == q.join(s.split(p))` |
| `Text.ParseIntToString` | communication/communicator.py:27 | `str(n)` reads back as `n` |
| `Text.IntToStringInjective` | communication/worker_node.py:49 | different ints print differently |
| `Text.Basename` | mapreduce/map_reduce.py:62 | `basename` is a slash-free suffix |
| `Text.Dirname` | mapreduce/map_reduce.py:62 | `dirname` is a prefix |
| `Text.DirnameOfJoin` | communication/worker_node.py:71 | the directory of `dir + "/" + name` is `dir`, or `/` for an empty `dir` |

## Left out

- Sockets, server threads, `serve_forever`, `shutdown_server`, `wait_finished`, the entry points and their input loops, and logging. The request, the reply bytes and the RPC outcomes are inputs.
- Timing: `Semaphore.acquire(timeout=2)`, `Event.wait(10)` and the exit flag become inputs and a `rounds` count. In this sequential model the semaphore's count is the queue length, and a pass over an empty queue is idle.
- Running user code: `exec` and `compile` are the oracle `compiles`. What a loaded function emits is a parameter (`MapBehaviour`, `ReduceBehaviour`), so a user function that raises is not modelled.
- JSON text: `json.dumps`/`json.loads` encoding and decoding are not modelled. The envelope is the JSON value. Decoding is the input `decode`. Floats are finite reals with no NaN or infinity.
- The `jsonschema` library beyond `type`, `enum` and `properties`. Its "integer" is modelled as an int, or a float with zero fraction, not a bool.
- `@attr.s`-generated `__init__`/`__eq__`/`__hash__` in communication/communicator.py, communication/master.py and communication/worker.py. The hand-written methods are modelled as the named functions `Eq` and `Str`, and nothing is claimed about which one Python's `==` runs.
- `hash(self)` of a worker node is an opaque integer, `WorkerNode.identity`.
- The `Worker` proxy's `map`, `reduce`, `task_done` and `get_last_result`: communication/worker.py does not define them, so `run_map` and `run_reduce` take their outcomes as inputs indexed by call number.
- `run` (mapreduce/map_reduce.py:19-22), which chains `run_map`, `shuffle` and `run_reduce`. Each phase is modelled on its own. The composition is not, because `RunMap` works on chunk names and its results are JSON values, not files.
- `MapReduce.RunMap`:
  - it takes the chunk file names `SplitFile` produces rather than reading the input file itself;
  - it runs at most `rounds` rounds. `StillRunning` means it had not stopped by then, which is how the loop that never ends shows;
  - the `task_done.clear()` before each offer is not modelled.
- `MapReduce.RunReduce`:
  - the `task_done.clear()` and `set()` calls on the worker events are not modelled, since the waits are inputs. A rejected offer simply adds no wait and no result.
- `MapReduce.SplitFile`:
  - file size is counted in characters (`os.path.getsize` counts bytes), so the chunk-count property holds for single-byte text;
  - an OSError while writing a chunk file is not modelled.
- `MapReduce.Unpack`, `MapReduce.MapOutputPairs`: a two-element list whose key or value is not a string is a TypeError here, where Python would store it in the table and only `json.dump` could fail later.
- `MapReduce.Remove`: only the multiset effect of `list.remove` is stated, not the position of the element removed.
- `Tables.Append`: its own contract is only `Valid`. Its effect on keys and lists is stated by `Tables.AppendFacts`.
- `ReduceTasks.AppendAll`: its own contract is only `Valid`. Its effect is stated by `ReduceTasks.AppendAllEffect`.
- The worker's `main_loop` is `Nodes.Node.MainLoop` with `Handler` outcomes as a function parameter. `WorkerNodes.WorkerNode.Step` models one worker pass including file effects; there is no separate multi-pass loop over file systems.
- The `map` handler's body after `MapTask()` (`load_function`, `execute`, `store_results` on a `MapTask`) is unreachable as written, so it is not modelled beyond the TypeError.
