/** The files a reduce handler reads and writes, as JSON documents. */
module Files {
  import opened Outcomes
  import opened Json

  /** For each existing path, what `json.load` makes of it (`None`: the text
      is not JSON), and the paths `open(path, "w")` succeeds on. */
  datatype FileSystem = FileSystem(files: map<string, Option<JsonValue>>, writable: set<string>)

  /** `with open(path) as f: json.load(f)`. */
  function LoadJson(fs: FileSystem, path: string): (r: Result<JsonValue>)
    ensures r.Ok? <==> path in fs.files && fs.files[path].Some?
    ensures r.Ok? ==> r.value == fs.files[path].value
    ensures path !in fs.files ==> r == Raise(FileNotFoundError)
    ensures path in fs.files && fs.files[path].None? ==> r == Raise(ValueError)
  {
    if path !in fs.files then Raise(FileNotFoundError)
    else match fs.files[path]
      case None => Raise(ValueError)
      case Some(v) => Ok(v)
  }

  /** `with open(path, "w") as f: json.dump(v, f)`: the file now holds `v`;
      an unwritable path is an OSError and nothing changes. */
  function DumpJson(fs: FileSystem, path: string, v: JsonValue): (r: Result<FileSystem>)
    ensures r.Ok? <==> path in fs.writable
    ensures r.Raise? ==> r.exc == OSError
  {
    if path in fs.writable then Ok(FileSystem(fs.files[path := Some(v)], fs.writable)) else Raise(OSError)
  }

  /** What is dumped is what is loaded back, and no other file changes. */
  lemma LoadAfterDump(fs: FileSystem, path: string, v: JsonValue, other: string)
    requires DumpJson(fs, path, v).Ok?
    ensures LoadJson(DumpJson(fs, path, v).value, path) == Ok(v)
    ensures other != path ==> LoadJson(DumpJson(fs, path, v).value, other) == LoadJson(fs, other)
  {
  }
}
