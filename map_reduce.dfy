/** `MapReduce`: the master side of a job. It splits the input text into
    chunk files, hands chunks to workers round by round, groups every map
    output into one shuffle table, cuts that table into one chunk per worker,
    and hands each worker its chunk. */
module MapReduce {
  import opened Outcomes
  import opened Json
  import opened Text
  import opened Tables
  import opened Files

  /** The default `chunk_size`: 8 KiB. */
  const DefaultChunkSize: int := 8 * 1024

  // ---------------------------------------------------------------------
  // File names

  /** `f"{os.path.dirname(filename)}/chunk_{i}_{os.path.basename(filename)}"`. */
  function ChunkName(filename: string, i: int): string {
    Dirname(filename) + "/chunk_" + IntToString(i) + "_" + Basename(filename)
  }

  /** Chunks with different numbers get different files. */
  lemma ChunkNamesDistinct(filename: string, i: int, j: int)
    requires ChunkName(filename, i) == ChunkName(filename, j)
    ensures i == j
  {
    var prefix := Dirname(filename) + "/chunk_";
    var suffix := "_" + Basename(filename);
    ChunkNameParts(filename, i, prefix, suffix);
    ChunkNameParts(filename, j, prefix, suffix);
    MiddleEqual(prefix, IntToString(i), IntToString(j), suffix);
    IntToStringInjective(i, j);
  }

  /** A chunk name is its number between a fixed prefix and suffix. */
  lemma ChunkNameParts(filename: string, i: int, prefix: string, suffix: string)
    requires prefix == Dirname(filename) + "/chunk_" && suffix == "_" + Basename(filename)
    ensures ChunkName(filename, i) == prefix + IntToString(i) + suffix
  {
    var si := IntToString(i);
    assert prefix + si + "_" + Basename(filename) == prefix + si + suffix;
  }

  /** Two strings with the same text around them are equal. */
  lemma MiddleEqual(prefix: string, a: string, b: string, suffix: string)
    requires prefix + a + suffix == prefix + b + suffix
    ensures a == b
  {
    var n := prefix + a + suffix;
    assert |a| == |b|;
    assert a == n[|prefix|..|prefix| + |a|];
    assert b == (prefix + b + suffix)[|prefix|..|prefix| + |b|];
  }

  /** The names of chunks `0 .. n-1`, in order. */
  function ChunkNames(filename: string, n: nat): (names: seq<string>)
    ensures |names| == n && forall i :: 0 <= i < n ==> names[i] == ChunkName(filename, i)
  {
    seq(n, i => ChunkName(filename, i))
  }

  // ---------------------------------------------------------------------
  // Arithmetic the chunk bounds rest on

  /** `math.ceil(n / c)` for a positive `c`, exactly: how many times `c`
      must be taken away to use `n` up. */
  function CeilDiv(n: nat, c: nat): nat
    requires c > 0
    decreases n
  {
    if n == 0 then 0 else if n <= c then 1 else 1 + CeilDiv(n - c, c)
  }

  /** It is the ceiling: the least `q` with `q * c >= n`. */
  lemma {:induction false} CeilDivIsCeiling(n: nat, c: nat)
    requires c > 0
    ensures CeilDiv(n, c) * c >= n
    ensures CeilDiv(n, c) == 0 || (CeilDiv(n, c) - 1) * c < n
    decreases n
  {
    if n > c {
      CeilDivIsCeiling(n - c, c);
      var q := CeilDiv(n - c, c);
      assert (q + 1) * c == q * c + c;
      assert q == 0 || (q - 1) * c + c == q * c;
    }
  }

  lemma MulLe(a: nat, b: nat, c: nat)
    requires a <= b
    ensures a * c <= b * c
  {
    assert b * c == a * c + (b - a) * c;
  }

  /** Chunk `i` of `count`, `size` entries each, lies inside the first
      `count * size` entries. */
  lemma SliceInside(i: nat, count: nat, size: nat, n: nat)
    requires i < count && count * size <= n
    ensures 0 <= i * size && i * size + size == (i + 1) * size <= count * size <= n
  {
    MulLe(0, i, size);
    MulLe(i + 1, count, size);
  }

  // ---------------------------------------------------------------------
  // __split_file

  /** A chunk file as written: its name and its text. */
  datatype Chunk = Chunk(path: string, data: string)

  function Datas(cs: seq<Chunk>): (ds: seq<string>)
    ensures |ds| == |cs| && forall i :: 0 <= i < |cs| ==> ds[i] == cs[i].data
  {
    seq(|cs|, i requires 0 <= i < |cs| => cs[i].data)
  }

  /** The successive `file.read(c)` results up to the end of the text. */
  function Pieces(text: string, c: nat): seq<string>
    requires c > 0
    decreases |text|
  {
    if text == [] then []
    else if |text| <= c then [text]
    else [text[..c]] + Pieces(text[c..], c)
  }

  /** Put back together, the pieces give the text; each holds at most `c`
      characters, all but the last exactly `c`. */
  lemma {:induction false} PiecesShape(text: string, c: nat)
    requires c > 0
    ensures Join(Pieces(text, c), "") == text
    ensures forall i :: 0 <= i < |Pieces(text, c)| ==> 0 < |Pieces(text, c)[i]| <= c
    ensures forall i :: 0 <= i < |Pieces(text, c)| - 1 ==> |Pieces(text, c)[i]| == c
    decreases |text|
  {
    if text == [] {
    } else if |text| <= c {
      JoinEmptyCons(text, []);
    } else {
      var rest := Pieces(text[c..], c);
      PiecesShape(text[c..], c);
      JoinEmptyCons(text[..c], rest);
      assert text[..c] + text[c..] == text;
      var ps := Pieces(text, c);
      assert ps == [text[..c]] + rest;
      forall i | 0 <= i < |ps| ensures 0 < |ps[i]| <= c && (i < |ps| - 1 ==> |ps[i]| == c) {
        if i > 0 { assert ps[i] == rest[i - 1]; }
      }
    }
  }

  /** One read takes the next `c` characters, or what is left. */
  lemma PiecesStep(text: string, c: nat)
    requires c > 0 && text != []
    ensures var k := if c <= |text| then c else |text|;
      Pieces(text, c) == [text[..k]] + Pieces(text[k..], c)
  {
    if |text| <= c {
      assert text[..|text|] == text && text[|text|..] == [];
    }
  }

  /** There are `ceil(|text| / c)` of them. */
  lemma {:induction false} PiecesCount(text: string, c: nat)
    requires c > 0
    ensures |Pieces(text, c)| == CeilDiv(|text|, c)
    decreases |text|
  {
    var n := |text|;
    if n > c {
      PiecesCount(text[c..], c);
    }
  }

  /** The loop of `__split_file` over `range(split_count)`: read `i` takes
      the next `c` characters and goes to the `i`-th chunk file name. */
  method ReadChunks(names: seq<string>, text: string, c: nat) returns (chunks: seq<Chunk>)
    requires c > 0 && |names| == |Pieces(text, c)|
    ensures |chunks| == |names|
    ensures forall i :: 0 <= i < |chunks| ==> chunks[i] == Chunk(names[i], Pieces(text, c)[i])
  {
    chunks := [];
    ghost var written: seq<string> := [];
    var pos: nat := 0;
    var count := |names|;
    for i := 0 to count
      invariant pos <= |text| && |written| == i && |chunks| == i
      invariant written + Pieces(text[pos..], c) == Pieces(text, c)
      invariant forall j :: 0 <= j < i ==> chunks[j] == Chunk(names[j], written[j])
    {
      pos, written, chunks := ReadOne(names, text, c, i, pos, written, chunks);
    }
    assert |Pieces(text[pos..], c)| == 0;
  }

  /** The loop's body for read `i`: `file.read(chunk_size)` at `pos` goes
      to chunk file `names[i]`. */
  method ReadOne(names: seq<string>, text: string, c: nat, i: nat, pos0: nat, ghost written0: seq<string>,
      chunks0: seq<Chunk>)
    returns (pos: nat, ghost written: seq<string>, chunks: seq<Chunk>)
    requires c > 0 && i < |names| == |Pieces(text, c)|
    requires pos0 <= |text| && |written0| == i && |chunks0| == i
    requires written0 + Pieces(text[pos0..], c) == Pieces(text, c)
    requires forall j :: 0 <= j < i ==> chunks0[j] == Chunk(names[j], written0[j])
    ensures pos <= |text| && |written| == i + 1 && |chunks| == i + 1
    ensures written + Pieces(text[pos..], c) == Pieces(text, c)
    ensures forall j :: 0 <= j < i + 1 ==> chunks[j] == Chunk(names[j], written[j])
  {
    // `file.read(chunk_size)`
    var k := if c <= |text| - pos0 then c else |text| - pos0;
    var data := text[pos0..pos0 + k];
    ReadStep(text, c, pos0, written0);
    written := written0 + [data];
    chunks := chunks0 + [Chunk(names[i], data)];
    pos := pos0 + k;
  }

  /** One `read(chunk_size)` at position `pos` takes the next piece. */
  lemma ReadStep(text: string, c: nat, pos: nat, written: seq<string>)
    requires c > 0 && pos <= |text|
    requires written + Pieces(text[pos..], c) == Pieces(text, c)
    requires |written| < |Pieces(text, c)|
    ensures var k := if c <= |text| - pos then c else |text| - pos;
      && (written + [text[pos..pos + k]]) + Pieces(text[pos + k..], c) == Pieces(text, c)
  {
    var rest := text[pos..];
    var k := if c <= |rest| then c else |rest|;
    PiecesStep(rest, c);
    assert rest[..k] == text[pos..pos + k];
    assert rest[k..] == text[pos + k..];
  }

  /** `__split_file`: `ceil(size / chunk_size)` reads of `chunk_size`
      characters each, every one written to its own chunk file. The input
      is `None` when the file does not exist. */
  method SplitFile(filename: string, input: Option<string>, chunkSize: int) returns (r: Result<seq<Chunk>>)
    ensures input.None? ==> r == Raise(FileNotFoundError)
    ensures input.Some? && chunkSize == 0 ==> r == Raise(ZeroDivisionError)
    ensures input.Some? && chunkSize < 0 ==> r == Ok([])
    ensures input.Some? && chunkSize > 0 ==> r.Ok?
    ensures r.Ok? && chunkSize > 0 ==>
      var cs := r.value;
      && Datas(cs) == Pieces(input.value, chunkSize)
      && forall i :: 0 <= i < |cs| ==> cs[i].path == ChunkName(filename, i)
  {
    if input.None? {
      return Raise(FileNotFoundError);
    }
    if chunkSize == 0 {
      return Raise(ZeroDivisionError);
    }
    if chunkSize < 0 {
      // the count `ceil(size / chunk_size)` is not positive: no chunk
      return Ok([]);
    }
    var count := CeilDiv(|input.value|, chunkSize);
    PiecesCount(input.value, chunkSize);
    var chunks := ReadChunks(ChunkNames(filename, count), input.value, chunkSize);
    r := Ok(chunks);
  }

  /** The chunks are `ceil(size / chunk_size)` pieces of at most `chunk_size`
      characters, all but the last exactly that long, which put back
      together give the text. */
  lemma SplitFileChunks(text: string, chunkSize: nat)
    requires chunkSize > 0
    ensures var ps := Pieces(text, chunkSize);
      && |ps| == CeilDiv(|text|, chunkSize)
      && Join(ps, "") == text
      && (forall i :: 0 <= i < |ps| ==> 0 < |ps[i]| <= chunkSize)
      && (forall i :: 0 <= i < |ps| - 1 ==> |ps[i]| == chunkSize)
  {
    PiecesCount(text, chunkSize);
    PiecesShape(text, chunkSize);
  }

  // ---------------------------------------------------------------------
  // shuffle

  /** A key and a value as one map output pairs them. */
  type Pair = (string, string)

  /** `k, v = x` for a string key and value: two strings. */
  function StringPair(a: JsonValue, b: JsonValue): (r: Result<Pair>)
    ensures r.Ok? <==> a.JString? && b.JString?
    ensures r.Ok? ==> r.value == (a.s, b.s)
  {
    if a.JString? && b.JString? then Ok((a.s, b.s)) else Raise(TypeError)
  }

  /** `k, v = x` for one element `x` of a loaded map output: a list must have
      two elements, a string two characters and a dict two keys (ValueError
      otherwise); a number, boolean or `None` cannot be unpacked (TypeError). */
  function Unpack(x: JsonValue): (r: Result<Pair>)
    ensures x.JArray? && |x.items| == 2 ==> r == StringPair(x.items[0], x.items[1])
    ensures x.JArray? && |x.items| != 2 ==> r == Raise(ValueError)
    ensures x.JString? ==> r == if |x.s| == 2 then Ok(([x.s[0]], [x.s[1]])) else Raise(ValueError)
    ensures x.JObject? ==>
      r == if |KeysOf(x.fields)| == 2 then Ok((KeysOf(x.fields)[0], KeysOf(x.fields)[1])) else Raise(ValueError)
    ensures (x.JNull? || x.JBool? || x.JInt? || x.JFloat?) ==> r == Raise(TypeError)
  {
    match x
    case JArray(xs) => if |xs| != 2 then Raise(ValueError) else StringPair(xs[0], xs[1])
    case JString(s) => if |s| == 2 then Ok(([s[0]], [s[1]])) else Raise(ValueError)
    case JObject(fs) =>
      var ks := KeysOf(fs);
      if |ks| != 2 then Raise(ValueError) else Ok((ks[0], ks[1]))
    case _ => Raise(TypeError)
  }

  /** Unpacking every element in turn; the first that fails decides. */
  function UnpackAll(xs: seq<JsonValue>): (r: Result<seq<Pair>>)
    ensures r.Ok? <==> forall i :: 0 <= i < |xs| ==> Unpack(xs[i]).Ok?
    ensures r.Ok? ==> |r.value| == |xs| && forall i :: 0 <= i < |xs| ==> r.value[i] == Unpack(xs[i]).value
    decreases |xs|
  {
    if xs == [] then Ok([])
    else
      var front := UnpackAll(xs[..|xs| - 1]);
      assert forall i :: 0 <= i < |xs| - 1 ==> xs[..|xs| - 1][i] == xs[i];
      match front
      case Raise(e) => Raise(e)
      case Ok(ps) =>
        match Unpack(xs[|xs| - 1])
        case Raise(e) => Raise(e)
        case Ok(p) => Ok(ps + [p])
  }

  /** `for k, v in data` over a loaded map output: a list yields its
      elements, a dict its keys, a string its one-character strings (which
      never unpack); anything else is not iterable. */
  function MapOutputPairs(data: JsonValue): (r: Result<seq<Pair>>)
    ensures data.JArray? ==> r == UnpackAll(data.items)
    ensures data.JObject? ==> var ks := KeysOf(data.fields);
      && (r.Ok? <==> forall i :: 0 <= i < |ks| ==> |ks[i]| == 2)
      && (r.Ok? ==> |r.value| == |ks| && forall i :: 0 <= i < |ks| ==> r.value[i] == ([ks[i][0]], [ks[i][1]]))
    ensures data.JString? ==> r == if data.s == [] then Ok([]) else Raise(ValueError)
    ensures (data.JNull? || data.JBool? || data.JInt? || data.JFloat?) ==> r == Raise(TypeError)
  {
    match data
    case JArray(xs) => UnpackAll(xs)
    case JObject(fs) =>
      var ks := KeysOf(fs);
      var names := seq(|ks|, i requires 0 <= i < |ks| => JString(ks[i]));
      UnpackKeys(ks, names);
      assert data == JObject(fs) && KeysOf(data.fields) == ks;
      UnpackAll(names)
    case JString(s) => if s == [] then Ok([]) else Raise(ValueError)
    case _ => Raise(TypeError)
  }

  /** Iterating a dict yields its keys, and a key unpacks only if it has two characters. */
  lemma UnpackKeys(ks: seq<string>, names: seq<JsonValue>)
    requires |names| == |ks| && forall i :: 0 <= i < |ks| ==> names[i] == JString(ks[i])
    ensures UnpackAll(names).Ok? <==> forall i :: 0 <= i < |ks| ==> |ks[i]| == 2
    ensures UnpackAll(names).Ok? ==>
      |UnpackAll(names).value| == |ks| && forall i :: 0 <= i < |ks| ==> UnpackAll(names).value[i] == ([ks[i][0]], [ks[i][1]])
  {
    assert forall i :: 0 <= i < |ks| ==> (Unpack(names[i]).Ok? <==> |ks[i]| == 2);
  }

  /** The pairs of one map output file. */
  function FilePairs(fs: FileSystem, path: string): (r: Result<seq<Pair>>)
    ensures LoadJson(fs, path).Raise? ==> r == Raise(LoadJson(fs, path).exc)
    ensures LoadJson(fs, path).Ok? ==> r == MapOutputPairs(LoadJson(fs, path).value)
  {
    match LoadJson(fs, path)
    case Raise(e) => Raise(e)
    case Ok(data) => MapOutputPairs(data)
  }

  /** The pairs of all the map output files, file after file; the first file
      that cannot be read or unpacked decides the exception. */
  function AllPairs(fs: FileSystem, paths: seq<string>): Result<seq<Pair>>
    decreases |paths|
  {
    if paths == [] then Ok([])
    else
      match AllPairs(fs, paths[..|paths| - 1])
      case Raise(e) => Raise(e)
      case Ok(ps) =>
        match FilePairs(fs, paths[|paths| - 1])
        case Raise(e) => Raise(e)
        case Ok(qs) => Ok(ps + qs)
  }

  /** Once a prefix of the files fails, the whole list fails the same way. */
  lemma {:induction false} AllPairsPrefixRaise(fs: FileSystem, paths: seq<string>, n: nat)
    requires n <= |paths| && AllPairs(fs, paths[..n]).Raise?
    ensures AllPairs(fs, paths) == AllPairs(fs, paths[..n])
    decreases |paths| - n
  {
    if n == |paths| {
      assert paths[..n] == paths;
    } else {
      var m := |paths| - 1;
      assert paths[..m][..n] == paths[..n];
      if n < m {
        AllPairsPrefixRaise(fs, paths[..m], n);
      }
    }
  }

  /** The shuffle table: the pairs folded, in order, into
      `if k in d: d[k].append(v) else: d[k] = [v]`. */
  function Grouped(ps: seq<Pair>): (t: Table)
    ensures Valid(t)
    decreases |ps|
  {
    if ps == [] then Empty()
    else Append(Grouped(ps[..|ps| - 1]), ps[|ps| - 1].0, ps[|ps| - 1].1)
  }

  /** One more pair is one more `Append`. */
  lemma GroupedSnoc(ps: seq<Pair>, p: Pair)
    ensures Grouped(ps + [p]) == Append(Grouped(ps), p.0, p.1)
  {
    assert (ps + [p])[..|ps|] == ps;
  }

  predicate HasKey(ps: seq<Pair>, k: string) {
    exists i :: 0 <= i < |ps| && ps[i].0 == k
  }

  /** Every value paired with `k`, in pair order: the reference the grouping
      is measured against. */
  function ValuesOf(ps: seq<Pair>, k: string): seq<string>
    decreases |ps|
  {
    if ps == [] then []
    else ValuesOf(ps[..|ps| - 1], k) + (if ps[|ps| - 1].0 == k then [ps[|ps| - 1].1] else [])
  }

  /** The position of `k`'s first pair. */
  function FirstIndex(ps: seq<Pair>, k: string): (i: nat)
    requires HasKey(ps, k)
    ensures i < |ps| && ps[i].0 == k
    ensures forall j :: 0 <= j < i ==> ps[j].0 != k
    decreases |ps|
  {
    var front := ps[..|ps| - 1];
    if HasKey(front, k) then FirstIndex(front, k)
    else
      assert forall j :: 0 <= j < |front| ==> front[j] == ps[j];
      |ps| - 1
  }

  lemma HasKeyStep(ps: seq<Pair>, k: string)
    requires ps != []
    ensures HasKey(ps, k) <==> HasKey(ps[..|ps| - 1], k) || ps[|ps| - 1].0 == k
  {
    var front := ps[..|ps| - 1];
    if HasKey(ps, k) && ps[|ps| - 1].0 != k {
      var i :| 0 <= i < |ps| && ps[i].0 == k;
      assert front[i] == ps[i];
    }
    if HasKey(front, k) {
      var i :| 0 <= i < |front| && front[i].0 == k;
      assert ps[i] == front[i];
    }
  }

  /** The shuffle gives a key an entry exactly when some pair has that key,
      and the entry is every value paired with it, in order. */
  lemma {:induction false} GroupedEntries(ps: seq<Pair>, k: string)
    ensures k in Grouped(ps).entries <==> HasKey(ps, k)
    ensures k in Grouped(ps).entries ==> Grouped(ps).entries[k] == ValuesOf(ps, k)
    decreases |ps|
  {
    if ps != [] {
      var front := ps[..|ps| - 1];
      GroupedEntries(front, k);
      HasKeyStep(ps, k);
      if !HasKey(front, k) {
        GroupedNoKey(front, k);
      }
    }
  }

  /** A key with no pair has no values. */
  lemma {:induction false} GroupedNoKey(ps: seq<Pair>, k: string)
    requires !HasKey(ps, k)
    ensures ValuesOf(ps, k) == []
    decreases |ps|
  {
    if ps != [] {
      HasKeyStep(ps, k);
      GroupedNoKey(ps[..|ps| - 1], k);
    }
  }

  /** Every key listed has a pair, and the keys are listed in the order of
      their first pairs. */
  ghost predicate InFirstOrder(ps: seq<Pair>, keys: seq<string>) {
    && (forall i :: 0 <= i < |keys| ==> HasKey(ps, keys[i]))
    && (forall a, b :: 0 <= a < b < |keys| ==> FirstIndex(ps, keys[a]) < FirstIndex(ps, keys[b]))
  }

  /** A pair added at the end moves no key's first pair. */
  lemma FirstIndexExtend(ps: seq<Pair>, p: Pair, k: string)
    requires HasKey(ps, k)
    ensures HasKey(ps + [p], k) && FirstIndex(ps + [p], k) == FirstIndex(ps, k)
  {
    var i :| 0 <= i < |ps| && ps[i].0 == k;
    assert (ps + [p])[i] == ps[i];
    assert (ps + [p])[..|ps|] == ps;
  }

  lemma InFirstOrderExtend(ps: seq<Pair>, p: Pair, keys: seq<string>)
    requires InFirstOrder(ps, keys)
    ensures InFirstOrder(ps + [p], keys)
  {
    forall i | 0 <= i < |keys| ensures HasKey(ps + [p], keys[i]) && FirstIndex(ps + [p], keys[i]) == FirstIndex(ps, keys[i]) {
      FirstIndexExtend(ps, p, keys[i]);
    }
  }

  /** A key whose first pair is the added one goes last. */
  lemma InFirstOrderNew(ps: seq<Pair>, p: Pair, keys: seq<string>)
    requires InFirstOrder(ps, keys) && !HasKey(ps, p.0)
    ensures InFirstOrder(ps + [p], keys + [p.0])
  {
    var qs := ps + [p];
    InFirstOrderExtend(ps, p, keys);
    assert qs[..|qs| - 1] == ps;
    assert qs[|ps|] == p;
    assert HasKey(qs, p.0) && FirstIndex(qs, p.0) == |ps|;
    var ks := keys + [p.0];
    forall a, b | 0 <= a < b < |ks| ensures FirstIndex(qs, ks[a]) < FirstIndex(qs, ks[b]) {
      assert ks[a] == keys[a];
      if b < |keys| {
        assert ks[b] == keys[b];
      }
    }
  }

  /** The keys are the keys that occur, in the order of their first pair. */
  lemma {:induction false} GroupedKeyOrder(ps: seq<Pair>)
    ensures InFirstOrder(ps, Grouped(ps).keys)
    decreases |ps|
  {
    if ps != [] {
      var front := ps[..|ps| - 1];
      var p := ps[|ps| - 1];
      assert ps == front + [p];
      GroupedKeyOrder(front);
      if p.0 in Grouped(front).entries {
        InFirstOrderExtend(front, p, Grouped(front).keys);
      } else {
        GroupedEntries(front, p.0);
        InFirstOrderNew(front, p, Grouped(front).keys);
      }
    }
  }

  /** `f"{os.path.dirname(map_results_files[0])}/shuffle_results.txt"`. */
  function ShuffleName(first: string): string {
    Dirname(first) + "/shuffle_results.txt"
  }

  /** What `shuffle` returns: the name of the file the grouped table was
      dumped to, and the files after the dump. */
  function ShuffleSpec(fs: FileSystem, paths: seq<string>): Result<(string, FileSystem)> {
    match AllPairs(fs, paths)
    case Raise(e) => Raise(e)
    case Ok(ps) =>
      if paths == [] then Raise(IndexError)
      else
        var name := ShuffleName(paths[0]);
        match DumpJson(fs, name, TableJson(Grouped(ps)))
        case Raise(e) => Raise(e)
        case Ok(after) => Ok((name, after))
  }

  /** The inner loop of `shuffle`: one file's pairs, in order, join the
      table built from the earlier files. */
  method GroupInto(t: Table, ghost seen: seq<Pair>, pairs: seq<Pair>) returns (r: Table)
    requires t == Grouped(seen)
    ensures r == Grouped(seen + pairs)
  {
    r := t;
    ghost var done := seen;
    var n := |pairs|;
    for j := 0 to n
      invariant done == seen + pairs[..j] && r == Grouped(done)
    {
      GroupedPrefixStep(seen, pairs, j, done);
      r := Append(r, pairs[j].0, pairs[j].1);
      done := done + [pairs[j]];
    }
    assert pairs[..n] == pairs;
    assert done == seen + pairs;
  }

  /** The pair at `j` is one more `Append` onto the prefix before it. */
  lemma GroupedPrefixStep(seen: seq<Pair>, pairs: seq<Pair>, j: nat, done: seq<Pair>)
    requires j < |pairs| && done == seen + pairs[..j]
    ensures done + [pairs[j]] == seen + pairs[..j + 1]
    ensures Grouped(done + [pairs[j]]) == Append(Grouped(done), pairs[j].0, pairs[j].1)
  {
    assert pairs[..j + 1] == pairs[..j] + [pairs[j]];
    GroupedSnoc(done, pairs[j]);
  }

  /** `shuffle`: every key/value pair of every map output file, in file
      order and then pair order, goes into one table, which is dumped next
      to the first map output. */
  method Shuffle(paths: seq<string>, fs: FileSystem) returns (r: Result<(string, FileSystem)>)
    ensures r == ShuffleSpec(fs, paths)
  {
    var results := Empty();
    ghost var seen: seq<Pair> := [];
    var count := |paths|;
    for i := 0 to count
      invariant AllPairs(fs, paths[..i]) == Ok(seen)
      invariant results == Grouped(seen)
    {
      assert paths[..i + 1][..i] == paths[..i];
      var loaded := LoadJson(fs, paths[i]);
      if loaded.Raise? {
        AllPairsPrefixRaise(fs, paths, i + 1);
        return Raise(loaded.exc);
      }
      var data := MapOutputPairs(loaded.value);
      if data.Raise? {
        AllPairsPrefixRaise(fs, paths, i + 1);
        return Raise(data.exc);
      }
      var pairs := data.value;
      results := GroupInto(results, seen, pairs);
      seen := seen + pairs;
    }
    assert paths[..count] == paths;
    if |paths| == 0 {
      return Raise(IndexError);
    }
    var name := ShuffleName(paths[0]);
    var dumped := DumpJson(fs, name, TableJson(results));
    if dumped.Raise? {
      return Raise(dumped.exc);
    }
    r := Ok((name, dumped.value));
  }

  /** With no map output there is no first file to name the shuffle file
      after: IndexError. */
  lemma ShuffleNoOutputs(fs: FileSystem)
    ensures ShuffleSpec(fs, []) == Raise(IndexError)
  {
  }

  /** When the shuffle succeeds, the file it names sits next to the first
      map output, and reading it back gives, for each key, the values paired
      with it across all outputs in order, and nothing for any other key; no
      other file changes. */
  lemma ShuffleWrites(fs: FileSystem, paths: seq<string>, k: string, other: string)
    requires ShuffleSpec(fs, paths).Ok?
    ensures AllPairs(fs, paths).Ok? && paths != []
    ensures var (name, after) := ShuffleSpec(fs, paths).value;
      var ps := AllPairs(fs, paths).value;
      && name == ShuffleName(paths[0])
      && LoadJson(after, name).Ok? && LoadJson(after, name).value.JObject?
      && Get(LoadJson(after, name).value.fields, k) ==
           (if HasKey(ps, k) then Some(StringsJson(ValuesOf(ps, k))) else None)
      && (other != name ==> LoadJson(after, other) == LoadJson(fs, other))
  {
    var ps := AllPairs(fs, paths).value;
    var name := ShuffleName(paths[0]);
    var t := Grouped(ps);
    LoadAfterDump(fs, name, TableJson(t), other);
    TableJsonGet(t, k);
    GroupedEntries(ps, k);
  }

  // ---------------------------------------------------------------------
  // __split_shuffle

  /** `len(contents)` for a loaded JSON document: a dict counts its keys,
      a list its elements, a string its characters; anything else has no
      length (TypeError). */
  function Len(v: JsonValue): (r: Result<nat>)
    ensures r.Ok? <==> v.JObject? || v.JArray? || v.JString?
    ensures v.JObject? ==> r == Ok(|KeysOf(v.fields)|)
    ensures r.Raise? ==> r.exc == TypeError
  {
    match v
    case JObject(fs) => Ok(|KeysOf(fs)|)
    case JArray(xs) => Ok(|xs|)
    case JString(s) => Ok(|s|)
    case _ => Raise(TypeError)
  }

  /** A member of a loaded dict, as `contents.items()` yields it. */
  type Member = (string, JsonValue)

  /** `n // k` entries per chunk use up no more than the `n` entries there
      are, and leave fewer than `k` over. */
  lemma DivBound(n: nat, k: nat)
    requires k > 0
    ensures k * (n / k) <= n && n - k * (n / k) < k
  {
  }

  /** The same bound, for a list of `k` chunk names. */
  lemma NamesBound(names: seq<string>, n: nat, k: nat)
    requires |names| == k > 0
    ensures |names| * (n / k) <= n
  {
    DivBound(n, k);
  }

  /** Chunk `i` of `count`: entries `[i*cs, (i+1)*cs)` with
      `cs = len // count`. */
  function Run(items: seq<Member>, count: nat, i: nat): seq<Member>
    requires i < count
  {
    var size := |items| / count;
    DivBound(|items|, count);
    SliceInside(i, count, size, |items|);
    items[i * size..(i + 1) * size]
  }

  /** Writing chunk `i` (entries `[i*size, (i+1)*size)`) to `names[i]` for
      each name in order; the first unwritable file stops it. */
  function DumpChunks(fs: FileSystem, names: seq<string>, items: seq<Member>, size: nat): Result<FileSystem>
    requires |names| * size <= |items|
    decreases |names|
  {
    if names == [] then Ok(fs)
    else
      var n := |names| - 1;
      SliceInside(n, |names|, size, |items|);
      MulLe(n, |names|, size);
      match DumpChunks(fs, names[..n], items, size)
      case Raise(e) => Raise(e)
      case Ok(written) => DumpJson(written, names[n], JObject(items[n * size..(n + 1) * size]))
  }

  /** Once the chunks of a prefix of the names fail, the whole run fails
      the same way. */
  lemma {:induction false} DumpChunksPrefixRaise(fs: FileSystem, names: seq<string>, items: seq<Member>, size: nat, i: nat)
    requires i <= |names| && |names| * size <= |items|
    requires (MulLe(i, |names|, size); DumpChunks(fs, names[..i], items, size).Raise?)
    ensures (MulLe(i, |names|, size); DumpChunks(fs, names, items, size) == DumpChunks(fs, names[..i], items, size))
    decreases |names| - i
  {
    MulLe(i, |names|, size);
    if i == |names| {
      assert names[..i] == names;
    } else {
      var m := |names| - 1;
      MulLe(m, |names|, size);
      assert names[..m][..i] == names[..i];
      if i < m {
        DumpChunksPrefixRaise(fs, names[..m], items, size, i);
      }
    }
  }

  /** The loop of `__split_shuffle`: chunk `i` of the dict's items is
      dumped, as a dict, to the `i`-th name. */
  method DumpLoop(names: seq<string>, items: seq<Member>, size: nat, fs: FileSystem) returns (r: Result<FileSystem>)
    requires |names| * size <= |items|
    ensures r == DumpChunks(fs, names, items, size)
  {
    var cur := fs;
    var count := |names|;
    assert names[..0] == [];
    for i := 0 to count
      invariant i * size <= |items|
      invariant DumpChunks(fs, names[..i], items, size) == Ok(cur)
    {
      SliceInside(i, count, size, |items|);
      var data := items[i * size..(i + 1) * size];
      var dumped := DumpJson(cur, names[i], JObject(data));
      assert names[..i + 1][..i] == names[..i];
      if dumped.Raise? {
        DumpChunksPrefixRaise(fs, names, items, size, i + 1);
        return Raise(dumped.exc);
      }
      cur := dumped.value;
    }
    assert names[..count] == names;
    r := Ok(cur);
  }

  /** The loop of `__split_shuffle` over a loaded dict's items, with one
      name per chunk: runs of `len // split_count` entries. */
  function SplitDict(fs: FileSystem, names: seq<string>, items: seq<Member>): Result<(seq<string>, FileSystem)>
    requires |names| > 0
  {
    NamesBound(names, |items|, |names|);
    match DumpChunks(fs, names, items, |items| / |names|)
    case Raise(e) => Raise(e)
    case Ok(after) => Ok((names, after))
  }

  /** What `__split_shuffle` returns: the chunk file names, and the files
      after writing them. */
  function SplitShuffleSpec(fs: FileSystem, filename: string, splitCount: int): Result<(seq<string>, FileSystem)> {
    match LoadJson(fs, filename)
    case Raise(e) => Raise(e)
    case Ok(contents) =>
      match Len(contents)
      case Raise(e) => Raise(e)
      case Ok(n) =>
        if splitCount == 0 then Raise(ZeroDivisionError)
        else if splitCount < 0 then Ok(([], fs))
        else if !contents.JObject? then Raise(AttributeError)
        else SplitDict(fs, ChunkNames(filename, splitCount), Items(contents.fields))
  }

  /** `__split_shuffle`: the loaded dict's items are cut into `split_count`
      runs of `len // split_count` entries, each dumped to its own chunk
      file. */
  method SplitShuffle(filename: string, splitCount: int, fs: FileSystem) returns (r: Result<(seq<string>, FileSystem)>)
    ensures r == SplitShuffleSpec(fs, filename, splitCount)
  {
    var loaded := LoadJson(fs, filename);
    if loaded.Raise? {
      return Raise(loaded.exc);
    }
    var contents := loaded.value;
    var length := Len(contents);
    if length.Raise? {
      return Raise(length.exc);
    }
    var n := length.value;
    if splitCount == 0 {
      return Raise(ZeroDivisionError);
    }
    var size := n / splitCount;
    if splitCount < 0 {
      return Ok(([], fs));
    }
    if !contents.JObject? {
      // `contents.items()` in the first round of the loop
      return Raise(AttributeError);
    }
    var names := ChunkNames(filename, splitCount);
    var items := Items(contents.fields);
    NamesBound(names, n, splitCount);
    var dumped := DumpLoop(names, items, size, fs);
    if dumped.Raise? {
      return Raise(dumped.exc);
    }
    r := Ok((names, dumped.value));
  }

  /** After the chunks are dumped to distinct names, each name holds its
      chunk as a dict and every other file is as it was. */
  lemma {:induction false} DumpChunksContents(fs: FileSystem, names: seq<string>, items: seq<Member>, size: nat, other: string)
    requires |names| * size <= |items| && DumpChunks(fs, names, items, size).Ok?
    requires forall a, b :: 0 <= a < b < |names| ==> names[a] != names[b]
    ensures forall i :: 0 <= i < |names| ==>
      (SliceInside(i, |names|, size, |items|);
       LoadJson(DumpChunks(fs, names, items, size).value, names[i]) == Ok(JObject(items[i * size..(i + 1) * size])))
    ensures other !in names ==> LoadJson(DumpChunks(fs, names, items, size).value, other) == LoadJson(fs, other)
    decreases |names|
  {
    if names != [] {
      var n := |names| - 1;
      var front := names[..n];
      MulLe(n, |names|, size);
      SliceInside(n, |names|, size, |items|);
      var written := DumpChunks(fs, front, items, size).value;
      var v := JObject(items[n * size..(n + 1) * size]);
      var after := DumpChunks(fs, names, items, size).value;
      assert after == DumpJson(written, names[n], v).value;
      DumpChunksContents(fs, front, items, size, other);
      DumpChunksContents(fs, front, items, size, names[n]);
      forall i | 0 <= i < |names|
        ensures (SliceInside(i, |names|, size, |items|);
          LoadJson(after, names[i]) == Ok(JObject(items[i * size..(i + 1) * size])))
      {
        SliceInside(i, |names|, size, |items|);
        LoadAfterDump(written, names[n], v, names[i]);
        if i < n {
          assert names[i] == front[i];
        }
      }
      LoadAfterDump(written, names[n], v, other);
    }
  }

  /** Dumping to distinct names: each chunk file holds exactly its run of
      entries, and no other file changes. */
  lemma SplitDictChunks(fs: FileSystem, names: seq<string>, items: seq<Member>, i: nat, other: string)
    requires 0 <= i < |names| && SplitDict(fs, names, items).Ok?
    requires forall a, b :: 0 <= a < b < |names| ==> names[a] != names[b]
    ensures var (written, after) := SplitDict(fs, names, items).value;
      && written == names
      && LoadJson(after, names[i]) == Ok(JObject(Run(items, |names|, i)))
      && (other !in names ==> LoadJson(after, other) == LoadJson(fs, other))
  {
    var size := |items| / |names|;
    NamesBound(names, |items|, |names|);
    SliceInside(i, |names|, size, |items|);
    DumpChunksContents(fs, names, items, size, other);
  }

  /** When the split succeeds with `k > 0` chunks, there are exactly `k`
      chunk files, named after the shuffle file, and chunk `i` holds exactly
      the entries `[i*cs, (i+1)*cs)` of the dict with `cs = len // k`;
      no other file changes. */
  lemma SplitShuffleChunks(fs: FileSystem, filename: string, splitCount: int, i: nat, other: string)
    requires splitCount > 0 && SplitShuffleSpec(fs, filename, splitCount).Ok?
    requires i < splitCount
    ensures LoadJson(fs, filename).Ok? && LoadJson(fs, filename).value.JObject?
    ensures var items := Items(LoadJson(fs, filename).value.fields);
      var (names, after) := SplitShuffleSpec(fs, filename, splitCount).value;
      && names == ChunkNames(filename, splitCount)
      && LoadJson(after, names[i]) == Ok(JObject(Run(items, splitCount, i)))
      && (other !in names ==> LoadJson(after, other) == LoadJson(fs, other))
  {
    var contents := LoadJson(fs, filename).value;
    assert Len(contents).Ok?;
    var names := ChunkNames(filename, splitCount);
    var items := Items(contents.fields);
    assert SplitShuffleSpec(fs, filename, splitCount) == SplitDict(fs, names, items);
    ChunkNamesAllDistinct(filename, splitCount);
    SplitDictChunks(fs, names, items, i, other);
  }

  lemma ChunkNamesAllDistinct(filename: string, n: nat)
    ensures forall a, b :: 0 <= a < b < n ==> ChunkNames(filename, n)[a] != ChunkNames(filename, n)[b]
  {
    var names := ChunkNames(filename, n);
    forall a, b | 0 <= a < b < n ensures names[a] != names[b] {
      if names[a] == names[b] {
        ChunkNamesDistinct(filename, a, b);
      }
    }
  }

  /** Two different chunks share no key: the dict's keys are distinct and
      the runs do not overlap. */
  lemma ChunksDisjoint(fields: seq<(string, JsonValue)>, count: nat, i: nat, j: nat)
    requires i < count && j < count && i != j
    ensures forall m, m' :: m in Run(Items(fields), count, i) && m' in Run(Items(fields), count, j) ==> m.0 != m'.0
  {
    var lo, hi, lo', hi' := RunsBounds(Items(fields), count, i, j);
    KeysApart(fields, lo, hi, lo', hi');
  }

  /** Where runs `i` and `j` lie: two index ranges, one before the other. */
  lemma RunsBounds(items: seq<Member>, count: nat, i: nat, j: nat) returns (lo: nat, hi: nat, lo': nat, hi': nat)
    requires i < count && j < count && i != j
    ensures lo <= hi <= |items| && lo' <= hi' <= |items| && (hi <= lo' || hi' <= lo)
    ensures Run(items, count, i) == items[lo..hi] && Run(items, count, j) == items[lo'..hi']
  {
    var size := |items| / count;
    DivBound(|items|, count);
    SliceInside(i, count, size, |items|);
    SliceInside(j, count, size, |items|);
    RunsApart(i, j, size);
    lo, hi, lo', hi' := i * size, (i + 1) * size, j * size, (j + 1) * size;
  }

  /** Entries in two index ranges that do not overlap have different keys. */
  lemma KeysApart(fields: seq<(string, JsonValue)>, lo: nat, hi: nat, lo': nat, hi': nat)
    requires lo <= hi <= |Items(fields)| && lo' <= hi' <= |Items(fields)|
    requires hi <= lo' || hi' <= lo
    ensures forall m, m' :: m in Items(fields)[lo..hi] && m' in Items(fields)[lo'..hi'] ==> m.0 != m'.0
  {
    var items := Items(fields);
    var r, r' := items[lo..hi], items[lo'..hi'];
    forall m, m' | m in r && m' in r' ensures m.0 != m'.0 {
      var x :| 0 <= x < |r| && r[x] == m;
      var y :| 0 <= y < |r'| && r'[y] == m';
      assert items[lo + x] == m && items[lo' + y] == m';
      assert items[lo + x].0 == KeysOf(fields)[lo + x] && items[lo' + y].0 == KeysOf(fields)[lo' + y];
    }
  }

  /** Runs `i` and `j` of `size` entries lie one wholly before the other. */
  lemma RunsApart(i: nat, j: nat, size: nat)
    requires i != j
    ensures (i + 1) * size <= j * size || (j + 1) * size <= i * size
  {
    if i < j {
      MulLe(i + 1, j, size);
    } else {
      MulLe(j + 1, i, size);
    }
  }

  /** How many entries `count` chunks of `n // count` entries cover. */
  function Covered(n: nat, count: nat): nat
    requires count > 0
  {
    count * (n / count)
  }

  /** The entries past the last full chunk, `len - k*cs` of them (fewer than
      `k`), are in no chunk. */
  lemma RemainderDropped(fields: seq<(string, JsonValue)>, count: nat, e: nat)
    requires count > 0 && Covered(|Items(fields)|, count) <= e < |Items(fields)|
    ensures |Items(fields)| - Covered(|Items(fields)|, count) < count
    ensures forall i, m :: 0 <= i < count && m in Run(Items(fields), count, i) ==> m.0 != Items(fields)[e].0
  {
    var items := Items(fields);
    var size := |items| / count;
    DivBound(|items|, count);
    forall i, m | 0 <= i < count && m in Run(items, count, i) ensures m.0 != items[e].0 {
      SliceInside(i, count, size, |items|);
      var run := items[i * size..(i + 1) * size];
      var k :| 0 <= k < |run| && run[k] == m;
      var a := i * size + k;
      assert items[a] == m;
      assert items[a].0 == KeysOf(fields)[a] && items[e].0 == KeysOf(fields)[e];
    }
  }

  /** Five keys on two workers: two chunks of two keys, and the fifth key
      goes to nobody. */
  lemma FiveKeysTwoWorkers(fields: seq<(string, JsonValue)>)
    requires |Items(fields)| == 5
    ensures Run(Items(fields), 2, 0) == Items(fields)[..2]
    ensures Run(Items(fields), 2, 1) == Items(fields)[2..4]
    ensures forall i, m :: 0 <= i < 2 && m in Run(Items(fields), 2, i) ==> m.0 != Items(fields)[4].0
  {
    RemainderDropped(fields, 2, 4);
  }

  /** No workers: once the shuffle file is read and sized, the split divides
      by zero. */
  lemma SplitShuffleNoWorkers(fs: FileSystem, filename: string)
    requires LoadJson(fs, filename).Ok? && Len(LoadJson(fs, filename).value).Ok?
    ensures SplitShuffleSpec(fs, filename, 0) == Raise(ZeroDivisionError)
  {
  }

  // ---------------------------------------------------------------------
  // Worker bookkeeping shared by run_map and run_reduce
  //
  // A worker is any value `W` with equality. What the source asks of it
  // (`map`/`reduce` answering `True`, `task_done.wait(10)` coming back in
  // time, `get_last_result()`) arrives as inputs indexed by call number:
  // `accepts(n)` for the n-th dispatch, `done(m)` and `lastResult(m)` for
  // the m-th wait.

  /** `list.remove(w)`: the first element equal to `w` goes; ValueError
      when there is none. */
  function Remove<W(==)>(ws: seq<W>, w: W): (r: Result<seq<W>>)
    ensures r.Ok? <==> w in ws
    ensures r.Raise? ==> r.exc == ValueError
    decreases |ws|
  {
    if ws == [] then Raise(ValueError)
    else if ws[0] == w then
      assert ws == [ws[0]] + ws[1..];
      Ok(ws[1..])
    else
      assert ws == [ws[0]] + ws[1..];
      match Remove(ws[1..], w)
      case Raise(e) => Raise(e)
      case Ok(rest) => Ok([ws[0]] + rest)
  }

  /** Removal takes exactly one copy of `w` away and keeps every other
      element. */
  lemma {:induction false} RemoveMultiset<W>(ws: seq<W>, w: W)
    requires w in ws
    ensures multiset(Remove(ws, w).value) == multiset(ws) - multiset{w}
    decreases |ws|
  {
    assert ws == [ws[0]] + ws[1..];
    if ws[0] != w {
      var tail := ws[1..];
      assert w in tail;
      RemoveMultiset(tail, w);
      assert Remove(ws, w).value == [ws[0]] + Remove(tail, w).value;
    }
  }

  /** The removals `workers.remove(w)` for each `w` in turn. */
  function RemoveAll<W(==)>(ws: seq<W>, gone: seq<W>): Result<seq<W>>
    decreases |gone|
  {
    if gone == [] then Ok(ws)
    else
      match RemoveAll(ws, gone[..|gone| - 1])
      case Raise(e) => Raise(e)
      case Ok(rest) => Remove(rest, gone[|gone| - 1])
  }

  /** The removals succeed exactly when each removed worker is there to
      be removed, and then take one copy of each away. */
  lemma {:induction false} RemoveAllMultiset<W>(ws: seq<W>, gone: seq<W>)
    requires RemoveAll(ws, gone).Ok?
    ensures multiset(gone) <= multiset(ws)
    ensures multiset(RemoveAll(ws, gone).value) == multiset(ws) - multiset(gone)
    decreases |gone|
  {
    if gone != [] {
      var n := |gone| - 1;
      var init := gone[..n];
      assert gone == init + [gone[n]];
      RemoveAllMultiset(ws, init);
      var rest := RemoveAll(ws, init).value;
      assert gone[n] in rest;
      RemoveMultiset(rest, gone[n]);
    }
  }

  /** How many of dispatches `0 .. n-1` were accepted. */
  function Accepted(accepts: nat -> bool, n: nat): nat
    decreases n
  {
    if n == 0 then 0 else Accepted(accepts, n - 1) + (if accepts(n - 1) then 1 else 0)
  }

  /** The workers of the accepted dispatches, in dispatch order. */
  function AcceptedWorkers<W, C>(calls: seq<(W, C)>, accepts: nat -> bool): seq<W>
    decreases |calls|
  {
    if calls == [] then []
    else
      var n := |calls| - 1;
      AcceptedWorkers(calls[..n], accepts) + (if accepts(n) then [calls[n].0] else [])
  }

  /** The workers whose wait timed out, in wait order. */
  function TimedOut<W>(waits: seq<W>, done: nat -> bool): seq<W>
    decreases |waits|
  {
    if waits == [] then []
    else
      var m := |waits| - 1;
      TimedOut(waits[..m], done) + (if done(m) then [] else [waits[m]])
  }

  /** `results_files.append(result["output"])` for each of waits
      `0 .. m-1` that came back in time; a result without `output` stops it
      (KeyError, or TypeError for a result that is not a dict). */
  function Collected(done: nat -> bool, lastResult: nat -> JsonValue, m: nat): (r: Result<seq<JsonValue>>)
    ensures r.Raise? ==> r.exc in {KeyError, TypeError}
    ensures r.Ok? ==> |r.value| <= m
    decreases m
  {
    if m == 0 then Ok([])
    else
      match Collected(done, lastResult, m - 1)
      case Raise(e) => Raise(e)
      case Ok(rs) =>
        if !done(m - 1) then Ok(rs)
        else
          match Subscript(lastResult(m - 1), "output")
          case Raise(e) => Raise(e)
          case Ok(v) => Ok(rs + [v])
  }

  /** One worker is waited for per accepted dispatch. */
  lemma {:induction false} AcceptedWorkersCount<W, C>(calls: seq<(W, C)>, accepts: nat -> bool)
    ensures |AcceptedWorkers(calls, accepts)| == Accepted(accepts, |calls|)
    decreases |calls|
  {
    if calls != [] {
      AcceptedWorkersCount(calls[..|calls| - 1], accepts);
    }
  }

  /** One more dispatch. */
  lemma AcceptedWorkersSnoc<W, C>(calls: seq<(W, C)>, c: (W, C), accepts: nat -> bool)
    ensures AcceptedWorkers(calls + [c], accepts) ==
      AcceptedWorkers(calls, accepts) + (if accepts(|calls|) then [c.0] else [])
  {
    assert (calls + [c])[..|calls|] == calls;
  }

  /** One more wait. */
  lemma TimedOutSnoc<W>(waits: seq<W>, w: W, done: nat -> bool)
    ensures TimedOut(waits + [w], done) == TimedOut(waits, done) + (if done(|waits|) then [] else [w])
  {
    assert (waits + [w])[..|waits|] == waits;
  }

  /** One more removal. */
  lemma RemoveAllSnoc<W>(ws: seq<W>, gone: seq<W>, w: W)
    ensures RemoveAll(ws, gone + [w]) ==
      match RemoveAll(ws, gone) case Raise(e) => Raise(e) case Ok(rest) => Remove(rest, w)
  {
    assert (gone + [w])[..|gone|] == gone;
  }

  /** A dispatched chunk is the one at index `sent_chunks`, which only an
      accepted dispatch moves on: an accepted dispatch is followed by no
      other dispatch of the same chunk. */
  lemma {:induction false} AcceptedStrict(accepts: nat -> bool, a: nat, b: nat)
    requires a < b && accepts(a)
    ensures Accepted(accepts, a) < Accepted(accepts, b)
    decreases b
  {
    if b > a + 1 {
      AcceptedStrict(accepts, a, b - 1);
    }
  }

  /** A rejected dispatch leaves the same chunk for the next one. */
  lemma RejectedKeepsChunk(accepts: nat -> bool, n: nat)
    requires !accepts(n)
    ensures Accepted(accepts, n + 1) == Accepted(accepts, n)
  {
  }

  /** Every chunk below the count went to some accepted dispatch. */
  lemma {:induction false} AcceptedReachesEvery(accepts: nat -> bool, n: nat, c: nat)
    requires c < Accepted(accepts, n)
    ensures exists j :: 0 <= j < n && accepts(j) && Accepted(accepts, j) == c
    decreases n
  {
    if Accepted(accepts, n - 1) > c {
      AcceptedReachesEvery(accepts, n - 1, c);
    } else {
      assert accepts(n - 1) && Accepted(accepts, n - 1) == c;
    }
  }

  /** With no dispatch accepted, nothing is ever sent. */
  lemma {:induction false} AcceptedNone(accepts: nat -> bool, n: nat)
    requires forall j :: !accepts(j)
    ensures Accepted(accepts, n) == 0
    decreases n
  {
    if n > 0 {
      AcceptedNone(accepts, n - 1);
    }
  }

  // ---------------------------------------------------------------------
  // run_map

  /** How a `run_map` loop ended: it returned, it raised, or it was still
      going after the rounds the model allows. */
  datatype MapStatus = Finished | Stopped(exc: Exc) | StillRunning

  /** `sent_chunks` counts the accepted dispatches, and every dispatch so
      far offered the chunk at index `sent_chunks` as it then was, which
      existed. */
  ghost predicate Offered<W>(accepts: nat -> bool, chunkCount: nat, sent: nat, calls: seq<(W, nat)>) {
    && sent == Accepted(accepts, |calls|) <= chunkCount
    && (forall n :: 0 <= n < |calls| ==> calls[n].1 == Accepted(accepts, n) < chunkCount)
  }

  /** One more dispatch of chunk `sent_chunks`. */
  lemma OfferedStep<W>(accepts: nat -> bool, chunkCount: nat, sent: nat, calls: seq<(W, nat)>, w: W)
    requires Offered(accepts, chunkCount, sent, calls) && sent < chunkCount
    ensures Offered(accepts, chunkCount, if accepts(|calls|) then sent + 1 else sent, calls + [(w, sent)])
  {
    var cs := calls + [(w, sent)];
    forall n | 0 <= n < |cs| ensures cs[n].1 == Accepted(accepts, n) < chunkCount {
      if n < |calls| {
        assert cs[n] == calls[n];
      }
    }
  }

  /** The first loop of a round as a value, from worker `members[0]` on:
      each worker is offered chunk `sent`; once every chunk has gone, the
      next worker's `chunk_files[sent_chunks]` raises IndexError. Gives
      whether it raised, the new `sent_chunks`, the dispatches so far and
      `working_nodes`. */
  function DispatchSpec<W>(chunkCount: nat, members: seq<W>, accepts: nat -> bool, sent: nat,
      calls: seq<(W, nat)>, working: seq<W>): (bool, nat, seq<(W, nat)>, seq<W>)
    decreases |members|
  {
    if members == [] then (false, sent, calls, working)
    else if sent >= chunkCount then (true, sent, calls, working)
    else
      var ok := accepts(|calls|);
      DispatchSpec(chunkCount, members[1..], accepts, if ok then sent + 1 else sent,
        calls + [(members[0], sent)], if ok then working + [members[0]] else working)
  }

  /** The second loop of a round as a value: each worker of `working` is
      waited for in turn; a timeout removes it from `workers` (ValueError
      if it is not there), a finish appends its result's `output`, and a
      result without one stops the loop. */
  function AwaitSpec<W(==)>(working: seq<W>, done: nat -> bool, lastResult: nat -> JsonValue,
      results: seq<JsonValue>, workers: seq<W>, waits: seq<W>): (Option<Exc>, seq<JsonValue>, seq<W>, seq<W>)
    decreases |working|
  {
    if working == [] then (None, results, workers, waits)
    else
      var w := working[0];
      var m := |waits|;
      assert working == [w] + working[1..];
      if !done(m) then
        match Remove(workers, w)
        case Raise(e) => (Some(e), results, workers, waits + [w])
        case Ok(rest) => AwaitSpec(working[1..], done, lastResult, results, rest, waits + [w])
      else
        match Subscript(lastResult(m), "output")
        case Raise(e) => (Some(e), results, workers, waits + [w])
        case Ok(v) => AwaitSpec(working[1..], done, lastResult, results + [v], workers, waits + [w])
  }

  /** The waiting loop raises only KeyError, TypeError (a result without
      `output`) or ValueError (removing a missing worker). It adds at most
      one result per worker waited for, and when it does not raise it has
      waited for every working worker, in order. */
  lemma {:induction false} AwaitSpecShape<W>(working: seq<W>, done: nat -> bool, lastResult: nat -> JsonValue,
      results: seq<JsonValue>, workers: seq<W>, waits: seq<W>)
    ensures var r := AwaitSpec(working, done, lastResult, results, workers, waits);
      && (r.0.Some? ==> r.0.value in {KeyError, TypeError, ValueError})
      && |results| <= |r.1| <= |results| + |working|
      && (r.0.None? ==> r.3 == waits + working)
    decreases |working|
  {
    if working != [] {
      var w := working[0];
      var m := |waits|;
      assert working == [w] + working[1..];
      if !done(m) {
        match Remove(workers, w)
        case Raise(_) =>
        case Ok(rest) => AwaitSpecShape(working[1..], done, lastResult, results, rest, waits + [w]);
      } else {
        match Subscript(lastResult(m), "output")
        case Raise(_) =>
        case Ok(v) => AwaitSpecShape(working[1..], done, lastResult, results + [v], workers, waits + [w]);
      }
    }
  }

  /** The state `run_map` carries from round to round: `sent_chunks`,
      `results_files`, the caller's `workers` list, and the dispatches and
      waits made so far. */
  datatype MapState<W> = MapState(sent: nat, results: seq<JsonValue>, workers: seq<W>,
    calls: seq<(W, nat)>, waits: seq<W>)

  /** One pass of the `while` loop of `run_map` as a value: dispatch to
      every worker of the list, then wait for those that accepted. */
  function RoundSpec<W(==)>(chunkCount: nat, accepts: nat -> bool, done: nat -> bool,
      lastResult: nat -> JsonValue, s: MapState<W>): (Option<Exc>, MapState<W>)
  {
    var d := DispatchSpec(chunkCount, s.workers, accepts, s.sent, s.calls, []);
    if d.0 then (Some(IndexError), MapState(d.1, s.results, s.workers, d.2, s.waits))
    else
      var a := AwaitSpec(d.3, done, lastResult, s.results, s.workers, s.waits);
      (a.0, MapState(d.1, a.1, a.2, d.2, a.3))
  }

  /** The `while` loop of `run_map` as a value, for at most `rounds`
      rounds: it returns once `sent_chunks` reaches the chunk count and
      stops at the first exception a round raises. */
  function RunMapSpec<W(==)>(chunkCount: nat, rounds: nat, accepts: nat -> bool, done: nat -> bool,
      lastResult: nat -> JsonValue, s: MapState<W>): (MapStatus, MapState<W>)
    decreases rounds
  {
    if s.sent >= chunkCount then (Finished, s)
    else if rounds == 0 then (StillRunning, s)
    else
      var r := RoundSpec(chunkCount, accepts, done, lastResult, s);
      if r.0.Some? then (Stopped(r.0.value), r.1)
      else RunMapSpec(chunkCount, rounds - 1, accepts, done, lastResult, r.1)
  }

  /** A round's dispatch loop raises IndexError exactly when, as some
      worker of the list is reached, every chunk has already been
      accepted; both directions. */
  lemma {:induction false} DispatchRaisesIff<W>(chunkCount: nat, members: seq<W>, accepts: nat -> bool,
      sent: nat, calls: seq<(W, nat)>, working: seq<W>)
    requires sent == Accepted(accepts, |calls|)
    ensures DispatchSpec(chunkCount, members, accepts, sent, calls, working).0 <==>
      exists k :: |calls| <= k < |calls| + |members| && Accepted(accepts, k) >= chunkCount
    decreases |members|
  {
    if members == [] {
    } else if sent >= chunkCount {
      assert Accepted(accepts, |calls|) >= chunkCount;
    } else {
      var ok := accepts(|calls|);
      var calls' := calls + [(members[0], sent)];
      var sent' := if ok then sent + 1 else sent;
      DispatchRaisesIff(chunkCount, members[1..], accepts, sent', calls',
        if ok then working + [members[0]] else working);
      if exists k :: |calls| <= k < |calls| + |members| && Accepted(accepts, k) >= chunkCount {
        var k :| |calls| <= k < |calls| + |members| && Accepted(accepts, k) >= chunkCount;
        assert k != |calls|;
        assert |calls'| <= k < |calls'| + |members[1..]|;
      }
    }
  }

  /** Of a round's exceptions only the dispatch loop raises IndexError, so
      a round raises it exactly as `DispatchRaisesIff` says. */
  lemma RoundIndexErrorIff<W>(chunkCount: nat, accepts: nat -> bool, done: nat -> bool,
      lastResult: nat -> JsonValue, s: MapState<W>)
    requires s.sent == Accepted(accepts, |s.calls|)
    ensures RoundSpec(chunkCount, accepts, done, lastResult, s).0 == Some(IndexError) <==>
      exists k :: |s.calls| <= k < |s.calls| + |s.workers| && Accepted(accepts, k) >= chunkCount
  {
    DispatchRaisesIff(chunkCount, s.workers, accepts, s.sent, s.calls, []);
    var d := DispatchSpec(chunkCount, s.workers, accepts, s.sent, s.calls, []);
    AwaitSpecShape(d.3, done, lastResult, s.results, s.workers, s.waits);
  }

  /** One chunk and one worker that accepts and finishes with output `v`:
      the run returns `[v]` after one round. */
  lemma OneChunkOneWorker<W>(w: W, rounds: nat, accepts: nat -> bool, done: nat -> bool,
      lastResult: nat -> JsonValue, v: JsonValue)
    requires rounds > 0 && accepts(0) && done(0) && lastResult(0) == JObject([("output", v)])
    ensures RunMapSpec(1, rounds, accepts, done, lastResult, MapState(0, [], [w], [], [])) ==
      (Finished, MapState(1, [v], [w], [(w, 0)], [w]))
  {
    var none: seq<W> := [];
    var noCalls: seq<(W, nat)> := [];
    var noResults: seq<JsonValue> := [];
    assert [w][1..] == none && none + [w] == [w] && noCalls + [(w, 0)] == [(w, 0)] && noResults + [v] == [v];
    assert DispatchSpec(1, [w], accepts, 0, [], none) == DispatchSpec(1, none, accepts, 1, [(w, 0)], [w]);
    assert Subscript(lastResult(0), "output") == Ok(v);
    assert AwaitSpec([w], done, lastResult, [], [w], none) == AwaitSpec(none, done, lastResult, [v], [w], [w]);
    var s := MapState(0, [], [w], [], none);
    assert RoundSpec(1, accepts, done, lastResult, s) == (None, MapState(1, [v], [w], [(w, 0)], [w]));
  }

  /** One chunk and two workers of which the first accepts: the second
      worker's `chunk_files[1]` raises IndexError before anything is
      waited for. */
  lemma OneChunkTwoWorkers<W>(a: W, b: W, rounds: nat, accepts: nat -> bool, done: nat -> bool,
      lastResult: nat -> JsonValue)
    requires rounds > 0 && accepts(0)
    ensures RunMapSpec(1, rounds, accepts, done, lastResult, MapState(0, [], [a, b], [], [])) ==
      (Stopped(IndexError), MapState(1, [], [a, b], [(a, 0)], []))
  {
    var none: seq<W> := [];
    var noCalls: seq<(W, nat)> := [];
    assert [a, b][1..] == [b] && none + [a] == [a] && noCalls + [(a, 0)] == [(a, 0)];
    assert DispatchSpec(1, [a, b], accepts, 0, [], none) == DispatchSpec(1, [b], accepts, 1, [(a, 0)], [a]);
    var s := MapState(0, [], [a, b], [], none);
    assert RoundSpec(1, accepts, done, lastResult, s) == (Some(IndexError), MapState(1, [], [a, b], [(a, 0)], none));
  }

  lemma MultisetSnoc<W>(ws: seq<W>, j: nat)
    requires j < |ws|
    ensures multiset(ws[..j + 1]) == multiset(ws[..j]) + multiset{ws[j]}
  {
    assert ws[..j + 1] == ws[..j] + [ws[j]];
  }

  lemma MultisetPrefix<W>(ws: seq<W>, j: nat)
    requires j <= |ws|
    ensures multiset(ws[..j]) <= multiset(ws)
  {
    assert ws == ws[..j] + ws[j..];
  }

  /** The first loop of a round: each worker in turn is offered chunk
      `sent_chunks`; those that accept join `working_nodes`. Reading past
      the last chunk is an IndexError. */
  method Dispatch<W(==)>(chunkCount: nat, members: seq<W>, accepts: nat -> bool, sent0: nat, calls0: seq<(W, nat)>)
    returns (failed: bool, sent: nat, calls: seq<(W, nat)>, working: seq<W>)
    requires Offered(accepts, chunkCount, sent0, calls0)
    ensures Offered(accepts, chunkCount, sent, calls)
    ensures AcceptedWorkers(calls, accepts) == AcceptedWorkers(calls0, accepts) + working
    ensures multiset(working) <= multiset(members)
    ensures failed ==> sent == chunkCount
    ensures |calls0| <= |calls| <= |calls0| + |members| && calls[..|calls0|] == calls0
    ensures forall j :: 0 <= j < |calls| - |calls0| ==> calls[|calls0| + j].0 == members[j]
    ensures !failed ==> |calls| == |calls0| + |members|
    ensures failed ==> |calls| < |calls0| + |members|
    ensures (failed, sent, calls, working) == DispatchSpec(chunkCount, members, accepts, sent0, calls0, [])
  {
    failed, sent, calls, working := false, sent0, calls0, [];
    assert members[0..] == members;
    ghost var made: seq<(W, nat)> := [];
    var count := |members|;
    for j := 0 to count
      invariant Offered(accepts, chunkCount, sent, calls)
      invariant calls == calls0 + made && |made| == j
      invariant forall i :: 0 <= i < j ==> made[i].0 == members[i]
      invariant AcceptedWorkers(calls, accepts) == AcceptedWorkers(calls0, accepts) + working
      invariant multiset(working) <= multiset(members[..j])
      invariant DispatchSpec(chunkCount, members[j..], accepts, sent, calls, working) ==
        DispatchSpec(chunkCount, members, accepts, sent0, calls0, [])
    {
      if sent >= chunkCount {
        // `chunk_files[sent_chunks]`
        DispatchStopped(members, j, calls0, made);
        return true, sent, calls, working;
      }
      DispatchSpecStep(chunkCount, members, j, accepts, sent, calls, working);
      sent, calls, working, made := DispatchOne(members, j, chunkCount, accepts, sent, calls0, calls, working, made);
    }
    assert members[..count] == members;
    DispatchStopped(members, count, calls0, made);
  }

  /** The first loop's body for worker `j`: offer it chunk `sent_chunks`;
      if it accepts, it joins `working_nodes` and the next chunk is due. */
  method DispatchOne<W(==)>(members: seq<W>, j: nat, chunkCount: nat, accepts: nat -> bool, sent0: nat,
      callsStart: seq<(W, nat)>, calls0: seq<(W, nat)>, working0: seq<W>, ghost made0: seq<(W, nat)>)
    returns (sent: nat, calls: seq<(W, nat)>, working: seq<W>, ghost made: seq<(W, nat)>)
    requires j < |members| && sent0 < chunkCount
    requires Offered(accepts, chunkCount, sent0, calls0)
    requires calls0 == callsStart + made0 && |made0| == j
    requires forall i :: 0 <= i < j ==> made0[i].0 == members[i]
    requires AcceptedWorkers(calls0, accepts) == AcceptedWorkers(callsStart, accepts) + working0
    requires multiset(working0) <= multiset(members[..j])
    ensures Offered(accepts, chunkCount, sent, calls)
    ensures calls == callsStart + made && |made| == j + 1
    ensures forall i :: 0 <= i < j + 1 ==> made[i].0 == members[i]
    ensures AcceptedWorkers(calls, accepts) == AcceptedWorkers(callsStart, accepts) + working
    ensures multiset(working) <= multiset(members[..j + 1])
    ensures calls == calls0 + [(members[j], sent0)]
    ensures sent == (if accepts(|calls0|) then sent0 + 1 else sent0)
    ensures working == (if accepts(|calls0|) then working0 + [members[j]] else working0)
  {
    var w := members[j];
    var ok := accepts(|calls0|);
    AcceptedWorkersSnoc(calls0, (w, sent0), accepts);
    OfferedStep(accepts, chunkCount, sent0, calls0, w);
    MultisetSnoc(members, j);
    calls := calls0 + [(w, sent0)];
    made := made0 + [(w, sent0)];
    sent, working := sent0, working0;
    if ok {
      working := working0 + [w];
      sent := sent0 + 1;
    }
  }

  /** One step of `DispatchSpec` from worker `j`. */
  lemma DispatchSpecStep<W>(chunkCount: nat, members: seq<W>, j: nat, accepts: nat -> bool, sent: nat,
      calls: seq<(W, nat)>, working: seq<W>)
    requires j < |members| && sent < chunkCount
    ensures DispatchSpec(chunkCount, members[j..], accepts, sent, calls, working) ==
      DispatchSpec(chunkCount, members[j + 1..], accepts, if accepts(|calls|) then sent + 1 else sent,
        calls + [(members[j], sent)], if accepts(|calls|) then working + [members[j]] else working)
  {
    assert members[j..][1..] == members[j + 1..];
  }

  /** After `j` offers, the calls are the earlier ones followed by one per
      worker `0 .. j-1`, and the new working workers are among them. */
  lemma DispatchStopped<W>(members: seq<W>, j: nat, calls0: seq<(W, nat)>, made: seq<(W, nat)>)
    requires j <= |members| && |made| == j
    requires forall i :: 0 <= i < j ==> made[i].0 == members[i]
    ensures (calls0 + made)[..|calls0|] == calls0
    ensures forall i :: 0 <= i < |made| ==> (calls0 + made)[|calls0| + i].0 == members[i]
    ensures multiset(members[..j]) <= multiset(members)
  {
    MultisetPrefix(members, j);
  }

  /** The second loop of a round: each worker that took a chunk is waited
      for; one whose wait times out is removed from `workers`, one that
      finishes has its result's `output` appended. */
  method AwaitAll<W(==)>(working: seq<W>, workers0: seq<W>, done: nat -> bool, lastResult: nat -> JsonValue,
      results0: seq<JsonValue>, workersIn: seq<W>, waits0: seq<W>)
    returns (failure: Option<Exc>, results: seq<JsonValue>, workers: seq<W>, waits: seq<W>)
    requires multiset(working) <= multiset(workersIn)
    requires Collected(done, lastResult, |waits0|) == Ok(results0)
    requires RemoveAll(workers0, TimedOut(waits0, done)) == Ok(workersIn)
    ensures RemoveAll(workers0, TimedOut(waits, done)) == Ok(workers)
    ensures failure.None? ==> waits == waits0 + working && Collected(done, lastResult, |waits|) == Ok(results)
    ensures failure.Some? ==> Collected(done, lastResult, |waits|) == Raise(failure.value)
    ensures failure.Some? ==> |waits0| < |waits| <= |waits0| + |working| && waits == waits0 + working[..|waits| - |waits0|]
    ensures (failure, results, workers, waits) == AwaitSpec(working, done, lastResult, results0, workersIn, waits0)
  {
    failure, results, workers, waits := None, results0, workersIn, waits0;
    ghost var spec := AwaitSpec(working, done, lastResult, results0, workersIn, waits0);
    assert working[0..] == working;
    var count := |working|;
    for j := 0 to count
      invariant failure.None? && waits == waits0 + working[..j]
      invariant multiset(working[j..]) <= multiset(workers)
      invariant Collected(done, lastResult, |waits|) == Ok(results)
      invariant RemoveAll(workers0, TimedOut(waits, done)) == Ok(workers)
      invariant AwaitSpec(working[j..], done, lastResult, results, workers, waits) == spec
    {
      failure, results, workers, waits := AwaitOne(working, j, workers0, done, lastResult, results, workers, waits0, waits);
      if failure.Some? {
        return;
      }
    }
    assert working[..count] == working && working[count..] == [];
  }

  /** The second loop's body for worker `j`: wait; on a timeout remove the
      worker, otherwise append its result's `output`. */
  method AwaitOne<W(==)>(working: seq<W>, j: nat, workers0: seq<W>, done: nat -> bool, lastResult: nat -> JsonValue,
      results0: seq<JsonValue>, workersIn: seq<W>, waitsStart: seq<W>, waits0: seq<W>)
    returns (failure: Option<Exc>, results: seq<JsonValue>, workers: seq<W>, waits: seq<W>)
    requires j < |working| && waits0 == waitsStart + working[..j]
    requires multiset(working[j..]) <= multiset(workersIn)
    requires Collected(done, lastResult, |waits0|) == Ok(results0)
    requires RemoveAll(workers0, TimedOut(waits0, done)) == Ok(workersIn)
    ensures waits == waitsStart + working[..j + 1]
    ensures multiset(working[j + 1..]) <= multiset(workers)
    ensures RemoveAll(workers0, TimedOut(waits, done)) == Ok(workers)
    ensures failure.None? ==> Collected(done, lastResult, |waits|) == Ok(results)
    ensures failure.Some? ==> Collected(done, lastResult, |waits|) == Raise(failure.value)
    ensures failure.Some? ==>
      (failure, results, workers, waits) == AwaitSpec(working[j..], done, lastResult, results0, workersIn, waits0)
    ensures failure.None? ==>
      AwaitSpec(working[j + 1..], done, lastResult, results, workers, waits) ==
      AwaitSpec(working[j..], done, lastResult, results0, workersIn, waits0)
  {
    var w := working[j];
    assert working[j..][0] == w && working[j..][1..] == working[j + 1..];
    PendingHead(working, j, workersIn);
    WaitsAdvance(waitsStart, working, j, waits0);
    var m := |waits0|;
    waits := waits0 + [w];
    failure, results, workers := None, results0, workersIn;
    if !done(m) {
      // `workers.remove(worker)`; the worker is there, so no ValueError
      TimeoutStep(workers0, waits0, done, workersIn, w);
      CollectedTimeout(done, lastResult, m);
      var removed := Remove(workersIn, w);
      workers := removed.value;
      MultisetStep(multiset(working[j + 1..]), w, multiset(workersIn), multiset(workers));
    } else {
      DoneStep(workers0, waits0, done, workersIn, w);
      CollectedDone(done, lastResult, m);
      var output := Subscript(lastResult(m), "output");
      if output.Raise? {
        failure := Some(output.exc);
      } else {
        results := results0 + [output.value];
      }
    }
  }

  /** The next worker to wait for is still in the list. */
  lemma PendingHead<W>(working: seq<W>, j: nat, workers: seq<W>)
    requires j < |working| && multiset(working[j..]) <= multiset(workers)
    ensures working[j] in workers
    ensures multiset{working[j]} + multiset(working[j + 1..]) <= multiset(workers)
  {
    assert working[j..] == [working[j]] + working[j + 1..];
    assert working[j] in multiset(workers);
  }

  lemma WaitsAdvance<W>(waits0: seq<W>, working: seq<W>, j: nat, waits: seq<W>)
    requires j < |working| && waits == waits0 + working[..j]
    ensures waits0 + working[..j + 1] == waits + [working[j]]
  {
    assert working[..j + 1] == working[..j] + [working[j]];
  }

  /** What is left to wait for stays within the list after one step. */
  lemma MultisetStep<W>(rest: multiset<W>, w: W, before: multiset<W>, after: multiset<W>)
    requires multiset{w} + rest <= before && after == before - multiset{w}
    ensures rest <= after
  {
  }

  /** A timed-out worker that is in the list is removed from it. */
  lemma TimeoutStep<W>(workers0: seq<W>, waits: seq<W>, done: nat -> bool, workers: seq<W>, w: W)
    requires RemoveAll(workers0, TimedOut(waits, done)) == Ok(workers)
    requires !done(|waits|) && w in workers
    ensures RemoveAll(workers0, TimedOut(waits + [w], done)) == Remove(workers, w)
    ensures Remove(workers, w).Ok? && multiset(Remove(workers, w).value) == multiset(workers) - multiset{w}
  {
    TimedOutSnoc(waits, w, done);
    RemoveAllSnoc(workers0, TimedOut(waits, done), w);
    RemoveMultiset(workers, w);
  }

  /** A worker that finished in time stays. */
  lemma DoneStep<W>(workers0: seq<W>, waits: seq<W>, done: nat -> bool, workers: seq<W>, w: W)
    requires RemoveAll(workers0, TimedOut(waits, done)) == Ok(workers)
    requires done(|waits|)
    ensures RemoveAll(workers0, TimedOut(waits + [w], done)) == Ok(workers)
  {
    TimedOutSnoc(waits, w, done);
    assert TimedOut(waits, done) + [] == TimedOut(waits, done);
  }

  lemma CollectedTimeout(done: nat -> bool, lastResult: nat -> JsonValue, m: nat)
    requires !done(m)
    ensures Collected(done, lastResult, m + 1) == Collected(done, lastResult, m)
  {
  }

  lemma CollectedDone(done: nat -> bool, lastResult: nat -> JsonValue, m: nat)
    requires done(m) && Collected(done, lastResult, m).Ok?
    ensures Collected(done, lastResult, m + 1) ==
      match Subscript(lastResult(m), "output")
      case Raise(e) => Raise(e)
      case Ok(v) => Ok(Collected(done, lastResult, m).value + [v])
  {
  }

  /** What holds between two rounds of `run_map`. */
  ghost predicate Between<W>(chunkCount: nat, workers0: seq<W>, accepts: nat -> bool, done: nat -> bool,
      lastResult: nat -> JsonValue, sent: nat, results: seq<JsonValue>, workers: seq<W>,
      calls: seq<(W, nat)>, waits: seq<W>)
  {
    && Offered(accepts, chunkCount, sent, calls)
    && Collected(done, lastResult, |waits|) == Ok(results)
    && RemoveAll(workers0, TimedOut(waits, done)) == Ok(workers)
    && waits == AcceptedWorkers(calls, accepts)
  }

  /** What holds once `run_map` has raised. */
  ghost predicate Raised<W>(chunkCount: nat, workers0: seq<W>, accepts: nat -> bool, done: nat -> bool,
      lastResult: nat -> JsonValue, exc: Exc, sent: nat, workers: seq<W>, calls: seq<(W, nat)>, waits: seq<W>)
  {
    && Offered(accepts, chunkCount, sent, calls)
    && RemoveAll(workers0, TimedOut(waits, done)) == Ok(workers)
    && |waits| <= |AcceptedWorkers(calls, accepts)| && waits == AcceptedWorkers(calls, accepts)[..|waits|]
    && exc in {IndexError, KeyError, TypeError}
    && (exc == IndexError ==> sent == chunkCount)
    && (exc != IndexError ==> Collected(done, lastResult, |waits|) == Raise(exc))
  }

  /** One pass of the `while` loop of `run_map`: dispatch, then wait. */
  method MapRound<W(==)>(chunkCount: nat, workers0: seq<W>, accepts: nat -> bool, done: nat -> bool,
      lastResult: nat -> JsonValue, sent0: nat, results0: seq<JsonValue>, workersIn: seq<W>,
      calls0: seq<(W, nat)>, waits0: seq<W>)
    returns (stop: Option<Exc>, sent: nat, results: seq<JsonValue>, workers: seq<W>, calls: seq<(W, nat)>, waits: seq<W>)
    requires Between(chunkCount, workers0, accepts, done, lastResult, sent0, results0, workersIn, calls0, waits0)
    ensures stop.None? ==> Between(chunkCount, workers0, accepts, done, lastResult, sent, results, workers, calls, waits)
    ensures stop.Some? ==> Raised(chunkCount, workers0, accepts, done, lastResult, stop.value, sent, workers, calls, waits)
    ensures |calls0| <= |calls| <= |calls0| + |workersIn|
    ensures (stop, MapState(sent, results, workers, calls, waits)) ==
      RoundSpec(chunkCount, accepts, done, lastResult, MapState(sent0, results0, workersIn, calls0, waits0))
  {
    var failed, working;
    failed, sent, calls, working := Dispatch(chunkCount, workersIn, accepts, sent0, calls0);
    results, workers, waits := results0, workersIn, waits0;
    if failed {
      stop := Some(IndexError);
      assert waits == AcceptedWorkers(calls, accepts)[..|waits|];
      return;
    }
    var failure;
    failure, results, workers, waits := AwaitAll(working, workers0, done, lastResult, results, workers, waits);
    stop := failure;
    if failure.Some? {
      assert waits == AcceptedWorkers(calls, accepts)[..|waits|];
    }
  }

  /** The loop of `run_map` over the chunk files `__split_file` wrote, for
      at most `rounds` rounds. */
  method RunMap<W(==)>(chunkFiles: seq<string>, workers0: seq<W>, rounds: nat,
      accepts: nat -> bool, done: nat -> bool, lastResult: nat -> JsonValue)
    returns (status: MapStatus, sent: nat, results: seq<JsonValue>, workers: seq<W>, calls: seq<(W, nat)>, waits: seq<W>)
    ensures Offered(accepts, |chunkFiles|, sent, calls)
    // a timed-out worker is removed from the caller's list, once per timeout
    ensures RemoveAll(workers0, TimedOut(waits, done)) == Ok(workers)
    // only accepted dispatches are waited for, in dispatch order
    ensures |waits| <= |AcceptedWorkers(calls, accepts)| && waits == AcceptedWorkers(calls, accepts)[..|waits|]
    ensures status == Finished ==>
      && sent == |chunkFiles|
      && waits == AcceptedWorkers(calls, accepts)
      && Collected(done, lastResult, |waits|) == Ok(results)
    ensures status == Stopped(IndexError) ==> sent == |chunkFiles|
    ensures status.Stopped? && status.exc != IndexError ==> Collected(done, lastResult, |waits|) == Raise(status.exc)
    ensures status.Stopped? ==> status.exc in {IndexError, KeyError, TypeError}
    ensures status == StillRunning ==>
      sent < |chunkFiles| && waits == AcceptedWorkers(calls, accepts) && Collected(done, lastResult, |waits|) == Ok(results)
    // no worker ever accepts, or there is none: the loop never ends
    ensures |chunkFiles| > 0 && (forall n :: !accepts(n)) ==> status == StillRunning
    ensures |chunkFiles| > 0 && workers0 == [] ==> status == StillRunning
    // the round-by-round run, IndexError included
    ensures (status, MapState(sent, results, workers, calls, waits)) ==
      RunMapSpec(|chunkFiles|, rounds, accepts, done, lastResult, MapState(0, [], workers0, [], []))
  {
    var count := |chunkFiles|;
    sent, results, workers, calls, waits := 0, [], workers0, [], [];
    var round := 0;
    while sent < count && round < rounds
      invariant Between(count, workers0, accepts, done, lastResult, sent, results, workers, calls, waits)
      invariant workers0 == [] ==> calls == []
      invariant round <= rounds
      invariant RunMapSpec(count, rounds - round, accepts, done, lastResult, MapState(sent, results, workers, calls, waits)) ==
        RunMapSpec(count, rounds, accepts, done, lastResult, MapState(0, [], workers0, [], []))
      decreases rounds - round
    {
      var stop;
      if workers0 == [] {
        RemoveAllMultiset(workers0, TimedOut(waits, done));
      }
      stop, sent, results, workers, calls, waits := MapRound(count, workers0, accepts, done, lastResult, sent, results, workers, calls, waits);
      if stop.Some? {
        status := Stopped(stop.value);
        if count > 0 && forall n :: !accepts(n) {
          AcceptedNone(accepts, |calls|);
          AcceptedWorkersCount(calls, accepts);
        }
        return;
      }
      round := round + 1;
    }
    status := if sent < count then StillRunning else Finished;
    assert waits == AcceptedWorkers(calls, accepts)[..|waits|];
    if count > 0 && forall n :: !accepts(n) {
      AcceptedNone(accepts, |calls|);
    }
  }

  // ---------------------------------------------------------------------
  // run_reduce

  /** However `run_map` ends, it has collected at most one result per chunk:
      only accepted dispatches are waited for, each of a different chunk,
      and a timed-out wait adds nothing. */
  lemma ResultsAtMostChunks<W>(accepts: nat -> bool, chunkCount: nat, sent: nat, calls: seq<(W, nat)>,
      waits: seq<W>, done: nat -> bool, lastResult: nat -> JsonValue, results: seq<JsonValue>)
    requires Offered(accepts, chunkCount, sent, calls)
    requires |waits| <= |AcceptedWorkers(calls, accepts)|
    requires Collected(done, lastResult, |waits|) == Ok(results)
    ensures |results| <= |waits| <= sent <= chunkCount
  {
    AcceptedWorkersCount(calls, accepts);
  }

  /** A successful split into `k > 0` chunks returns the `k` chunk names. */
  lemma SplitShuffleNames(fs: FileSystem, filename: string, splitCount: int)
    requires splitCount > 0 && SplitShuffleSpec(fs, filename, splitCount).Ok?
    ensures SplitShuffleSpec(fs, filename, splitCount).value.0 == ChunkNames(filename, splitCount)
  {
    var contents := LoadJson(fs, filename).value;
    assert Len(contents).Ok?;
    assert SplitShuffleSpec(fs, filename, splitCount) ==
      SplitDict(fs, ChunkNames(filename, splitCount), Items(contents.fields));
  }

  /** The first loop of `run_reduce` after the events are cleared: worker
      `i` is offered chunk file `i` (`next(chunk_files)`); those that accept
      join `working_nodes`. */
  method OfferChunks<W(==)>(members: seq<W>, names: seq<string>, accepts: nat -> bool)
    returns (calls: seq<(W, string)>, working: seq<W>)
    requires |names| == |members|
    ensures |calls| == |members|
    ensures forall i :: 0 <= i < |calls| ==> calls[i] == (members[i], names[i])
    ensures working == AcceptedWorkers(calls, accepts)
    ensures multiset(working) <= multiset(members)
  {
    calls, working := [], [];
    var count := |members|;
    for j := 0 to count
      invariant |calls| == j
      invariant forall i :: 0 <= i < j ==> calls[i] == (members[i], names[i])
      invariant working == AcceptedWorkers(calls, accepts)
      invariant multiset(working) <= multiset(members[..j])
    {
      calls, working := OfferOne(members, names, j, accepts, calls, working);
    }
    MultisetPrefix(members, count);
  }

  /** The first loop's body for worker `j`. */
  method OfferOne<W(==)>(members: seq<W>, names: seq<string>, j: nat, accepts: nat -> bool,
      calls0: seq<(W, string)>, working0: seq<W>)
    returns (calls: seq<(W, string)>, working: seq<W>)
    requires j < |members| == |names| && |calls0| == j
    requires forall i :: 0 <= i < j ==> calls0[i] == (members[i], names[i])
    requires working0 == AcceptedWorkers(calls0, accepts)
    requires multiset(working0) <= multiset(members[..j])
    ensures |calls| == j + 1
    ensures forall i :: 0 <= i < j + 1 ==> calls[i] == (members[i], names[i])
    ensures working == AcceptedWorkers(calls, accepts)
    ensures multiset(working) <= multiset(members[..j + 1])
  {
    var w := members[j];
    AcceptedWorkersSnoc(calls0, (w, names[j]), accepts);
    MultisetSnoc(members, j);
    calls := calls0 + [(w, names[j])];
    working := working0;
    if accepts(j) {
      working := working0 + [w];
    }
  }

  /** `run_reduce`: split the shuffle file into one chunk per worker, offer
      worker `i` chunk `i`, then wait for each worker that accepted, in
      order, exactly as the second loop of a `run_map` round does. The
      result is the list of output files, or the exception that ended it. */
  method RunReduce<W(==)>(shuffleFile: string, workers0: seq<W>, fs: FileSystem,
      accepts: nat -> bool, done: nat -> bool, lastResult: nat -> JsonValue)
    returns (r: Result<seq<JsonValue>>, after: FileSystem, calls: seq<(W, string)>, waits: seq<W>, workers: seq<W>)
    // the split fails: nothing is offered and the exception escapes
    ensures SplitShuffleSpec(fs, shuffleFile, |workers0|).Raise? ==>
      && r == Raise(SplitShuffleSpec(fs, shuffleFile, |workers0|).exc)
      && after == fs && calls == [] && waits == [] && workers == workers0
    // without workers a readable shuffle file is divided by zero
    ensures workers0 == [] && LoadJson(fs, shuffleFile).Ok? && Len(LoadJson(fs, shuffleFile).value).Ok? ==>
      r == Raise(ZeroDivisionError)
    // the split succeeds: worker i was offered chunk file i, once
    ensures SplitShuffleSpec(fs, shuffleFile, |workers0|).Ok? ==>
      && after == SplitShuffleSpec(fs, shuffleFile, |workers0|).value.1
      && |calls| == |workers0|
      && (forall i :: 0 <= i < |calls| ==> calls[i] == (workers0[i], ChunkName(shuffleFile, i)))
      && |waits| <= |AcceptedWorkers(calls, accepts)| && waits == AcceptedWorkers(calls, accepts)[..|waits|]
      && RemoveAll(workers0, TimedOut(waits, done)) == Ok(workers)
      && (r.Ok? ==> waits == AcceptedWorkers(calls, accepts) && Collected(done, lastResult, |waits|) == Ok(r.value))
      && (r.Raise? ==> Collected(done, lastResult, |waits|) == Raise(r.exc))
  {
    var split := SplitShuffle(shuffleFile, |workers0|, fs);
    if split.Raise? {
      if workers0 == [] && LoadJson(fs, shuffleFile).Ok? && Len(LoadJson(fs, shuffleFile).value).Ok? {
        SplitShuffleNoWorkers(fs, shuffleFile);
      }
      return Raise(split.exc), fs, [], [], workers0;
    }
    var names := split.value.0;
    after := split.value.1;
    if workers0 == [] {
      // `len(workers) == 0` makes the split divide by zero
      SplitShuffleNoWorkers(fs, shuffleFile);
      assert false;
    }
    SplitShuffleNames(fs, shuffleFile, |workers0|);
    var working;
    calls, working := OfferChunks(workers0, names, accepts);
    var failure, results;
    failure, results, workers, waits := AwaitAll(working, workers0, done, lastResult, [], workers0, []);
    if failure.Some? {
      r := Raise(failure.value);
    } else {
      r := Ok(results);
    }
  }

  /** On success the reduce phase writes one chunk file per worker, each
      holding its run of the shuffle table, and the chunk files are
      different files. */
  lemma RunReduceChunks(fs: FileSystem, shuffleFile: string, k: nat, i: nat, j: nat)
    requires i < k && j < k && i != j && SplitShuffleSpec(fs, shuffleFile, k).Ok?
    ensures var (names, after) := SplitShuffleSpec(fs, shuffleFile, k).value;
      && LoadJson(fs, shuffleFile).Ok? && LoadJson(fs, shuffleFile).value.JObject?
      && names[i] != names[j]
      && LoadJson(after, names[i]) == Ok(JObject(Run(Items(LoadJson(fs, shuffleFile).value.fields), k, i)))
  {
    SplitShuffleChunks(fs, shuffleFile, k, i, shuffleFile);
    SplitShuffleNames(fs, shuffleFile, k);
    ChunkNamesAllDistinct(shuffleFile, k);
  }
}
