/** `MapTask`: the map side of a task, which wraps the user's body into
    `map_function` and collects the `(key, value)` pairs it emits. */
module MapTasks {
  import opened Outcomes
  import opened Text
  import opened SourceWrapping

  const MapHeader: string := "def map_function(self, key, value):"
  const MapFooter: string := "self.call = partial(map_function, self)"

  /** The text `__init__` executes for a map body. */
  function MapSource(mapFunc: string): string {
    Wrap(MapHeader, MapFooter, mapFunc)
  }

  /** The generated map source is the header line, the body lines, the footer line. */
  lemma MapSourceLines(mapFunc: string)
    ensures SplitLines(MapSource(mapFunc)) == [MapHeader] + BodyLines(mapFunc) + [MapFooter]
  {
    MapWrapperPlain();
    WrappedLines(MapHeader, MapFooter, mapFunc);
  }

  /** The header and the footer are single lines. */
  lemma MapWrapperPlain()
    ensures NoLineBreak(MapHeader) && NoLineBreak(MapFooter) && MapFooter != ""
  {
    PlainLine(MapHeader);
    PlainLine(MapFooter);
  }

  /** The rewrite is textual: `emit` inside a longer identifier is
      rewritten too, so `emitted` becomes `self.emitted`. */
  lemma EmitRewriteIsTextual()
    ensures Replace("emitted", "emit", "self.emit") == "self.emitted"
  {
    var s := "emitted";
    assert s[..4] == "emit";
    var t := s[4..];
    assert t == "ted";
    assert Replace(t, "emit", "self.emit") == "ted";
  }

  /** What the loaded map function emits when called on a key and a value,
      in emission order; the foreign code's behaviour, given as a parameter. */
  type MapBehaviour = (string, string, string) -> seq<(string, string)>

  /** The pairs one call emits: none for the default `call`. */
  function MapEmissions(call: Callable, key: string, value: string, behaviour: MapBehaviour): seq<(string, string)> {
    match call
    case NoOp => []
    case Loaded(source) => behaviour(source, key, value)
  }

  class MapTask {
    var call: Callable
    var results: seq<(string, string)>

    /** The object as `exec` leaves it: `results` empty, `call` bound to the
        function `source` defines. */
    constructor Init(source: string)
      ensures call == Loaded(source) && results == []
    {
      call := Loaded(source);
      results := [];
    }

    /** `MapTask(map_func)`: the wrapped source either compiles, and the task
        comes back with empty results and `call` bound to it, or `exec`
        raises SyntaxError and there is no task. */
    static method Create(mapFunc: string, compiles: string -> bool) returns (r: Result<MapTask>)
      ensures r.Ok? <==> compiles(MapSource(mapFunc))
      ensures r.Raise? ==> r.exc == SyntaxError
      ensures r.Ok? ==> fresh(r.value) && r.value.call == Loaded(MapSource(mapFunc)) && r.value.results == []
    {
      var source := MapSource(mapFunc);
      if compiles(source) {
        var t := new MapTask.Init(source);
        r := Ok(t);
      } else {
        r := Raise(SyntaxError);
      }
    }

    /** `emit(key, value)`: the pair goes to the end; earlier pairs stay. */
    method Emit(key: string, value: string)
      modifies this`results
      ensures results == old(results) + [(key, value)]
    {
      results := results + [(key, value)];
    }

    /** `call(key, value)`: the function's emits, one after the other, so
        `results` grows by exactly what it emits, in emission order and
        with duplicates kept. */
    method Call(key: string, value: string, behaviour: MapBehaviour)
      modifies this`results
      ensures results == old(results) + MapEmissions(call, key, value, behaviour)
    {
      var emitted := MapEmissions(call, key, value, behaviour);
      var i := 0;
      while i < |emitted|
        invariant 0 <= i <= |emitted|
        invariant results == old(results) + emitted[..i]
      {
        Emit(emitted[i].0, emitted[i].1);
        assert emitted[..i + 1] == emitted[..i] + [emitted[i]];
        i := i + 1;
      }
    }
  }

  /** The map body of the repository's map-task script: split the value on
      whitespace and emit `(w, '1')` for every word. */
  const WordCountBody: string := "\nfor w in value.split():\n    emit(w, '1')\n"

  /** `(w, "1")` for each word, in order. */
  function PairWithOne(ws: seq<string>): (ps: seq<(string, string)>)
    ensures |ps| == |ws| && forall i :: 0 <= i < |ws| ==> ps[i] == (ws[i], "1")
  {
    if ws == [] then [] else [(ws[0], "1")] + PairWithOne(ws[1..])
  }

  /** What the word-count body emits for a value: one `(w, "1")` per word. */
  function WordCountEmissions(value: string): seq<(string, string)> {
    PairWithOne(Words(value))
  }

  lemma WordsOfSample()
    ensures Words("v v b a c a") == ["v", "v", "b", "a", "c", "a"]
  {
    var ws := ["v", "v", "b", "a", "c", "a"];
    assert Join(ws, " ") == "v v b a c a";
    WordsOfJoin(ws);
  }

  /** On "v v b a c a" the word-count body emits six pairs, in word order. */
  lemma WordCountOnSample()
    ensures WordCountEmissions("v v b a c a") ==
      [("v", "1"), ("v", "1"), ("b", "1"), ("a", "1"), ("c", "1"), ("a", "1")]
  {
    WordsOfSample();
    PairsOfSample();
  }

  lemma PairsOfSample()
    ensures PairWithOne(["v", "v", "b", "a", "c", "a"]) ==
      [("v", "1"), ("v", "1"), ("b", "1"), ("a", "1"), ("c", "1"), ("a", "1")]
  {
    var ws := ["v", "v", "b", "a", "c", "a"];
    var ps := PairWithOne(ws);
    assert ps == [(ws[0], "1"), (ws[1], "1"), (ws[2], "1"), (ws[3], "1"), (ws[4], "1"), (ws[5], "1")];
  }

  /** The script's task: built from the word-count body and called on a
      key and a value, given that the body compiles and that the function it
      defines emits what `WordCountEmissions` says, it holds exactly the
      word-count pairs of that value; on the script's "v v b a c a" these
      are the six pairs of `WordCountOnSample`. */
  method WordCountTask(compiles: string -> bool, behaviour: MapBehaviour, key: string, value: string)
    returns (results: seq<(string, string)>)
    requires compiles(MapSource(WordCountBody))
    requires forall k, v :: behaviour(MapSource(WordCountBody), k, v) == WordCountEmissions(v)
    ensures results == WordCountEmissions(value)
  {
    var r := MapTask.Create(WordCountBody, compiles);
    var task := r.value;
    task.Call(key, value, behaviour);
    results := task.results;
  }
}
