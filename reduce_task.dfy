/** `ReduceTask`: the reduce side of a task, which wraps the user's body into
    `reduce_function` and groups the values it emits under the current key. */
module ReduceTasks {
  import opened Outcomes
  import opened Json
  import opened Text
  import opened Tables
  import opened Files
  import opened SourceWrapping

  const ReduceHeader: string := "def reduce_function(self, key, values):"
  const ReduceFooter: string := "self.call = partial(reduce_function, self)"

  /** The text `load_function` executes for a reduce body. */
  function ReduceSource(reduceFunc: string): string {
    Wrap(ReduceHeader, ReduceFooter, reduceFunc)
  }

  /** The generated reduce source is the header line, the body lines, the footer line. */
  lemma ReduceSourceLines(reduceFunc: string)
    ensures SplitLines(ReduceSource(reduceFunc)) == [ReduceHeader] + BodyLines(reduceFunc) + [ReduceFooter]
  {
    ReduceWrapperPlain();
    WrappedLines(ReduceHeader, ReduceFooter, reduceFunc);
  }

  /** The header and the footer are single lines. */
  lemma ReduceWrapperPlain()
    ensures NoLineBreak(ReduceHeader) && NoLineBreak(ReduceFooter) && ReduceFooter != ""
  {
    PlainLine(ReduceHeader);
    PlainLine(ReduceFooter);
  }

  /** What the loaded reduce function emits when called on a key and its
      values, in emission order; the foreign code's behaviour, as a parameter. */
  type ReduceBehaviour = (string, string, JsonValue) -> seq<string>

  /** The values one call emits: none for the default `call`. */
  function ReduceEmissions(call: Callable, key: string, values: JsonValue, behaviour: ReduceBehaviour): seq<string> {
    match call
    case NoOp => []
    case Loaded(source) => behaviour(source, key, values)
  }

  /** A run of `emit`s under one key: the values join the end of its list in
      order, the key is added at the end of the key order if it is new, and
      nothing else changes; no emit, no change. */
  function AppendAll(t: Table, k: string, vs: seq<string>): (r: Table)
    requires Valid(t)
    ensures Valid(r)
    decreases |vs|
  {
    if vs == [] then t
    else Append(AppendAll(t, k, vs[..|vs| - 1]), k, vs[|vs| - 1])
  }

  /** `r` is `t` after the emits `vs` under `k`: no emit, no change; otherwise
      the values join the end of `k`'s list in order, `k` joins the end of the
      key order if it is new, and every other key keeps its list. */
  ghost predicate EmitsInto(t: Table, k: string, vs: seq<string>, r: Table) {
    && (vs == [] ==> r == t)
    && (vs != [] ==>
          && r.keys == (if k in t.entries then t.keys else t.keys + [k])
          && k in r.entries && r.entries[k] == (if k in t.entries then t.entries[k] else []) + vs)
    && (forall k' :: k' != k ==> (k' in r.entries <==> k' in t.entries))
    && (forall k' :: k' != k && k' in t.entries ==> r.entries[k'] == t.entries[k'])
  }

  /** What a run of emits does to the table. */
  lemma {:induction false} AppendAllEffect(t: Table, k: string, vs: seq<string>)
    requires Valid(t)
    ensures EmitsInto(t, k, vs, AppendAll(t, k, vs))
    decreases |vs|
  {
    if vs != [] {
      var front := vs[..|vs| - 1];
      AppendAllEffect(t, k, front);
      EmitsIntoStep(t, k, front, vs[|vs| - 1], AppendAll(t, k, front), vs);
    }
  }

  /** One more emit extends the relation by one value. */
  lemma EmitsIntoStep(t: Table, k: string, front: seq<string>, v: string, p: Table, vs: seq<string>)
    requires Valid(t) && Valid(p) && EmitsInto(t, k, front, p)
    requires vs == front + [v]
    ensures EmitsInto(t, k, vs, Append(p, k, v))
  {
    AppendFacts(p, k, v);
    if front != [] {
      var prior := if k in t.entries then t.entries[k] else [];
      assert p.entries[k] == prior + front;
      assert (prior + front) + [v] == prior + vs;
    }
  }

  /** Two runs under the same key are one run of both, in order: a repeated
      `execute` with the same key keeps appending to the same list. */
  lemma {:induction false} AppendAllTwice(t: Table, k: string, a: seq<string>, b: seq<string>)
    requires Valid(t)
    ensures AppendAll(AppendAll(t, k, a), k, b) == AppendAll(t, k, a + b)
    decreases |b|
  {
    if b == [] {
      assert a + b == a;
    } else {
      var front := b[..|b| - 1];
      AppendAllTwice(t, k, a, front);
      SnocOfConcat(a, b);
      var p := AppendAll(t, k, a + front);
      assert AppendAll(t, k, a + b) == Append(p, k, b[|b| - 1]);
    }
  }

  lemma SnocOfConcat(a: seq<string>, b: seq<string>)
    requires b != []
    ensures (a + b)[..|a + b| - 1] == a + b[..|b| - 1] && (a + b)[|a + b| - 1] == b[|b| - 1]
  {
  }

  /** Running the loaded function once per `(key, values)` item, in item
      order, starting from `t`. */
  function ReduceAll(t: Table, items: seq<(string, JsonValue)>, call: Callable, behaviour: ReduceBehaviour): (r: Table)
    requires Valid(t)
    ensures Valid(r)
    decreases |items|
  {
    if items == [] then t
    else
      var last := items[|items| - 1];
      AppendAll(ReduceAll(t, items[..|items| - 1], call, behaviour), last.0,
                ReduceEmissions(call, last.0, last.1, behaviour))
  }

  /** Some item for `k` had its call emit at least one value. */
  ghost predicate Emitted(items: seq<(string, JsonValue)>, k: string, call: Callable, behaviour: ReduceBehaviour) {
    exists i :: 0 <= i < |items| && items[i].0 == k && ReduceEmissions(call, k, items[i].1, behaviour) != []
  }

  /** The results hold a key only if some call for it emitted something. */
  lemma {:induction false} ReduceAllOnlyEmitted(items: seq<(string, JsonValue)>, call: Callable, behaviour: ReduceBehaviour)
    ensures forall k :: k in ReduceAll(Empty(), items, call, behaviour).entries ==> Emitted(items, k, call, behaviour)
    decreases |items|
  {
    if items != [] {
      var front := items[..|items| - 1];
      var n := |items| - 1;
      ReduceAllOnlyEmitted(front, call, behaviour);
      var p := ReduceAll(Empty(), front, call, behaviour);
      var r := ReduceAll(Empty(), items, call, behaviour);
      assert r == AppendAll(p, items[n].0, ReduceEmissions(call, items[n].0, items[n].1, behaviour));
      AppendAllEffect(p, items[n].0, ReduceEmissions(call, items[n].0, items[n].1, behaviour));
      forall k | k in r.entries ensures Emitted(items, k, call, behaviour) {
        if k == items[n].0 && ReduceEmissions(call, k, items[n].1, behaviour) != [] {
          assert 0 <= n < |items| && items[n].0 == k;
        } else {
          assert k in p.entries;
          assert Emitted(front, k, call, behaviour);
          var i :| 0 <= i < |front| && front[i].0 == k && ReduceEmissions(call, k, front[i].1, behaviour) != [];
          assert items[i] == front[i];
        }
      }
    }
  }

  /** Every item whose call emitted something has exactly those values stored under its key. */
  ghost predicate HoldsEmissions(r: Table, items: seq<(string, JsonValue)>, call: Callable, behaviour: ReduceBehaviour) {
    forall i :: 0 <= i < |items| && ReduceEmissions(call, items[i].0, items[i].1, behaviour) != [] ==>
      items[i].0 in r.entries && r.entries[items[i].0] == ReduceEmissions(call, items[i].0, items[i].1, behaviour)
  }

  /** With each key in the items once, the results hold under every key
      exactly what its one call emitted. */
  lemma {:induction false} ReduceAllPerKey(items: seq<(string, JsonValue)>, call: Callable, behaviour: ReduceBehaviour)
    requires forall i, j :: 0 <= i < j < |items| ==> items[i].0 != items[j].0
    ensures HoldsEmissions(ReduceAll(Empty(), items, call, behaviour), items, call, behaviour)
    decreases |items|
  {
    if items != [] {
      var front := items[..|items| - 1];
      var n := |items| - 1;
      DistinctFront(items);
      ReduceAllPerKey(front, call, behaviour);
      ReduceAllOnlyEmitted(front, call, behaviour);
      PerKeyLast(items, front, ReduceAll(Empty(), front, call, behaviour), call, behaviour);
    }
  }

  /** The step of `ReduceAllPerKey`: the last item's key is fresh, so its
      emissions join the results built from the items before it. */
  lemma PerKeyLast(items: seq<(string, JsonValue)>, front: seq<(string, JsonValue)>, p: Table, call: Callable, behaviour: ReduceBehaviour)
    requires items != [] && forall i, j :: 0 <= i < j < |items| ==> items[i].0 != items[j].0
    requires front == items[..|items| - 1] && p == ReduceAll(Empty(), front, call, behaviour)
    requires HoldsEmissions(p, front, call, behaviour)
    requires forall k :: k in p.entries ==> Emitted(front, k, call, behaviour)
    ensures HoldsEmissions(ReduceAll(Empty(), items, call, behaviour), items, call, behaviour)
  {
    LastFresh(items, front, p, call, behaviour);
    PerKeyStep(p, front, items, call, behaviour);
  }

  /** The last key is not seen before it, so nothing is stored under it yet. */
  lemma LastFresh(items: seq<(string, JsonValue)>, front: seq<(string, JsonValue)>, p: Table, call: Callable, behaviour: ReduceBehaviour)
    requires items != [] && forall i, j :: 0 <= i < j < |items| ==> items[i].0 != items[j].0
    requires front == items[..|items| - 1]
    requires forall k :: k in p.entries ==> Emitted(front, k, call, behaviour)
    ensures forall i :: 0 <= i < |front| ==> front[i].0 != items[|items| - 1].0
    ensures items[|items| - 1].0 !in p.entries
  {
    assert forall i :: 0 <= i < |front| ==> front[i] == items[i];
    assert !Emitted(front, items[|items| - 1].0, call, behaviour);
  }

  /** Without its last item the keys are still distinct. */
  lemma DistinctFront(items: seq<(string, JsonValue)>)
    requires items != [] && forall i, j :: 0 <= i < j < |items| ==> items[i].0 != items[j].0
    ensures var front := items[..|items| - 1];
      forall i, j :: 0 <= i < j < |front| ==> front[i].0 != front[j].0
  {
    var front := items[..|items| - 1];
    assert forall i :: 0 <= i < |front| ==> front[i] == items[i];
  }

  /** One more item under a fresh key keeps every earlier item's values and adds its own. */
  lemma PerKeyStep(p: Table, front: seq<(string, JsonValue)>, items: seq<(string, JsonValue)>, call: Callable, behaviour: ReduceBehaviour)
    requires items != [] && front == items[..|items| - 1]
    requires Valid(p) && HoldsEmissions(p, front, call, behaviour)
    requires items[|items| - 1].0 !in p.entries
    requires forall i :: 0 <= i < |front| ==> front[i].0 != items[|items| - 1].0
    ensures var last := items[|items| - 1];
      HoldsEmissions(AppendAll(p, last.0, ReduceEmissions(call, last.0, last.1, behaviour)), items, call, behaviour)
  {
    var last := items[|items| - 1];
    AppendAllEffect(p, last.0, ReduceEmissions(call, last.0, last.1, behaviour));
    assert forall i :: 0 <= i < |front| ==> items[i] == front[i];
  }

  class ReduceTask {
    var call: Callable
    var results: Table
    var key: string

    ghost predicate Valid()
      reads this
    {
      Tables.Valid(results)
    }

    /** A fresh task: no results, current key "", and a `call` that does nothing. */
    constructor ()
      ensures Valid() && call == NoOp && results == Empty() && key == ""
    {
      call := NoOp;
      results := Empty();
      key := "";
    }

    /** `load_function`: `exec` of the wrapped source binds `call` to the
        defined function, or raises SyntaxError and binds nothing. */
    method LoadFunction(reduceFunc: string, compiles: string -> bool) returns (r: Result<()>)
      modifies this`call
      ensures r.Ok? <==> compiles(ReduceSource(reduceFunc))
      ensures r.Ok? ==> call == Loaded(ReduceSource(reduceFunc))
      ensures r.Raise? ==> r.exc == SyntaxError && call == old(call)
    {
      var source := ReduceSource(reduceFunc);
      if compiles(source) {
        call := Loaded(source);
        r := Ok(());
      } else {
        r := Raise(SyntaxError);
      }
    }

    /** `emit(value)`: the value joins the end of the current key's list,
        which is created if the key is new; nothing else changes. Before any
        `execute` the current key is "". */
    method Emit(value: string)
      requires Valid()
      modifies this`results
      ensures Valid()
      ensures results == Append(old(results), key, value)
    {
      results := Append(results, key, value);
    }

    /** `execute(key, values)`: the key becomes current first, then the
        function's emits land under it, in order; the default `call` emits
        nothing and leaves the results as they were. */
    method Execute(k: string, values: JsonValue, behaviour: ReduceBehaviour)
      requires Valid()
      modifies this`key, this`results
      ensures Valid() && key == k
      ensures results == AppendAll(old(results), k, ReduceEmissions(call, k, values, behaviour))
    {
      key := k;
      var emitted := ReduceEmissions(call, k, values, behaviour);
      var count := |emitted|;
      for i := 0 to count
        invariant Valid() && key == k
        invariant results == AppendAll(old(results), k, emitted[..i])
      {
        Emit(emitted[i]);
        assert emitted[..i + 1][..i] == emitted[..i];
      }
      assert emitted[..count] == emitted;
    }

    /** `store_results`: the results, as JSON, become the file's contents. */
    method StoreResults(outputName: string, fs: FileSystem) returns (r: Result<FileSystem>)
      requires Valid()
      ensures r == DumpJson(fs, outputName, TableJson(results))
    {
      r := DumpJson(fs, outputName, TableJson(results));
    }
  }
}
