/** JSON values as Python's `json` module produces them: an object keeps the
    order of its members, and when a key occurs twice the later member wins. */
module Json {
  import opened Outcomes

  datatype JsonValue =
    | JNull
    | JBool(b: bool)
    | JInt(i: int)           // a Python int
    | JFloat(r: real)        // a finite Python float
    | JString(s: string)
    | JArray(items: seq<JsonValue>)
    | JObject(fields: seq<(string, JsonValue)>)

  /** The value bound to `k` in an object's members: the last binding wins. */
  function Get(fields: seq<(string, JsonValue)>, k: string): (r: Option<JsonValue>)
    ensures r.None? <==> forall i :: 0 <= i < |fields| ==> fields[i].0 != k
    ensures r.Some? ==>
      exists i :: 0 <= i < |fields| && fields[i] == (k, r.value) && forall j :: i < j < |fields| ==> fields[j].0 != k
  {
    if |fields| == 0 then None
    else if fields[|fields| - 1].0 == k then Some(fields[|fields| - 1].1)
    else Get(fields[..|fields| - 1], k)
  }

  /** The keys of an object's members, each once, in order of first occurrence. */
  function KeysOf(fields: seq<(string, JsonValue)>): (ks: seq<string>)
    ensures forall i, j :: 0 <= i < j < |ks| ==> ks[i] != ks[j]
    ensures forall k :: k in ks <==> exists i :: 0 <= i < |fields| && fields[i].0 == k
  {
    if fields == [] then []
    else
      var front := fields[..|fields| - 1];
      var ks := KeysOf(front);
      var k := fields[|fields| - 1].0;
      assert forall i :: 0 <= i < |front| ==> front[i] == fields[i];
      if k in ks then ks else ks + [k]
  }

  /** Where `k` first occurs among an object's members (`|fields|` when it
      does not occur): the position `json.loads` gives the key in the dict. */
  function FirstKeyIndex(fields: seq<(string, JsonValue)>, k: string): (i: nat)
    ensures i <= |fields| && forall j :: 0 <= j < i ==> fields[j].0 != k
    ensures i < |fields| ==> fields[i].0 == k
  {
    if fields == [] then 0
    else
      var front := fields[..|fields| - 1];
      var i := FirstKeyIndex(front, k);
      if i < |front| then i else if fields[|fields| - 1].0 == k then |front| else |fields|
  }

  /** The keys come in the order of their first occurrence among the members. */
  lemma {:induction false} KeysOfFirstOrder(fields: seq<(string, JsonValue)>)
    ensures forall i :: 0 <= i < |KeysOf(fields)| ==> FirstKeyIndex(fields, KeysOf(fields)[i]) < |fields|
    ensures forall i, j :: 0 <= i < j < |KeysOf(fields)| ==>
      FirstKeyIndex(fields, KeysOf(fields)[i]) < FirstKeyIndex(fields, KeysOf(fields)[j])
  {
    if fields != [] {
      var front := fields[..|fields| - 1];
      var ks, k := KeysOf(front), fields[|fields| - 1].0;
      KeysOfFirstOrder(front);
      assert forall x :: FirstKeyIndex(front, x) < |front| ==> FirstKeyIndex(fields, x) == FirstKeyIndex(front, x);
      if k !in ks {
        assert forall j :: 0 <= j < |front| ==> front[j].0 != k;
        assert FirstKeyIndex(fields, k) == |front|;
      }
    }
  }

  /** `d.items()` for the dict `json.loads` builds from the members: each key
      once, where it first occurred, with the value bound last. */
  function Items(fields: seq<(string, JsonValue)>): (items: seq<(string, JsonValue)>)
    ensures |items| == |KeysOf(fields)|
    ensures forall i :: 0 <= i < |items| ==>
      items[i].0 == KeysOf(fields)[i] && Get(fields, items[i].0) == Some(items[i].1)
  {
    var ks := KeysOf(fields);
    assert forall i :: 0 <= i < |ks| ==> ks[i] in ks && Get(fields, ks[i]).Some?;
    seq(|ks|, i requires 0 <= i < |ks| => (ks[i], Get(fields, ks[i]).value))
  }

  /** `value[k]` in Python: KeyError on a dict without `k`, TypeError on
      anything that is not a dict (a str, list, int or None indexed by a str). */
  function Subscript(v: JsonValue, k: string): (r: Result<JsonValue>)
    ensures r.Ok? <==> v.JObject? && Get(v.fields, k).Some?
    ensures r == Raise(KeyError) <==> v.JObject? && Get(v.fields, k).None?
    ensures r.Raise? ==> r.exc in {KeyError, TypeError}
  {
    match v
    case JObject(fields) =>
      (match Get(fields, k) case Some(x) => Ok(x) case None => Raise(KeyError))
    case _ => Raise(TypeError)
  }
}
