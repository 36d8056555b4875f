/** `dict[str, list[str]]` as the modelled code uses it: insertion-ordered
    keys (Python 3.7+ dicts, and what `json.dump`/`json.load` preserve), each
    bound to a list of strings. */
module Tables {
  import opened Outcomes
  import opened Json

  datatype Table = Table(keys: seq<string>, entries: map<string, seq<string>>)

  predicate Distinct(ks: seq<string>) {
    forall i, j :: 0 <= i < j < |ks| ==> ks[i] != ks[j]
  }

  /** The key order lists every key once and lists nothing else. */
  predicate Valid(t: Table) {
    && Distinct(t.keys)
    && (forall k :: k in t.entries ==> k in t.keys)
    && (forall i :: 0 <= i < |t.keys| ==> t.keys[i] in t.entries)
  }

  /** `{}`. */
  function Empty(): (t: Table)
    ensures Valid(t) && t.keys == [] && t.entries == map[]
  {
    Table([], map[])
  }

  /** `if k in d: d[k].append(v) else: d[k] = [v]`: the value joins the end of
      k's list; a new key goes to the end of the key order; nothing else moves. */
  function Append(t: Table, k: string, v: string): (r: Table)
    requires Valid(t)
    ensures Valid(r)
  {
    if k in t.entries then Table(t.keys, t.entries[k := t.entries[k] + [v]])
    else Table(t.keys + [k], t.entries[k := [v]])
  }

  /** What `Append` does to the key order and the lists. */
  lemma AppendFacts(t: Table, k: string, v: string)
    requires Valid(t)
    ensures var r := Append(t, k, v);
      && r.keys == (if k in t.entries then t.keys else t.keys + [k])
      && k in r.entries && r.entries[k] == (if k in t.entries then t.entries[k] else []) + [v]
      && (forall k' :: k' != k ==> (k' in r.entries <==> k' in t.entries))
      && (forall k' :: k' != k && k' in t.entries ==> r.entries[k'] == t.entries[k'])
  {
  }

  /** A list of strings as `json.dump` writes it. */
  function StringsJson(vs: seq<string>): (j: JsonValue)
    ensures j.JArray? && |j.items| == |vs|
    ensures forall i :: 0 <= i < |vs| ==> j.items[i] == JString(vs[i])
  {
    JArray(seq(|vs|, i requires 0 <= i < |vs| => JString(vs[i])))
  }

  /** The table as `json.dump` writes it: an object with the keys in order. */
  function TableJson(t: Table): (j: JsonValue)
    requires Valid(t)
    ensures j.JObject? && |j.fields| == |t.keys|
    ensures forall i :: 0 <= i < |t.keys| ==> j.fields[i] == (t.keys[i], StringsJson(t.entries[t.keys[i]]))
  {
    JObject(seq(|t.keys|, i requires 0 <= i < |t.keys| => (t.keys[i], StringsJson(t.entries[t.keys[i]]))))
  }

  /** Reading a key back from the written object gives the table's list for
      it, and nothing for a key the table does not hold. */
  lemma TableJsonGet(t: Table, k: string)
    requires Valid(t)
    ensures Get(TableJson(t).fields, k) == if k in t.entries then Some(StringsJson(t.entries[k])) else None
  {
    var fs := TableJson(t).fields;
    var r := Get(fs, k);
    if k in t.entries {
      var i :| 0 <= i < |t.keys| && t.keys[i] == k;
      assert fs[i].0 == k;
      var j :| 0 <= j < |fs| && fs[j] == (k, r.value);
      assert t.keys[j] == k;
      assert i == j;
    } else {
      assert forall i :: 0 <= i < |fs| ==> fs[i].0 == t.keys[i];
    }
  }
}
