/**
 * The value `json.loads` produces, kept abstract: the parser itself is not
 * modelled and is passed around as a function `string -> Option<Json>`.
 */
module Json {
  import opened Wrappers

  /** A decoded JSON document. Numbers keep their lexeme; an object keeps its
      members in document order, duplicates included. */
  datatype Json =
    | JNull
    | JBool(b: bool)
    | JNumber(lexeme: string)
    | JString(s: string)
    | JArray(items: seq<Json>)
    | JObject(fields: seq<(string, Json)>)

  /** Python's `data[key]` on the dict built from the members `fields`: a
      later duplicate key overrides an earlier one. */
  function Get<V>(fields: seq<(string, V)>, key: string): Option<V> {
    if fields == [] then None
    else if fields[|fields| - 1].0 == key then Some(fields[|fields| - 1].1)
    else Get(fields[..|fields| - 1], key)
  }

  /** A key is found exactly when some member has it, and what is found is
      the value of the last such member. */
  lemma {:induction false} GetMeaning<V>(fields: seq<(string, V)>, key: string)
    ensures Get(fields, key).None? <==> forall i :: 0 <= i < |fields| ==> fields[i].0 != key
    ensures Get(fields, key).Some? ==>
              exists i :: 0 <= i < |fields| && fields[i] == (key, Get(fields, key).value)
                          && forall j :: i < j < |fields| ==> fields[j].0 != key
  {
    if fields != [] {
      var init := fields[..|fields| - 1];
      GetMeaning(init, key);
      if fields[|fields| - 1].0 != key && Get(init, key).Some? {
        var i :| 0 <= i < |init| && init[i] == (key, Get(init, key).value)
                 && forall j :: i < j < |init| ==> init[j].0 != key;
        assert fields[i] == (key, Get(fields, key).value);
      }
    }
  }

  /** The member names, in order. */
  function Keys<V>(fields: seq<(string, V)>): (ks: seq<string>)
    ensures |ks| == |fields|
    ensures forall i :: 0 <= i < |fields| ==> ks[i] == fields[i].0
  {
    if fields == [] then [] else [fields[0].0] + Keys(fields[1..])
  }

  /** A JSON array of strings, as a list of its strings. */
  function Strings(items: seq<Json>): (r: Option<seq<string>>)
    ensures r.Some? <==> forall i :: 0 <= i < |items| ==> items[i].JString?
    ensures r.Some? ==> |r.value| == |items|
                        && forall i :: 0 <= i < |items| ==> items[i] == JString(r.value[i])
  {
    if items == [] then Some([])
    else if !items[0].JString? then None
    else match Strings(items[1..])
      case None => None
      case Some(rest) => Some([items[0].s] + rest)
  }

  // ---------------------------------------------------------------------------
  // The dict `json.loads` builds from an object's members
  // ---------------------------------------------------------------------------

  /** No key occurs twice. */
  predicate DistinctKeys<V>(fields: seq<(string, V)>) {
    forall i, j :: 0 <= i < j < |fields| ==> fields[i].0 != fields[j].0
  }

  /** In a dict without duplicates, each key finds its own value and an
      absent key finds nothing. */
  lemma GetDistinct<V>(d: seq<(string, V)>, key: string)
    requires DistinctKeys(d)
    ensures forall i :: 0 <= i < |d| && d[i].0 == key ==> Get(d, key) == Some(d[i].1)
    ensures key !in Keys(d) ==> Get(d, key).None?
  {
    GetMeaning(d, key);
  }

  /** The position of `key` among the keys of `d`, or `|d|` when absent. */
  function IndexOf<V>(d: seq<(string, V)>, key: string): (i: nat)
    ensures i <= |d|
    ensures i < |d| ==> d[i].0 == key
    ensures forall j :: 0 <= j < i ==> d[j].0 != key
  {
    if d == [] then 0
    else if d[0].0 == key then 0
    else 1 + IndexOf(d[1..], key)
  }

  /** `d[key] = v`: an existing key keeps its position and takes the new
      value; a new key goes to the end. */
  function Assign<V>(d: seq<(string, V)>, key: string, v: V): (r: seq<(string, V)>)
    ensures key in Keys(d) ==> Keys(r) == Keys(d)
    ensures key !in Keys(d) ==> Keys(r) == Keys(d) + [key]
    ensures DistinctKeys(d) ==> DistinctKeys(r)
  {
    var i := IndexOf(d, key);
    if i < |d| then d[i := (key, v)] else d + [(key, v)]
  }

  /** Looking a key up after assigning it. */
  lemma AssignGet<V>(d: seq<(string, V)>, key: string, v: V, k: string)
    requires DistinctKeys(d)
    ensures Get(Assign(d, key, v), k) == if k == key then Some(v) else Get(d, k)
  {
    var r := Assign(d, key, v);
    GetDistinct(r, k);
    GetDistinct(d, k);
    if k == key {
      if IndexOf(d, key) < |d| {
        assert r[IndexOf(d, key)] == (key, v);
      } else {
        assert r[|d|] == (key, v);
      }
    } else if k in Keys(d) {
      var j :| 0 <= j < |d| && d[j].0 == k;
      assert r[j] == d[j];
    } else {
      assert k !in Keys(r);
    }
  }

  /** The keys of `ks` in first-occurrence order, each once. */
  function Dedup(ks: seq<string>): seq<string> {
    if ks == [] then []
    else if ks[|ks| - 1] in Dedup(ks[..|ks| - 1]) then Dedup(ks[..|ks| - 1])
    else Dedup(ks[..|ks| - 1]) + [ks[|ks| - 1]]
  }

  /** The dict built by assigning the members in document order. */
  function Dict<V>(fields: seq<(string, V)>): (d: seq<(string, V)>)
    ensures DistinctKeys(d)
    ensures Keys(d) == Dedup(Keys(fields))
  {
    if fields == [] then []
    else
      var init := fields[..|fields| - 1];
      assert Keys(fields) == Keys(init) + [fields[|fields| - 1].0];
      assert Keys(fields)[..|fields| - 1] == Keys(init);
      Assign(Dict(init), fields[|fields| - 1].0, fields[|fields| - 1].1)
  }

  /** The dict answers every lookup as the members do under last-wins. */
  lemma {:induction false} DictGet<V>(fields: seq<(string, V)>, k: string)
    ensures Get(Dict(fields), k) == Get(fields, k)
  {
    if fields != [] {
      var init := fields[..|fields| - 1];
      DictGet(init, k);
      AssignGet(Dict(init), fields[|fields| - 1].0, fields[|fields| - 1].1, k);
    }
  }

  /** Deduplication keeps exactly the keys that occur. */
  lemma {:induction false} DedupMembers(ks: seq<string>, k: string)
    ensures k in Dedup(ks) <==> k in ks
  {
    if ks != [] {
      var init := ks[..|ks| - 1];
      DedupMembers(init, k);
      DedupMembers(init, ks[|ks| - 1]);
      assert ks == init + [ks[|ks| - 1]];
    }
  }

  /** Every entry of the dict is what its key looks up in the members. */
  lemma DictEntries<V>(fields: seq<(string, V)>)
    ensures forall i :: 0 <= i < |Dict(fields)| ==> Get(fields, Dict(fields)[i].0) == Some(Dict(fields)[i].1)
  {
    var d := Dict(fields);
    forall i | 0 <= i < |d|
      ensures Get(fields, d[i].0) == Some(d[i].1)
    {
      DictGet(fields, d[i].0);
      GetDistinct(d, d[i].0);
    }
  }
}
