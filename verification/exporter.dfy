/**
 * The CSV export of `fanout_generator.py` (`export_to_csv`): the decoded
 * `categories` dict is flattened into one `(seed, locale, category,
 * subquery)` row per sub-query, after a fixed header row. Quoting and the
 * file itself are not modelled; the table is a sequence of rows of cells.
 */
module Exporter {
  import opened Wrappers
  import opened Json
  import opened Generator

  /** A dict from category name to its sub-queries, in insertion order. */
  type CategoryMap = seq<(string, seq<string>)>

  /** One exported row. */
  datatype Row = Row(seed: string, locale: string, category: string, subquery: string)

  // ---------------------------------------------------------------------------
  // From the decoded value to a category dict
  // ---------------------------------------------------------------------------

  /** A JSON array of strings as the list it holds. */
  function AsStringList(v: Json): Option<seq<string>> {
    if v.JArray? then Strings(v.items) else None
  }

  /** The category dict of a dict of JSON values, when every value is an
      array of strings. */
  function StringLists(d: seq<(string, Json)>): (r: Option<CategoryMap>)
    ensures r.Some? <==> forall i :: 0 <= i < |d| ==> AsStringList(d[i].1).Some?
    ensures r.Some? ==> |r.value| == |d|
    ensures r.Some? ==> forall i :: 0 <= i < |d| ==> r.value[i] == (d[i].0, AsStringList(d[i].1).value)
  {
    if d == [] then Some([])
    else match (AsStringList(d[0].1), StringLists(d[1..]))
      case (Some(qs), Some(rest)) => Some([(d[0].0, qs)] + rest)
      case _ => None
  }

  /** The decoded `categories` value as the dict `export_to_csv` iterates:
      `json.loads` collapses duplicate members (the first position, the
      last value), and each value must be a list of strings. */
  function CategoryMapOf(j: Json): (r: Option<CategoryMap>)
    ensures r.Some? ==> j.JObject? && DistinctKeys(r.value) && Keys(r.value) == Dedup(Keys(j.fields))
  {
    if !j.JObject? then None
    else
      var d := Dict(j.fields);
      var r := StringLists(d);
      if r.Some? then
        assert Keys(r.value) == Keys(d);
        r
      else r
  }

  /** The dict is there exactly when the value is an object whose every
      member, as the dict keeps it, is a list of strings. */
  lemma CategoryMapOfDefined(j: Json)
    ensures CategoryMapOf(j).Some? <==>
              j.JObject? && forall key :: Get(j.fields, key).Some? ==> AsStringList(Get(j.fields, key).value).Some?
  {
    if j.JObject? {
      var d := Dict(j.fields);
      if StringLists(d).Some? {
        forall key | Get(j.fields, key).Some?
          ensures AsStringList(Get(j.fields, key).value).Some?
        {
          DictGet(j.fields, key);
          GetMeaning(d, key);
        }
      }
      DictEntries(j.fields);
      if StringLists(d).None? {
        var i :| 0 <= i < |d| && AsStringList(d[i].1).None?;
        assert Get(j.fields, d[i].0) == Some(d[i].1);
      }
    }
  }

  /** The dict maps each key to the list that the object's member holds. */
  lemma CategoryMapOfGet(j: Json, key: string)
    requires CategoryMapOf(j).Some? && j.JObject? && Get(j.fields, key).Some?
    ensures Get(CategoryMapOf(j).value, key) == AsStringList(Get(j.fields, key).value)
  {
    var d := Dict(j.fields);
    var m := CategoryMapOf(j).value;
    DictGet(j.fields, key);
    GetMeaning(d, key);
    var i :| 0 <= i < |d| && d[i] == (key, Get(j.fields, key).value);
    assert m[i] == (key, AsStringList(d[i].1).value);
    GetDistinct(m, key);
  }

  // ---------------------------------------------------------------------------
  // Flattening
  // ---------------------------------------------------------------------------

  /** The rows of one category, in list order. */
  function CategoryRows(seed: string, locale: string, category: string, queries: seq<string>): (rs: seq<Row>)
    ensures |rs| == |queries|
    ensures forall k :: 0 <= k < |queries| ==> rs[k] == Row(seed, locale, category, queries[k])
  {
    seq(|queries|, k requires 0 <= k < |queries| => Row(seed, locale, category, queries[k]))
  }

  /** The number of sub-queries over all categories. */
  function TotalCount(m: CategoryMap): nat {
    if m == [] then 0 else |m[0].1| + TotalCount(m[1..])
  }

  /** The data rows: the categories in iteration order, each category's
      sub-queries in list order. */
  function Flatten(seed: string, locale: string, m: CategoryMap): (rows: seq<Row>)
    ensures |rows| == TotalCount(m)
    ensures forall r :: 0 <= r < |rows| ==> rows[r].seed == seed && rows[r].locale == locale
    ensures forall r :: 0 <= r < |rows| ==> rows[r].category in Keys(m)
  {
    if m == [] then []
    else CategoryRows(seed, locale, m[0].0, m[0].1) + Flatten(seed, locale, m[1..])
  }

  /** Where a category's rows start: after the rows of every earlier one. */
  function Offset(m: CategoryMap, i: nat): nat
    requires i <= |m|
  {
    TotalCount(m[..i])
  }

  /** Sub-query `k` of category `i` is row `Offset(m, i) + k`. */
  lemma {:induction false} FlattenAt(seed: string, locale: string, m: CategoryMap, i: nat, k: nat)
    requires i < |m| && k < |m[i].1|
    ensures Offset(m, i) + k < TotalCount(m)
    ensures Flatten(seed, locale, m)[Offset(m, i) + k] == Row(seed, locale, m[i].0, m[i].1[k])
  {
    if i == 0 {
      assert m[..0] == [];
    } else {
      var tail := m[1..];
      assert m[..i][1..] == tail[..i - 1];
      FlattenAt(seed, locale, tail, i - 1, k);
    }
  }

  /** The offsets past the first category are the first category's count
      plus the offsets of the rest. */
  lemma OffsetCons(m: CategoryMap, i: nat)
    requires i < |m|
    ensures Offset(m, i + 1) == |m[0].1| + Offset(m[1..], i)
  {
    assert m[..i + 1][1..] == m[1..][..i];
  }

  /** The category and list position of row `r`: every row is some
      sub-query of some category. */
  function Locate(m: CategoryMap, r: nat): (p: (nat, nat))
    requires r < TotalCount(m)
    ensures p.0 < |m| && p.1 < |m[p.0].1|
    ensures r == Offset(m, p.0) + p.1
  {
    assert m[..0] == [];
    if r < |m[0].1| then (0, r)
    else
      var q := Locate(m[1..], r - |m[0].1|);
      OffsetCons(m, q.0);
      (q.0 + 1, q.1)
  }

  // ---------------------------------------------------------------------------
  // The exported table
  // ---------------------------------------------------------------------------

  const Header: seq<string> := ["seed", "locale", "category", "subquery"]

  /** The cells `writerow` receives for a row. */
  function Cells(row: Row): seq<string> {
    [row.seed, row.locale, row.category, row.subquery]
  }

  /** The rows written to the file: the header, then one row per sub-query. */
  function ExportTable(seed: string, locale: string, m: CategoryMap): (t: seq<seq<string>>)
    ensures |t| == 1 + TotalCount(m)
    ensures t[0] == Header
    ensures forall r :: 0 <= r < TotalCount(m) ==> t[r + 1] == Cells(Flatten(seed, locale, m)[r])
  {
    var rows := Flatten(seed, locale, m);
    [Header] + seq(|rows|, r requires 0 <= r < |rows| => Cells(rows[r]))
  }

  /** Sub-query `k` of category `i` is written on line `1 + Offset(m, i) + k`
      with the given seed and locale. */
  lemma ExportTableAt(seed: string, locale: string, m: CategoryMap, i: nat, k: nat)
    requires i < |m| && k < |m[i].1|
    ensures 1 + Offset(m, i) + k < |ExportTable(seed, locale, m)|
    ensures ExportTable(seed, locale, m)[1 + Offset(m, i) + k] == [seed, locale, m[i].0, m[i].1[k]]
  {
    FlattenAt(seed, locale, m, i, k);
  }

  /** The fallback exports as the header and one `Raw` row holding the whole
      response text. */
  lemma ExportRawFallback(seed: string, locale: string, text: string)
    ensures CategoryMapOf(RawFallback(text)) == Some([("Raw", [text])])
    ensures ExportTable(seed, locale, [("Raw", [text])]) == [Header, [seed, locale, "Raw", text]]
  {
    var j := RawFallback(text);
    var d := Dict(j.fields);
    assert j.fields[..0] == [];
    assert d == [("Raw", JArray([JString(text)]))];
    assert [JString(text)][1..] == [];
    assert Strings([]) == Some([]);
    assert [text] + [] == [text];
    assert Strings([JString(text)]) == Some([text]);
    assert d[1..] == [];
    assert StringLists([]) == Some([]);
    assert AsStringList(d[0].1) == Some([text]);
    assert [("Raw", [text])] + [] == [("Raw", [text])];
    assert StringLists(d) == Some([("Raw", [text])]);
    assert TotalCount([("Raw", [text])]) == 1;
  }
}
