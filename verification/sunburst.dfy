/**
 * The hierarchy builder of `visualize_sunburst.py` (`create_sunburst_data`):
 * the exported rows are grouped by category in first-seen order and laid out
 * as a three-level tree (the seed, its categories, their sub-queries) in
 * five parallel arrays. The colour table gives each canonical category its
 * colour and every other name a default.
 */
module Sunburst {
  import opened Wrappers
  import opened Text
  import opened Json
  import opened Taxonomy
  import opened Exporter

  // ---------------------------------------------------------------------------
  // Colours
  // ---------------------------------------------------------------------------

  const RootColor: string := "#E8E8E8"
  const DefaultColor: string := "#CCCCCC"

  /** The colour the table assigns to a category. */
  function CategoryColor(c: Category): string {
    match c
    case Disambiguation => "#E74C3C"
    case LatentNeeds => "#1ABC9C"
    case FollowUp => "#3498DB"
    case ProConEvidence => "#E67E22"
    case Entities => "#2ECC71"
    case RelatedDocuments => "#F39C12"
    case SessionContext => "#9B59B6"
    case Personalization => "#E91E63"
  }

  /** `CATEGORY_COLORS`: each canonical key with its category's colour, in
      taxonomy order. */
  function CategoryColors(): (table: seq<(string, string)>)
    ensures |table| == |Categories|
  {
    seq(|Categories|, i requires 0 <= i < |Categories| => (Key(Categories[i]), CategoryColor(Categories[i])))
  }

  /** `CATEGORY_COLORS.get(name, "#CCCCCC")`. */
  function ColorOf(name: string): string {
    match Get(CategoryColors(), name)
    case Some(color) => color
    case None => DefaultColor
  }

  /** The table gives the categories eight different colours, none of them
      the default or the root's. */
  lemma CategoryColorsDistinct(c: Category, d: Category)
    ensures CategoryColor(c) == CategoryColor(d) ==> c == d
    ensures CategoryColor(c) != DefaultColor && CategoryColor(c) != RootColor
  {
  }

  /** The table lists the canonical keys in taxonomy order, each with its
      category's colour. */
  lemma ColorTableEntries()
    ensures Keys(CategoryColors()) == CanonicalKeys
    ensures forall i :: 0 <= i < |CategoryColors()| ==> CategoryColors()[i].1 == CategoryColor(Categories[i])
  {
    CanonicalKeysDistinct();
    assert |Keys(CategoryColors())| == |CanonicalKeys|;
    forall i | 0 <= i < |CanonicalKeys|
      ensures Keys(CategoryColors())[i] == CanonicalKeys[i]
    {
      assert CategoryColors()[i].0 == Key(Categories[i]);
    }
  }

  /** A canonical key gets its own category's colour and any other name the
      default, so a name gets the default exactly when it is not a key. */
  lemma ColorOfMeaning(name: string)
    ensures name in CanonicalKeys ==> ColorOf(name) == CategoryColor(FromKey(name).value)
    ensures name !in CanonicalKeys ==> ColorOf(name) == DefaultColor
    ensures ColorOf(name) == DefaultColor <==> name !in CanonicalKeys
  {
    ColorTableEntries();
    CanonicalKeysDistinct();
    assert DistinctKeys(CategoryColors());
    GetDistinct(CategoryColors(), name);
    if name in CanonicalKeys {
      var i :| 0 <= i < |CanonicalKeys| && CanonicalKeys[i] == name;
      KeyRoundTrip(Categories[i]);
      assert CategoryColors()[i].0 == name;
      CategoryColorsDistinct(Categories[i], Categories[i]);
    }
  }

  // ---------------------------------------------------------------------------
  // Grouping by category
  // ---------------------------------------------------------------------------

  /** The list a category already has, or the empty list it is given. */
  function Existing(m: CategoryMap, category: string): seq<string> {
    match Get(m, category)
    case Some(qs) => qs
    case None => []
  }

  /** One step of the grouping loop: the row's sub-query is appended to its
      category's list, which is opened at the end when the category is new. */
  function GroupInto(m: CategoryMap, row: Row): CategoryMap {
    Assign(m, row.category, Existing(m, row.category) + [row.subquery])
  }

  /** The categories of the rows, in row order. */
  function CategoriesOf(rows: seq<Row>): (cs: seq<string>)
    ensures |cs| == |rows|
    ensures forall i :: 0 <= i < |rows| ==> cs[i] == rows[i].category
  {
    seq(|rows|, i requires 0 <= i < |rows| => rows[i].category)
  }

  /** The sub-queries of the rows of one category, in row order. */
  function SubqueriesOf(rows: seq<Row>, category: string): seq<string> {
    if rows == [] then []
    else
      SubqueriesOf(rows[..|rows| - 1], category)
      + (if rows[|rows| - 1].category == category then [rows[|rows| - 1].subquery] else [])
  }

  /** The grouping loop over `rows`, starting from the dict `acc`. */
  function GroupOnto(acc: CategoryMap, rows: seq<Row>): CategoryMap {
    if rows == [] then acc
    else GroupInto(GroupOnto(acc, rows[..|rows| - 1]), rows[|rows| - 1])
  }

  /** The `categories` dict `create_sunburst_data` builds. */
  function Group(rows: seq<Row>): CategoryMap {
    GroupOnto([], rows)
  }

  lemma {:induction false} TotalCountSnoc(m: CategoryMap, e: (string, seq<string>))
    ensures TotalCount(m + [e]) == TotalCount(m) + |e.1|
  {
    if m != [] {
      assert (m + [e])[1..] == m[1..] + [e];
      TotalCountSnoc(m[1..], e);
    }
  }

  lemma {:induction false} TotalCountUpdate(m: CategoryMap, i: nat, e: (string, seq<string>))
    requires i < |m|
    ensures TotalCount(m[i := e]) == TotalCount(m) - |m[i].1| + |e.1|
  {
    if i > 0 {
      assert m[i := e][1..] == m[1..][i - 1 := e];
      TotalCountUpdate(m[1..], i - 1, e);
    }
  }

  /** One grouping step keeps the keys distinct, adds the category at the
      end when it is new, extends that category's list by the sub-query,
      leaves every other category alone and counts one more sub-query. */
  lemma GroupIntoFacts(m: CategoryMap, row: Row)
    requires DistinctKeys(m)
    ensures DistinctKeys(GroupInto(m, row))
    ensures row.category in Keys(m) ==> Keys(GroupInto(m, row)) == Keys(m)
    ensures row.category !in Keys(m) ==> Keys(GroupInto(m, row)) == Keys(m) + [row.category]
    ensures TotalCount(GroupInto(m, row)) == TotalCount(m) + 1
  {
    var v := Existing(m, row.category) + [row.subquery];
    var i := IndexOf(m, row.category);
    GetDistinct(m, row.category);
    if i < |m| {
      TotalCountUpdate(m, i, (row.category, v));
    } else {
      TotalCountSnoc(m, (row.category, v));
    }
  }

  /** After one grouping step the row's category finds its earlier list
      (or none) extended by the sub-query; every other name finds what it
      found before. */
  lemma GroupIntoGet(m: CategoryMap, row: Row, k: string)
    requires DistinctKeys(m)
    ensures Get(GroupInto(m, row), k) ==
              if k == row.category then Some(Existing(m, k) + [row.subquery]) else Get(m, k)
  {
    AssignGet(m, row.category, Existing(m, row.category) + [row.subquery], k);
  }

  /** The grouped dict has distinct keys, holds the categories in the order
      they are first seen, and counts every row once. */
  lemma {:induction false} GroupFacts(rows: seq<Row>)
    ensures DistinctKeys(Group(rows))
    ensures Keys(Group(rows)) == Dedup(CategoriesOf(rows))
    ensures TotalCount(Group(rows)) == |rows|
  {
    if rows != [] {
      var init := rows[..|rows| - 1];
      GroupFacts(init);
      GroupIntoFacts(Group(init), rows[|rows| - 1]);
      assert CategoriesOf(rows)[..|rows| - 1] == CategoriesOf(init);
    }
  }

  /** The grouping loop takes the last row after all the others. */
  lemma GroupStep(rows: seq<Row>)
    requires rows != []
    ensures Group(rows) == GroupInto(Group(rows[..|rows| - 1]), rows[|rows| - 1])
  {
  }

  lemma SubqueriesSnoc(rows: seq<Row>, category: string)
    requires rows != []
    ensures SubqueriesOf(rows, category) ==
              if rows[|rows| - 1].category == category
              then SubqueriesOf(rows[..|rows| - 1], category) + [rows[|rows| - 1].subquery]
              else SubqueriesOf(rows[..|rows| - 1], category)
  {
    var init := SubqueriesOf(rows[..|rows| - 1], category);
    assert init + [] == init;
  }

  lemma CategoriesSnoc(rows: seq<Row>)
    requires rows != []
    ensures CategoriesOf(rows) == CategoriesOf(rows[..|rows| - 1]) + [rows[|rows| - 1].category]
  {
  }

  /** Each category found in the rows maps to its sub-queries in row order;
      no other name is a key. */
  lemma {:induction false} GroupGet(rows: seq<Row>, category: string)
    ensures Get(Group(rows), category) ==
              if category in CategoriesOf(rows) then Some(SubqueriesOf(rows, category)) else None
  {
    if rows != [] {
      var init := rows[..|rows| - 1];
      var last := rows[|rows| - 1];
      GroupStep(rows);
      CategoriesSnoc(rows);
      SubqueriesSnoc(rows, category);
      GroupGet(init, category);
      GroupFacts(init);
      GroupIntoGet(Group(init), last, category);
      if category == last.category {
        if category !in CategoriesOf(init) {
          SubqueriesAbsent(init, category);
        }
        assert Existing(Group(init), category) == SubqueriesOf(init, category);
        assert category in CategoriesOf(rows);
      } else {
        assert category in CategoriesOf(rows) <==> category in CategoriesOf(init);
      }
    }
  }

  lemma {:induction false} SubqueriesAbsent(rows: seq<Row>, category: string)
    requires category !in CategoriesOf(rows)
    ensures SubqueriesOf(rows, category) == []
  {
    if rows != [] {
      var init := rows[..|rows| - 1];
      assert CategoriesOf(rows) == CategoriesOf(init) + [rows[|rows| - 1].category];
      SubqueriesAbsent(init, category);
    }
  }

  lemma {:induction false} SubqueriesPresent(rows: seq<Row>, category: string)
    requires category in CategoriesOf(rows)
    ensures SubqueriesOf(rows, category) != []
  {
    var init := rows[..|rows| - 1];
    assert CategoriesOf(rows) == CategoriesOf(init) + [rows[|rows| - 1].category];
    if rows[|rows| - 1].category != category {
      SubqueriesPresent(init, category);
    }
  }

  /** No category's list is empty. */
  lemma GroupNonEmpty(rows: seq<Row>)
    ensures forall i :: 0 <= i < |Group(rows)| ==> Group(rows)[i].1 != []
  {
    var g := Group(rows);
    GroupFacts(rows);
    forall i | 0 <= i < |g|
      ensures g[i].1 != []
    {
      var c := g[i].0;
      assert Keys(g)[i] == c;
      DedupMembers(CategoriesOf(rows), c);
      GroupGet(rows, c);
      GetDistinct(g, c);
      SubqueriesPresent(rows, c);
    }
  }

  // ---------------------------------------------------------------------------
  // Round trip with the exporter
  // ---------------------------------------------------------------------------

  /** The entries whose list is not empty, in order. */
  function NonEmpty(m: CategoryMap): (r: CategoryMap)
    ensures forall i :: 0 <= i < |r| ==> r[i].1 != []
  {
    if m == [] then []
    else NonEmpty(m[..|m| - 1]) + (if m[|m| - 1].1 != [] then [m[|m| - 1]] else [])
  }

  lemma {:induction false} NonEmptyKeys(m: CategoryMap, k: string)
    requires k in Keys(NonEmpty(m))
    ensures k in Keys(m)
  {
    var init := m[..|m| - 1];
    assert Keys(m) == Keys(init) + [m[|m| - 1].0];
    if k in Keys(NonEmpty(init)) {
      NonEmptyKeys(init, k);
    } else {
      assert NonEmpty(m) == NonEmpty(init) + [m[|m| - 1]];
    }
  }

  lemma {:induction false} NonEmptyDistinct(m: CategoryMap)
    requires DistinctKeys(m)
    ensures DistinctKeys(NonEmpty(m))
  {
    if m != [] {
      var init := m[..|m| - 1];
      var last := m[|m| - 1];
      NonEmptyDistinct(init);
      if last.1 != [] {
        if last.0 in Keys(NonEmpty(init)) {
          NonEmptyKeys(init, last.0);
        }
      }
    }
  }

  lemma {:induction false} GroupOntoAppend(acc: CategoryMap, a: seq<Row>, b: seq<Row>)
    ensures GroupOnto(acc, a + b) == GroupOnto(GroupOnto(acc, a), b)
  {
    if b == [] {
      assert a + b == a;
    } else {
      var init := b[..|b| - 1];
      assert (a + b)[..|a + b| - 1] == a + init;
      GroupOntoAppend(acc, a, init);
    }
  }

  /** A row of a new category opens its list at the end. */
  lemma GroupIntoNew(acc: CategoryMap, row: Row)
    requires DistinctKeys(acc) && row.category !in Keys(acc)
    ensures GroupInto(acc, row) == acc + [(row.category, [row.subquery])]
  {
    GetDistinct(acc, row.category);
    assert IndexOf(acc, row.category) == |acc|;
    assert Existing(acc, row.category) + [row.subquery] == [row.subquery];
  }

  /** A row of the last category, new to everything before it, extends the
      last list. */
  lemma GroupIntoLast(acc: CategoryMap, qs: seq<string>, row: Row)
    requires DistinctKeys(acc) && row.category !in Keys(acc)
    ensures GroupInto(acc + [(row.category, qs)], row) == acc + [(row.category, qs + [row.subquery])]
  {
    var m := acc + [(row.category, qs)];
    assert Keys(m) == Keys(acc) + [row.category];
    assert DistinctKeys(m);
    GetDistinct(m, row.category);
    assert IndexOf(m, row.category) == |acc|;
  }

  /** The grouping loop takes the last row after all the others. */
  lemma GroupOntoStep(acc: CategoryMap, rows: seq<Row>)
    requires rows != []
    ensures GroupOnto(acc, rows) == GroupInto(GroupOnto(acc, rows[..|rows| - 1]), rows[|rows| - 1])
  {
  }

  /** A category's rows end with the row of its last sub-query. */
  lemma CategoryRowsSnoc(seed: string, locale: string, c: string, qs: seq<string>)
    requires qs != []
    ensures var rows := CategoryRows(seed, locale, c, qs);
      && rows != []
      && rows[..|rows| - 1] == CategoryRows(seed, locale, c, qs[..|qs| - 1])
      && rows[|rows| - 1] == Row(seed, locale, c, qs[|qs| - 1])
  {
  }

  /** Grouping one category's rows onto a dict that lacks the category
      appends the category with its whole list, unless the list is empty. */
  lemma {:induction false} GroupOntoCategoryRows(acc: CategoryMap, seed: string, locale: string, c: string, qs: seq<string>)
    requires DistinctKeys(acc) && c !in Keys(acc)
    ensures GroupOnto(acc, CategoryRows(seed, locale, c, qs)) == if qs == [] then acc else acc + [(c, qs)]
  {
    if qs != [] {
      var init := qs[..|qs| - 1];
      var row := Row(seed, locale, c, qs[|qs| - 1]);
      var rows := CategoryRows(seed, locale, c, qs);
      CategoryRowsSnoc(seed, locale, c, qs);
      GroupOntoStep(acc, rows);
      GroupOntoCategoryRows(acc, seed, locale, c, init);
      assert GroupOnto(acc, rows) == GroupInto(GroupOnto(acc, CategoryRows(seed, locale, c, init)), row);
      if init == [] {
        assert GroupOnto(acc, CategoryRows(seed, locale, c, init)) == acc;
        GroupIntoNew(acc, row);
        InitLast(qs);
      } else {
        assert GroupOnto(acc, CategoryRows(seed, locale, c, init)) == acc + [(c, init)];
        GroupIntoLast(acc, init, row);
        InitLast(qs);
      }
    }
  }

  lemma {:induction false} FlattenSnoc(seed: string, locale: string, m: CategoryMap, e: (string, seq<string>))
    ensures Flatten(seed, locale, m + [e]) == Flatten(seed, locale, m) + CategoryRows(seed, locale, e.0, e.1)
  {
    if m == [] {
      assert m + [e] == [e];
    } else {
      assert (m + [e])[1..] == m[1..] + [e];
      FlattenSnoc(seed, locale, m[1..], e);
    }
  }

  /** Grouping the exported rows of a dict with distinct keys gives back the
      dict without its empty lists: same categories, same order, same lists. */
  lemma {:induction false} GroupFlatten(seed: string, locale: string, m: CategoryMap)
    requires DistinctKeys(m)
    ensures Group(Flatten(seed, locale, m)) == NonEmpty(m)
  {
    if m != [] {
      var init := m[..|m| - 1];
      var last := m[|m| - 1];
      assert m == init + [last];
      assert DistinctKeys(init);
      GroupFlatten(seed, locale, init);
      FlattenSnoc(seed, locale, init, last);
      GroupOntoAppend([], Flatten(seed, locale, init), CategoryRows(seed, locale, last.0, last.1));
      NonEmptyDistinct(init);
      if last.0 in Keys(NonEmpty(init)) {
        NonEmptyKeys(init, last.0);
      }
      GroupOntoCategoryRows(NonEmpty(init), seed, locale, last.0, last.1);
    }
  }

  // ---------------------------------------------------------------------------
  // The five arrays
  // ---------------------------------------------------------------------------

  /** One entry of the five parallel arrays. */
  datatype Node = Node(name: string, parent: string, value: int, color: string, hover: string)

  /** The arrays `create_sunburst_data` returns. */
  datatype SunburstData = SunburstData(
    labels: seq<string>, parents: seq<string>, values: seq<int>, colors: seq<string>, hoverText: seq<string>)

  const EmptyDataError: Error := ValueError("CSV data is empty")

  function RootHover(seed: string, total: int): string {
    "<b>" + seed + "</b><br>全" + IntToDecimal(total) + "件のサブクエリ"
  }

  function CategoryHover(category: string, count: int): string {
    "<b>" + category + "</b><br>サブクエリ数: " + IntToDecimal(count)
  }

  /** The leaves of one category: each sub-query under its category, with
      weight 1 and the category's colour. */
  function LeafNodes(category: string, subqueries: seq<string>): (ns: seq<Node>)
    ensures |ns| == |subqueries|
    ensures forall k :: 0 <= k < |ns| ==> ns[k] == Node(subqueries[k], category, 1, ColorOf(category), subqueries[k])
  {
    seq(|subqueries|, k requires 0 <= k < |subqueries| =>
      Node(subqueries[k], category, 1, ColorOf(category), subqueries[k]))
  }

  /** A category node under the seed, weighted by its number of sub-queries,
      followed by its leaves. */
  function CategoryBlock(seed: string, entry: (string, seq<string>)): (ns: seq<Node>)
    ensures |ns| == 1 + |entry.1|
  {
    [Node(entry.0, seed, |entry.1|, ColorOf(entry.0), CategoryHover(entry.0, |entry.1|))]
    + LeafNodes(entry.0, entry.1)
  }

  /** A block starts with its category's node... */
  lemma CategoryBlockHead(seed: string, entry: (string, seq<string>))
    ensures CategoryBlock(seed, entry)[0]
            == Node(entry.0, seed, |entry.1|, ColorOf(entry.0), CategoryHover(entry.0, |entry.1|))
  {
  }

  /** ...followed by its leaves in list order. */
  lemma CategoryBlockLeaf(seed: string, entry: (string, seq<string>), k: nat)
    requires k < |entry.1|
    ensures CategoryBlock(seed, entry)[1 + k] == Node(entry.1[k], entry.0, 1, ColorOf(entry.0), entry.1[k])
  {
    assert CategoryBlock(seed, entry)[1 + k] == LeafNodes(entry.0, entry.1)[k];
  }

  /** The block of each category, in dict order. */
  function BlockList(seed: string, m: CategoryMap): (bs: seq<seq<Node>>)
    ensures |bs| == |m|
    ensures forall i :: 0 <= i < |m| ==> bs[i] == CategoryBlock(seed, m[i])
  {
    seq(|m|, i requires 0 <= i < |m| => CategoryBlock(seed, m[i]))
  }

  /** Pieces shaped like the blocks of `m`: one per category, each one
      longer than the category's list. */
  predicate ShapedLike<T>(parts: seq<seq<T>>, m: CategoryMap) {
    |parts| == |m| && forall k :: 0 <= k < |m| ==> |parts[k]| == 1 + |m[k].1|
  }

  /** Such pieces take one entry per category and one per sub-query. */
  lemma {:induction false} ShapedLength<T>(parts: seq<seq<T>>, m: CategoryMap)
    requires ShapedLike(parts, m)
    ensures |Concat(parts)| == |m| + TotalCount(m)
  {
    if m != [] {
      assert ShapedLike(parts[1..], m[1..]);
      ShapedLength(parts[1..], m[1..]);
    }
  }

  /** Entry `j` of piece `i` sits at `i + Offset(m, i) + j`. */
  lemma ShapedAt<T>(parts: seq<seq<T>>, m: CategoryMap, i: nat, j: nat)
    requires ShapedLike(parts, m) && i < |m| && j <= |m[i].1|
    ensures i + Offset(m, i) + |m[i].1| < |Concat(parts)|
    ensures Concat(parts)[i + Offset(m, i) + j] == parts[i][j]
  {
    assert ShapedLike(parts[..i], m[..i]);
    ShapedLength(parts[..i], m[..i]);
    ConcatAt(parts, i, j);
    ConcatAt(parts, i, |m[i].1|);
  }

  /** The blocks of all categories, in dict order. */
  function Blocks(seed: string, m: CategoryMap): (ns: seq<Node>)
    ensures |ns| == |m| + TotalCount(m)
  {
    ShapedLength(BlockList(seed, m), m);
    Concat(BlockList(seed, m))
  }

  /** The five arrays of a node list, entry by entry. */
  function Columns(ns: seq<Node>): (d: SunburstData)
    ensures |d.labels| == |d.parents| == |d.values| == |d.colors| == |d.hoverText| == |ns|
    ensures forall i :: 0 <= i < |ns| ==>
              ns[i] == Node(d.labels[i], d.parents[i], d.values[i], d.colors[i], d.hoverText[i])
  {
    SunburstData(
      seq(|ns|, i requires 0 <= i < |ns| => ns[i].name),
      seq(|ns|, i requires 0 <= i < |ns| => ns[i].parent),
      seq(|ns|, i requires 0 <= i < |ns| => ns[i].value),
      seq(|ns|, i requires 0 <= i < |ns| => ns[i].color),
      seq(|ns|, i requires 0 <= i < |ns| => ns[i].hover))
  }

  /** The root node: the first row's seed, no parent, weighted by the
      number of sub-queries. */
  function RootNode(seed: string, total: int): Node {
    Node(seed, "", total, RootColor, RootHover(seed, total))
  }

  /** The arrays of a grouped dict under `seed`: the root, weighted by the
      number of sub-queries, then each category's block in dict order. */
  function Layout(seed: string, g: CategoryMap): (d: SunburstData)
    ensures |d.labels| == |d.parents| == |d.values| == |d.colors| == |d.hoverText| == 1 + |g| + TotalCount(g)
    ensures d.labels[0] == seed && d.parents[0] == "" && d.values[0] == TotalCount(g)
    ensures d.colors[0] == RootColor && d.hoverText[0] == RootHover(seed, TotalCount(g))
  {
    Columns([RootNode(seed, TotalCount(g))] + Blocks(seed, g))
  }

  /** `create_sunburst_data`: `ValueError` on no rows; otherwise the layout
      of the rows grouped by category, under the first row's seed. */
  function CreateSunburstData(rows: seq<Row>): (r: Result<SunburstData, Error>)
    ensures r.Failure? <==> rows == []
    ensures r.Failure? ==> r.error == EmptyDataError
    ensures r.Success? ==> r.value == Layout(rows[0].seed, Group(rows))
    ensures r.Success? ==>
              && |r.value.labels| == |r.value.parents| == |r.value.values| == |r.value.colors|
                 == |r.value.hoverText| == 1 + |Group(rows)| + |rows|
              && r.value.labels[0] == rows[0].seed
              && r.value.parents[0] == ""
              && r.value.values[0] == |rows|
              && r.value.colors[0] == RootColor
              && r.value.hoverText[0] == RootHover(rows[0].seed, |rows|)
  {
    if rows == [] then Failure(EmptyDataError)
    else
      GroupFacts(rows);
      Success(Layout(rows[0].seed, Group(rows)))
  }

  // ---------------------------------------------------------------------------
  // The layout
  // ---------------------------------------------------------------------------

  /** Where the node of category `i` sits: after the root and the blocks of
      the categories before it. */
  function NodeIndex(m: CategoryMap, i: nat): nat
    requires i <= |m|
  {
    1 + i + Offset(m, i)
  }

  /** Category `i + 1` starts right after category `i` and its leaves. */
  lemma NodeIndexStep(m: CategoryMap, i: nat)
    requires i < |m|
    ensures NodeIndex(m, i + 1) == NodeIndex(m, i) + 1 + |m[i].1|
  {
    assert m[..i + 1] == m[..i] + [m[i]];
    TotalCountSnoc(m[..i], m[i]);
  }

  /** Category `i`'s block sits at `i + Offset(g, i)` among the blocks. */
  lemma BlocksAt(seed: string, g: CategoryMap, i: nat, j: nat)
    requires i < |g| && j <= |g[i].1|
    ensures i + Offset(g, i) + |g[i].1| < |Blocks(seed, g)|
    ensures Blocks(seed, g)[i + Offset(g, i) + j] == CategoryBlock(seed, g[i])[j]
  {
    ShapedAt(BlockList(seed, g), g, i, j);
  }

  /** Entry `NodeIndex(g, i) + j` of the layout is entry `j` of category
      `i`'s block. */
  lemma LayoutAt(seed: string, g: CategoryMap, i: nat, j: nat)
    requires i < |g| && j <= |g[i].1|
    ensures NodeIndex(g, i) + |g[i].1| < |Layout(seed, g).labels|
    ensures var d := Layout(seed, g); var n := NodeIndex(g, i);
      CategoryBlock(seed, g[i])[j] == Node(d.labels[n + j], d.parents[n + j], d.values[n + j], d.colors[n + j], d.hoverText[n + j])
  {
    BlocksAt(seed, g, i, j);
    var ns := [RootNode(seed, TotalCount(g))] + Blocks(seed, g);
    assert ns[NodeIndex(g, i) + j] == Blocks(seed, g)[i + Offset(g, i) + j];
  }

  /** The node of category `i`: under the seed, weighted by its number of
      sub-queries, in its colour; the next category starts after its leaves. */
  lemma LayoutCategory(seed: string, g: CategoryMap, i: nat)
    requires i < |g|
    ensures var d := Layout(seed, g); var n := NodeIndex(g, i);
      && n + |g[i].1| < |d.labels|
      && d.labels[n] == g[i].0
      && d.parents[n] == seed
      && d.values[n] == |g[i].1|
      && d.colors[n] == ColorOf(g[i].0)
      && d.hoverText[n] == CategoryHover(g[i].0, |g[i].1|)
      && NodeIndex(g, i + 1) == n + 1 + |g[i].1|
  {
    var d := Layout(seed, g);
    var n := NodeIndex(g, i);
    assert n + |g[i].1| < |d.labels|
        && Node(d.labels[n], d.parents[n], d.values[n], d.colors[n], d.hoverText[n])
           == Node(g[i].0, seed, |g[i].1|, ColorOf(g[i].0), CategoryHover(g[i].0, |g[i].1|)) by {
      LayoutAt(seed, g, i, 0);
      CategoryBlockHead(seed, g[i]);
    }
    NodeIndexStep(g, i);
  }

  /** The `k`-th leaf of category `i`: the sub-query under its category,
      weight 1, the category's colour, the sub-query as hover text. */
  lemma LayoutLeaf(seed: string, g: CategoryMap, i: nat, k: nat)
    requires i < |g| && k < |g[i].1|
    ensures var d := Layout(seed, g); var n := NodeIndex(g, i);
      && n + 1 + k < |d.labels|
      && d.labels[n + 1 + k] == g[i].1[k]
      && d.parents[n + 1 + k] == g[i].0
      && d.values[n + 1 + k] == 1
      && d.colors[n + 1 + k] == ColorOf(g[i].0)
      && d.hoverText[n + 1 + k] == g[i].1[k]
  {
    var d := Layout(seed, g);
    var n := NodeIndex(g, i);
    assert n + 1 + k < |d.labels|
        && Node(d.labels[n + 1 + k], d.parents[n + 1 + k], d.values[n + 1 + k], d.colors[n + 1 + k], d.hoverText[n + 1 + k])
           == Node(g[i].1[k], g[i].0, 1, ColorOf(g[i].0), g[i].1[k]) by {
      LayoutAt(seed, g, i, 1 + k);
      CategoryBlockLeaf(seed, g[i], k);
    }
  }

  /** Entry `i` of the grouped rows is the `i`-th category in first-seen
      order with all of its sub-queries in row order. */
  lemma GroupEntry(rows: seq<Row>, i: nat)
    requires i < |Group(rows)|
    ensures |Group(rows)| == |Dedup(CategoriesOf(rows))|
    ensures Group(rows)[i] == (Dedup(CategoriesOf(rows))[i], SubqueriesOf(rows, Group(rows)[i].0))
  {
    var g := Group(rows);
    GroupFacts(rows);
    assert Keys(g)[i] == g[i].0;
    DedupMembers(CategoriesOf(rows), g[i].0);
    GroupGet(rows, g[i].0);
    GetDistinct(g, g[i].0);
  }

  /** The weights of the categories, in dict order. */
  function CategoryCounts(m: CategoryMap): (cs: seq<int>)
    ensures |cs| == |m|
    ensures forall i :: 0 <= i < |m| ==> cs[i] == |m[i].1|
  {
    seq(|m|, i requires 0 <= i < |m| => |m[i].1|)
  }

  function Sum(xs: seq<int>): int {
    if xs == [] then 0 else xs[0] + Sum(xs[1..])
  }

  lemma {:induction false} SumCategoryCounts(m: CategoryMap)
    ensures Sum(CategoryCounts(m)) == TotalCount(m)
  {
    if m != [] {
      assert CategoryCounts(m)[1..] == CategoryCounts(m[1..]);
      SumCategoryCounts(m[1..]);
    }
  }

  /** The category weights add up to the root's weight, the number of rows. */
  lemma CategoryValuesSumToRoot(rows: seq<Row>)
    requires rows != []
    ensures Sum(CategoryCounts(Group(rows))) == CreateSunburstData(rows).value.values[0] == |rows|
  {
    SumCategoryCounts(Group(rows));
  }

  /** The chart of an exported dict: no sub-query at all raises the
      `ValueError`; otherwise the chart is the layout, under the exported
      seed, of the dict without its empty lists. */
  lemma SunburstOfExport(seed: string, locale: string, m: CategoryMap)
    requires DistinctKeys(m)
    ensures TotalCount(m) == 0 ==> CreateSunburstData(Flatten(seed, locale, m)) == Failure(EmptyDataError)
    ensures TotalCount(m) > 0 ==> CreateSunburstData(Flatten(seed, locale, m)) == Success(Layout(seed, NonEmpty(m)))
  {
    var rows := Flatten(seed, locale, m);
    GroupFlatten(seed, locale, m);
    if rows != [] {
      assert rows[0].seed == seed;
    }
  }
}
