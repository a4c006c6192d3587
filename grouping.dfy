/**
 * Grouping of the source rows by category label (src/visual.ts,
 * groupDataByCategoryAndBreakdown). Each row is normalised first: an empty
 * label at row i becomes "Category {i+1}", an empty breakdown becomes "" and
 * an empty or zero value becomes 0. The rows are then collected into one
 * group per label, the labels in the order they are first seen and each
 * group's rows in source order.
 *
 * The source keeps the groups in a plain object and reads them back with
 * `Object.keys`; labels are assumed to be ordinary strings (not array-index
 * numerals, not names of `Object.prototype` members), for which that order is
 * insertion order. The model keeps that order explicitly as `keys`.
 */
module Grouping {
  import opened WaterfallTypes
  import Numerals

  function FallbackLabel(i: nat): string {
    "Category " + Numerals.NatToString(i + 1)
  }

  /** `categoryData.values[i] || "Category {i+1}"`. */
  function CategoryLabel(cells: seq<Option<string>>, i: nat): string {
    match CellAt(cells, i)
    case Some(s) => if s != "" then s else FallbackLabel(i)
    case None => FallbackLabel(i)
  }

  /** `breakdownData ? (breakdownData.values[i] || '') : ''`. */
  function BreakdownLabel(breakdownData: Option<Column<string>>, i: nat): string {
    match breakdownData
    case None => ""
    case Some(c) => CellAt(c.cells, i).GetOr("")
  }

  /** `mainValues.values[i] || 0`. */
  function ValueAt(mainValues: Column<int>, i: nat): int {
    CellAt(mainValues.cells, i).GetOr(0)
  }

  /** The normalised rows; there is one per cell of the category column. */
  function Rows(categoryData: Column<string>, breakdownData: Option<Column<string>>, mainValues: Column<int>): (rows: seq<Row>)
    ensures |rows| == |categoryData.cells|
  {
    seq(|categoryData.cells|, i requires 0 <= i < |categoryData.cells| =>
      Row(CategoryLabel(categoryData.cells, i), BreakdownLabel(breakdownData, i), ValueAt(mainValues, i)))
  }

  predicate Distinct(s: seq<string>) {
    forall i, j :: 0 <= i < j < |s| ==> s[i] != s[j]
  }

  /** Every key in the key order has a group. */
  predicate KeysMapped(keys: seq<string>, groups: map<string, seq<Item>>) {
    forall k :: k in keys ==> k in groups
  }

  /** The grouped rows: the labels in first-seen order, and each label's items. */
  datatype Grouped = Grouped(keys: seq<string>, groups: map<string, seq<Item>>)

  /**
   * The grouping, one row at a time: a row whose label already has a group
   * is appended to it; otherwise its label opens a new group at the end of
   * the key order.
   */
  function GroupRows(rows: seq<Row>): (g: Grouped)
    ensures KeysMapped(g.keys, g.groups)
  {
    if rows == [] then Grouped([], map[])
    else
      var g := GroupRows(rows[..|rows| - 1]);
      var r := rows[|rows| - 1];
      if r.category in g.groups then
        Grouped(g.keys, g.groups[r.category := g.groups[r.category] + [ItemOf(r)]])
      else
        Grouped(g.keys + [r.category], g.groups[r.category := [ItemOf(r)]])
  }

  /** The grouping loop, filling a dictionary and its key order in place. */
  method GroupDataByCategoryAndBreakdown(
    categoryData: Column<string>, breakdownData: Option<Column<string>>, mainValues: Column<int>)
    returns (grouped: Grouped)
    ensures grouped == GroupRows(Rows(categoryData, breakdownData, mainValues))
  {
    ghost var rows := Rows(categoryData, breakdownData, mainValues);
    var keys: seq<string> := [];
    var groups: map<string, seq<Item>> := map[];
    for i := 0 to |categoryData.cells|
      invariant Grouped(keys, groups) == GroupRows(rows[..i])
    {
      var category := CategoryLabel(categoryData.cells, i);
      var breakdown := BreakdownLabel(breakdownData, i);
      var value := ValueAt(mainValues, i);
      GroupRowsStep(rows, i);
      assert rows[i] == Row(category, breakdown, value);
      var item := Item(breakdown, value);
      ghost var g := Grouped(keys, groups);
      if category !in groups {
        keys := keys + [category];
        groups := groups[category := []];
        assert groups[category] + [item] == [item];
      }
      groups := groups[category := groups[category] + [item]];
      assert category !in g.groups ==> groups == g.groups[category := [item]];
    }
    assert rows[..|rows|] == rows;
    grouped := Grouped(keys, groups);
  }

  /**
   * The grouping's shape: no label appears twice in the key order, the key
   * order lists exactly the labels that have a group, and no group is empty.
   */
  lemma {:induction false} GroupRowsShape(rows: seq<Row>)
    ensures Distinct(GroupRows(rows).keys)
    ensures forall k :: k in GroupRows(rows).keys <==> k in GroupRows(rows).groups
    ensures forall k :: k in GroupRows(rows).groups ==> GroupRows(rows).groups[k] != []
  {
    if rows != [] {
      GroupRowsShape(rows[..|rows| - 1]);
    }
  }

  lemma GroupRowsStep(rows: seq<Row>, i: nat)
    requires i < |rows|
    ensures var g, r := GroupRows(rows[..i]), rows[i];
            GroupRows(rows[..i + 1])
            == if r.category in g.groups
               then Grouped(g.keys, g.groups[r.category := g.groups[r.category] + [ItemOf(r)]])
               else Grouped(g.keys + [r.category], g.groups[r.category := [ItemOf(r)]])
  {
    assert rows[..i + 1][..i] == rows[..i];
  }

  // ---------------------------------------------------------------------
  // Reference definitions the grouping is checked against
  // ---------------------------------------------------------------------

  /** The items of the rows labelled `k`, in source order. */
  function ItemsLabelled(rows: seq<Row>, k: string): seq<Item> {
    if rows == [] then []
    else
      var r := rows[|rows| - 1];
      ItemsLabelled(rows[..|rows| - 1], k) + (if r.category == k then [ItemOf(r)] else [])
  }

  /** The first row labelled `k`, or `|rows|` when there is none. */
  function FirstRow(rows: seq<Row>, k: string): (n: nat)
    ensures n <= |rows|
    ensures n < |rows| ==> rows[n].category == k
    ensures forall j :: 0 <= j < n ==> rows[j].category != k
  {
    if rows == [] then 0
    else if rows[0].category == k then 0
    else 1 + FirstRow(rows[1..], k)
  }

  function SumRows(rows: seq<Row>): int {
    if rows == [] then 0 else SumRows(rows[..|rows| - 1]) + rows[|rows| - 1].value
  }

  function SumItems(items: seq<Item>): int {
    if items == [] then 0 else SumItems(items[..|items| - 1]) + items[|items| - 1].value
  }

  /** The sum of every group's items, over the keys in order. */
  function SumGroups(keys: seq<string>, groups: map<string, seq<Item>>): int
    requires KeysMapped(keys, groups)
  {
    if keys == [] then 0
    else SumGroups(keys[..|keys| - 1], groups) + SumItems(groups[keys[|keys| - 1]])
  }

  /** One group's items as rows again, labelled `k`. */
  function RowsOfGroup(k: string, items: seq<Item>): (rows: seq<Row>)
    ensures |rows| == |items|
  {
    seq(|items|, j requires 0 <= j < |items| => Row(k, items[j].breakdown, items[j].value))
  }

  lemma RowsOfGroupSnoc(k: string, items: seq<Item>, it: Item)
    ensures RowsOfGroup(k, items + [it]) == RowsOfGroup(k, items) + [Row(k, it.breakdown, it.value)]
  {
  }

  /** The rows of every group, group after group in key order. */
  function Flatten(keys: seq<string>, groups: map<string, seq<Item>>): seq<Row>
    requires KeysMapped(keys, groups)
  {
    if keys == [] then []
    else Flatten(keys[..|keys| - 1], groups) + RowsOfGroup(keys[|keys| - 1], groups[keys[|keys| - 1]])
  }

  // ---------------------------------------------------------------------
  // Properties of the grouping
  // ---------------------------------------------------------------------

  /**
   * Each label's group holds exactly the rows with that label, in source
   * order, and a label has a group iff some row carries it.
   */
  lemma {:induction false} GroupContents(rows: seq<Row>)
    ensures forall k :: k in GroupRows(rows).groups <==> ItemsLabelled(rows, k) != []
    ensures forall k :: k in GroupRows(rows).groups ==> GroupRows(rows).groups[k] == ItemsLabelled(rows, k)
  {
    if rows != [] {
      GroupContents(rows[..|rows| - 1]);
    }
  }

  /** Row i lands in the group of its (normalised) label. */
  lemma {:induction false} RowInItsGroup(rows: seq<Row>, i: nat)
    requires i < |rows|
    ensures rows[i].category in GroupRows(rows).groups
    ensures ItemOf(rows[i]) in GroupRows(rows).groups[rows[i].category]
  {
    ItemsLabelledHas(rows, i);
    GroupContents(rows);
  }

  lemma {:induction false} ItemsLabelledHas(rows: seq<Row>, i: nat)
    requires i < |rows|
    ensures ItemOf(rows[i]) in ItemsLabelled(rows, rows[i].category)
  {
    if i < |rows| - 1 {
      ItemsLabelledHas(rows[..|rows| - 1], i);
    }
  }

  /** A row with an empty label is labelled "Category {i+1}" and its item lands in that group. */
  lemma EmptyLabelFallback(categoryData: Column<string>, breakdownData: Option<Column<string>>, mainValues: Column<int>, i: nat)
    requires i < |categoryData.cells|
    requires categoryData.cells[i] == None || categoryData.cells[i] == Some("")
    ensures Rows(categoryData, breakdownData, mainValues)[i].category == FallbackLabel(i)
    ensures FallbackLabel(i) in GroupRows(Rows(categoryData, breakdownData, mainValues)).groups
    ensures ItemOf(Rows(categoryData, breakdownData, mainValues)[i])
            in GroupRows(Rows(categoryData, breakdownData, mainValues)).groups[FallbackLabel(i)]
  {
    RowInItsGroup(Rows(categoryData, breakdownData, mainValues), i);
  }

  lemma FirstRowSnoc(rows: seq<Row>, r: Row, k: string)
    ensures FirstRow(rows + [r], k) ==
              if FirstRow(rows, k) < |rows| then FirstRow(rows, k)
              else if r.category == k then |rows| else |rows| + 1
  {
    var a, b := FirstRow(rows + [r], k), FirstRow(rows, k);
    assert (rows + [r])[|rows|] == r;
    assert forall j :: 0 <= j < |rows| ==> (rows + [r])[j] == rows[j];
  }

  /** Every key's label occurs in some row. */
  lemma {:induction false} KeysSeen(rows: seq<Row>)
    ensures forall i :: 0 <= i < |GroupRows(rows).keys| ==> FirstRow(rows, GroupRows(rows).keys[i]) < |rows|
  {
    if rows != [] {
      var init, r := rows[..|rows| - 1], rows[|rows| - 1];
      assert rows == init + [r];
      KeysSeen(init);
      var g, g' := GroupRows(init), GroupRows(rows);
      forall i | 0 <= i < |g'.keys|
        ensures FirstRow(rows, g'.keys[i]) < |rows|
      {
        FirstRowSnoc(init, r, g'.keys[i]);
        if i < |g.keys| {
          assert g'.keys[i] == g.keys[i];
        }
      }
    }
  }

  /**
   * The keys are the labels in the order they are first seen: every key's
   * first row exists, and the first rows of the keys increase along the key
   * order.
   */
  lemma {:induction false} KeysInFirstSeenOrder(rows: seq<Row>)
    ensures forall i :: 0 <= i < |GroupRows(rows).keys| ==> FirstRow(rows, GroupRows(rows).keys[i]) < |rows|
    ensures forall i, j :: 0 <= i < j < |GroupRows(rows).keys| ==>
              FirstRow(rows, GroupRows(rows).keys[i]) < FirstRow(rows, GroupRows(rows).keys[j])
  {
    KeysSeen(rows);
    if rows != [] {
      var init, r := rows[..|rows| - 1], rows[|rows| - 1];
      assert rows == init + [r];
      KeysInFirstSeenOrder(init);
      var g, g' := GroupRows(init), GroupRows(rows);
      forall i | 0 <= i < |g.keys|
        ensures FirstRow(rows, g.keys[i]) == FirstRow(init, g.keys[i])
      {
        FirstRowSnoc(init, r, g.keys[i]);
      }
      if r.category !in g.groups {
        assert g'.keys == g.keys + [r.category];
        NewLabelFirstRow(init, r);
        forall i, j | 0 <= i < j < |g'.keys|
          ensures FirstRow(rows, g'.keys[i]) < FirstRow(rows, g'.keys[j])
        {
          if j == |g.keys| {
            assert g'.keys[i] == g.keys[i];
          }
        }
      }
    }
  }

  /** A label without a group so far is first seen at the row that brings it. */
  lemma NewLabelFirstRow(init: seq<Row>, r: Row)
    requires r.category !in GroupRows(init).groups
    ensures FirstRow(init + [r], r.category) == |init|
  {
    UngroupedLabelUnseen(init, r.category);
    FirstRowSnoc(init, r, r.category);
  }

  /** A label without a group occurs in no row. */
  lemma UngroupedLabelUnseen(rows: seq<Row>, k: string)
    requires k !in GroupRows(rows).groups
    ensures FirstRow(rows, k) == |rows|
  {
    GroupContents(rows);
    FirstRowLabelled(rows, k);
  }

  /** A label that occurs in the rows has items labelled with it. */
  lemma FirstRowLabelled(rows: seq<Row>, k: string)
    ensures FirstRow(rows, k) < |rows| ==> ItemsLabelled(rows, k) != []
  {
    if FirstRow(rows, k) < |rows| {
      ItemsLabelledHas(rows, FirstRow(rows, k));
    }
  }

  /** Updating the group of a key outside the key order changes nothing. */
  lemma {:induction false} UpdateOutsideKeys(keys: seq<string>, groups: map<string, seq<Item>>, k: string, items: seq<Item>)
    requires KeysMapped(keys, groups) && k !in keys
    ensures Flatten(keys, groups[k := items]) == Flatten(keys, groups)
    ensures SumGroups(keys, groups[k := items]) == SumGroups(keys, groups)
  {
    if keys != [] {
      UpdateOutsideKeys(keys[..|keys| - 1], groups, k, items);
    }
  }

  /** Appending an item to one key's group adds exactly that row and its value. */
  lemma {:induction false} AppendToGroup(keys: seq<string>, groups: map<string, seq<Item>>, k: string, it: Item)
    requires KeysMapped(keys, groups) && Distinct(keys) && k in keys
    ensures multiset(Flatten(keys, groups[k := groups[k] + [it]]))
            == multiset(Flatten(keys, groups)) + multiset{Row(k, it.breakdown, it.value)}
    ensures SumGroups(keys, groups[k := groups[k] + [it]]) == SumGroups(keys, groups) + it.value
  {
    var g' := groups[k := groups[k] + [it]];
    var init, last := keys[..|keys| - 1], keys[|keys| - 1];
    if last == k {
      assert k !in init;
      UpdateOutsideKeys(init, groups, k, groups[k] + [it]);
      RowsOfGroupSnoc(k, groups[k], it);
      assert (groups[k] + [it])[..|groups[k]|] == groups[k];
    } else {
      AppendToGroup(init, groups, k, it);
    }
  }

  /** Opening a group for a new label adds exactly that row and its value. */
  lemma OpenGroup(keys: seq<string>, groups: map<string, seq<Item>>, r: Row)
    requires KeysMapped(keys, groups) && r.category !in keys
    ensures Flatten(keys + [r.category], groups[r.category := [ItemOf(r)]]) == Flatten(keys, groups) + [r]
    ensures SumGroups(keys + [r.category], groups[r.category := [ItemOf(r)]]) == SumGroups(keys, groups) + r.value
  {
    var keys' := keys + [r.category];
    assert keys'[..|keys'| - 1] == keys;
    UpdateOutsideKeys(keys, groups, r.category, [ItemOf(r)]);
    assert RowsOfGroup(r.category, [ItemOf(r)]) == [r];
    assert SumItems([ItemOf(r)]) == r.value by {
      assert [ItemOf(r)][..0] == [];
    }
  }

  /**
   * The grouping loses and duplicates nothing: its groups, read in key
   * order, are a permutation of the rows with the same total value.
   */
  lemma GroupingKeepsRows(rows: seq<Row>)
    ensures multiset(Flatten(GroupRows(rows).keys, GroupRows(rows).groups)) == multiset(rows)
    ensures |Flatten(GroupRows(rows).keys, GroupRows(rows).groups)| == |rows|
    ensures SumGroups(GroupRows(rows).keys, GroupRows(rows).groups) == SumRows(rows)
  {
    GroupingKeepsMultiset(rows);
    GroupingKeepsTotal(rows);
    var flat := Flatten(GroupRows(rows).keys, GroupRows(rows).groups);
    assert |multiset(flat)| == |multiset(rows)|;
  }

  lemma {:induction false} GroupingKeepsMultiset(rows: seq<Row>)
    ensures multiset(Flatten(GroupRows(rows).keys, GroupRows(rows).groups)) == multiset(rows)
  {
    if rows != [] {
      var init, r := rows[..|rows| - 1], rows[|rows| - 1];
      assert rows == init + [r];
      GroupingKeepsMultiset(init);
      GroupRowsShape(init);
      var g, g' := GroupRows(init), GroupRows(rows);
      if r.category in g.groups {
        assert g' == Grouped(g.keys, g.groups[r.category := g.groups[r.category] + [ItemOf(r)]]);
        AppendToGroup(g.keys, g.groups, r.category, ItemOf(r));
        assert Row(r.category, ItemOf(r).breakdown, ItemOf(r).value) == r;
      } else {
        assert g' == Grouped(g.keys + [r.category], g.groups[r.category := [ItemOf(r)]]);
        OpenGroup(g.keys, g.groups, r);
      }
    }
  }

  lemma {:induction false} GroupingKeepsTotal(rows: seq<Row>)
    ensures SumGroups(GroupRows(rows).keys, GroupRows(rows).groups) == SumRows(rows)
  {
    if rows != [] {
      var init, r := rows[..|rows| - 1], rows[|rows| - 1];
      GroupingKeepsTotal(init);
      GroupRowsShape(init);
      var g := GroupRows(init);
      if r.category in g.groups {
        AppendToGroup(g.keys, g.groups, r.category, ItemOf(r));
      } else {
        OpenGroup(g.keys, g.groups, r);
      }
    }
  }
}
