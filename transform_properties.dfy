/**
 * What the waterfall transformation promises about its output: the running
 * total chains from point to point and ends at the start value plus the sum
 * of every row; each source row appears exactly once as a row point; the
 * Start point comes first, the Total point last and only when requested;
 * a subtotal follows the rows of its group without moving the running total.
 */
module TransformProperties {
  import opened WaterfallTypes
  import opened Grouping
  import opened Transform
  import Roles

  // ---------------------------------------------------------------------
  // The running-total chain
  // ---------------------------------------------------------------------

  /** How much a point moves the running total: only row points do. */
  function Delta(p: DataPoint): int {
    if p.IsOrdinary() then p.value else 0
  }

  /** The running total before point `i`: the previous point's, or `s` at the front. */
  function Before(pts: seq<DataPoint>, i: nat, s: int): int
    requires i <= |pts|
  {
    if i == 0 then s else pts[i - 1].cumulativeValue
  }

  /** The running total after the whole sequence. */
  function Final(pts: seq<DataPoint>, s: int): int {
    Before(pts, |pts|, s)
  }

  /** Every point's cumulative value is the running total before it plus its own move. */
  predicate Chained(pts: seq<DataPoint>, s: int) {
    forall i {:trigger Before(pts, i, s)} :: 0 <= i < |pts| ==> pts[i].cumulativeValue == Before(pts, i, s) + Delta(pts[i])
  }

  lemma ChainedConcat(a: seq<DataPoint>, b: seq<DataPoint>, s: int)
    requires Chained(a, s) && Chained(b, Final(a, s))
    ensures Chained(a + b, s)
    ensures Final(a + b, s) == Final(b, Final(a, s))
  {
    var ab := a + b;
    forall i | 0 <= i < |ab|
      ensures ab[i].cumulativeValue == Before(ab, i, s) + Delta(ab[i])
    {
      if i < |a| {
        assert ab[i] == a[i];
        assert Before(ab, i, s) == Before(a, i, s);
      } else {
        assert ab[i] == b[i - |a|];
        assert Before(ab, i, s) == Before(b, i - |a|, Final(a, s));
      }
    }
    if b != [] {
      assert ab[|ab| - 1] == b[|b| - 1];
    }
  }

  lemma {:induction false} RowPointsChained(category: string, items: seq<Item>, hasBreakdown: bool, before: int)
    ensures Chained(RowPoints(category, items, hasBreakdown, before), before)
    ensures Final(RowPoints(category, items, hasBreakdown, before), before) == before + SumItems(items)
  {
    if items != [] {
      var init := items[..|items| - 1];
      RowPointsChained(category, init, hasBreakdown, before);
      var p := RowPoint(category, items[|items| - 1], hasBreakdown, before + SumItems(items));
      ChainedConcat(RowPoints(category, init, hasBreakdown, before), [p], before);
    }
  }

  lemma GroupPointsChained(category: string, items: seq<Item>, hasBreakdown: bool, before: int)
    ensures Chained(GroupPoints(category, items, hasBreakdown, before), before)
    ensures Final(GroupPoints(category, items, hasBreakdown, before), before) == before + SumItems(items)
  {
    var rp := RowPoints(category, items, hasBreakdown, before);
    RowPointsChained(category, items, hasBreakdown, before);
    if HasSubtotal(items, hasBreakdown) {
      ChainedConcat(rp, [SubtotalPoint(category, SumItems(items), before + SumItems(items))], before);
    } else {
      assert GroupPoints(category, items, hasBreakdown, before) == rp;
    }
  }

  lemma {:induction false} WalkGroupsChained(keys: seq<string>, groups: map<string, seq<Item>>, hasBreakdown: bool, start: int)
    requires KeysMapped(keys, groups)
    ensures Chained(WalkGroups(keys, groups, hasBreakdown, start), start)
    ensures Final(WalkGroups(keys, groups, hasBreakdown, start), start) == start + SumGroups(keys, groups)
  {
    if keys != [] {
      var init, last := keys[..|keys| - 1], keys[|keys| - 1];
      WalkGroupsChained(init, groups, hasBreakdown, start);
      var before := start + SumGroups(init, groups);
      var a, b := WalkGroups(init, groups, hasBreakdown, start), GroupPoints(last, groups[last], hasBreakdown, before);
      GroupPointsChained(last, groups[last], hasBreakdown, before);
      ChainedConcat(a, b, start);
      assert WalkGroups(keys, groups, hasBreakdown, start) == a + b;
    }
  }

  /**
   * The whole waterfall is chained from the start value, and its last point
   * carries the start value plus the sum over every group.
   */
  lemma WaterfallChained(startValue: int, g: Grouped, hasBreakdown: bool, showTotal: bool)
    requires KeysMapped(g.keys, g.groups)
    ensures Chained(Waterfall(startValue, g, hasBreakdown, showTotal), startValue)
    ensures Final(Waterfall(startValue, g, hasBreakdown, showTotal), startValue) == startValue + SumGroups(g.keys, g.groups)
  {
    var walk := WalkGroups(g.keys, g.groups, hasBreakdown, startValue);
    WalkGroupsChained(g.keys, g.groups, hasBreakdown, startValue);
    ChainedConcat([StartPoint(startValue)], walk, startValue);
    var total := if showTotal then [TotalPoint(startValue + SumGroups(g.keys, g.groups))] else [];
    ChainedConcat([StartPoint(startValue)] + walk, total, startValue);
  }

  /**
   * The running total of the transformation's output starts at the start
   * value and ends at the start value plus the sum of every row's value; an
   * input without both required roles gives no points at all.
   */
  lemma RunningTotalOfRows(categories: seq<Column<string>>, values: seq<Column<int>>, showTotal: bool)
    ensures WaterfallOf(categories, values, showTotal) == [] <==> !HasRequiredColumns(categories, values)
    ensures HasRequiredColumns(categories, values) ==>
              var pts, s := WaterfallOf(categories, values, showTotal), Roles.StartValueOf(values);
              && pts[0] == StartPoint(s)
              && Chained(pts, s)
              && Final(pts, s) == s + SumRows(InputRows(categories, values))
  {
    if HasRequiredColumns(categories, values) {
      var rows := InputRows(categories, values);
      var g := GroupRows(rows);
      WaterfallChained(Roles.StartValueOf(values), g, Roles.ColumnWithRole(categories, Breakdown).Some?, showTotal);
      GroupingKeepsRows(rows);
    }
  }

  // ---------------------------------------------------------------------
  // Row points against the rows
  // ---------------------------------------------------------------------

  /** The rows the row points stand for, in order (synthesised points carry none). */
  function PointRows(pts: seq<DataPoint>): (rows: seq<Row>)
    ensures |rows| <= |pts|
  {
    if pts == [] then []
    else
      var p := pts[|pts| - 1];
      PointRows(pts[..|pts| - 1]) + (if p.IsOrdinary() then [Row(p.category, p.breakdown, p.value)] else [])
  }

  lemma {:induction false} PointRowsConcat(a: seq<DataPoint>, b: seq<DataPoint>)
    ensures PointRows(a + b) == PointRows(a) + PointRows(b)
    decreases |b|
  {
    if b != [] {
      var init := b[..|b| - 1];
      assert (a + b)[..|a + b| - 1] == a + init;
      PointRowsConcat(a, init);
    } else {
      assert a + b == a;
    }
  }

  lemma {:induction false} RowPointsRows(category: string, items: seq<Item>, hasBreakdown: bool, before: int)
    ensures PointRows(RowPoints(category, items, hasBreakdown, before)) == RowsOfGroup(category, items)
  {
    if items != [] {
      var init := items[..|items| - 1];
      RowPointsRows(category, init, hasBreakdown, before);
      var p := RowPoint(category, items[|items| - 1], hasBreakdown, before + SumItems(items));
      PointRowsConcat(RowPoints(category, init, hasBreakdown, before), [p]);
      RowsOfGroupSnoc(category, init, items[|items| - 1]);
      assert items == init + [items[|items| - 1]];
      assert PointRows([p]) == [Row(category, p.breakdown, p.value)];
    }
  }

  lemma GroupPointsRows(category: string, items: seq<Item>, hasBreakdown: bool, before: int)
    ensures PointRows(GroupPoints(category, items, hasBreakdown, before)) == RowsOfGroup(category, items)
  {
    var rp := RowPoints(category, items, hasBreakdown, before);
    RowPointsRows(category, items, hasBreakdown, before);
    if HasSubtotal(items, hasBreakdown) {
      var sub := SubtotalPoint(category, SumItems(items), before + SumItems(items));
      PointRowsConcat(rp, [sub]);
      assert PointRows([sub]) == [];
    } else {
      assert GroupPoints(category, items, hasBreakdown, before) == rp;
    }
  }

  lemma {:induction false} WalkGroupsRows(keys: seq<string>, groups: map<string, seq<Item>>, hasBreakdown: bool, start: int)
    requires KeysMapped(keys, groups)
    ensures PointRows(WalkGroups(keys, groups, hasBreakdown, start)) == Flatten(keys, groups)
  {
    if keys != [] {
      var init, last := keys[..|keys| - 1], keys[|keys| - 1];
      WalkGroupsRows(init, groups, hasBreakdown, start);
      var before := start + SumGroups(init, groups);
      GroupPointsRows(last, groups[last], hasBreakdown, before);
      PointRowsConcat(WalkGroups(init, groups, hasBreakdown, start), GroupPoints(last, groups[last], hasBreakdown, before));
    }
  }

  lemma WaterfallRows(startValue: int, g: Grouped, hasBreakdown: bool, showTotal: bool)
    requires KeysMapped(g.keys, g.groups)
    ensures PointRows(Waterfall(startValue, g, hasBreakdown, showTotal)) == Flatten(g.keys, g.groups)
  {
    var walk := WalkGroups(g.keys, g.groups, hasBreakdown, startValue);
    WalkGroupsRows(g.keys, g.groups, hasBreakdown, startValue);
    var total := if showTotal then [TotalPoint(startValue + SumGroups(g.keys, g.groups))] else [];
    PointRowsConcat([StartPoint(startValue)], walk);
    PointRowsConcat([StartPoint(startValue)] + walk, total);
    assert PointRows([StartPoint(startValue)]) == [];
    assert PointRows(total) == [];
  }

  /**
   * Read in order, the row points of the output are the groups' rows in key
   * order, and they are a permutation of the input rows: no row is lost,
   * none is duplicated.
   */
  lemma EveryRowOnce(categories: seq<Column<string>>, values: seq<Column<int>>, showTotal: bool)
    ensures var pts, rows := WaterfallOf(categories, values, showTotal), InputRows(categories, values);
            var g := GroupRows(rows);
            && PointRows(pts) == Flatten(g.keys, g.groups)
            && multiset(PointRows(pts)) == multiset(rows)
  {
    var rows := InputRows(categories, values);
    var g := GroupRows(rows);
    GroupingKeepsRows(rows);
    if HasRequiredColumns(categories, values) {
      WaterfallRows(Roles.StartValueOf(values), g, Roles.ColumnWithRole(categories, Breakdown).Some?, showTotal);
    }
  }

  // ---------------------------------------------------------------------
  // The shape of one group and the number of points
  // ---------------------------------------------------------------------

  /**
   * A row's label is "{category} - {breakdown}" when breakdown labels are
   * bound and the row's breakdown is non-empty, and the bare category
   * otherwise.
   */
  lemma RowLabelShape(category: string, breakdown: string, hasBreakdown: bool)
    ensures hasBreakdown && breakdown != "" ==> RowLabel(category, breakdown, hasBreakdown) == category + " - " + breakdown
    ensures RowLabel(category, breakdown, hasBreakdown) == category <==> !hasBreakdown || breakdown == ""
  {
  }

  /**
   * A group's points, by position: row j carries the running total after the
   * first j + 1 items; the subtotal, when there is one, comes right after the
   * last row with the group's sum and the same running total.
   */
  lemma {:induction false} GroupPointsShape(category: string, items: seq<Item>, hasBreakdown: bool, before: int)
    ensures var gp := GroupPoints(category, items, hasBreakdown, before);
            && |gp| == |items| + (if HasSubtotal(items, hasBreakdown) then 1 else 0)
            && (forall j :: 0 <= j < |items| ==>
                  gp[j] == RowPoint(category, items[j], hasBreakdown, before + SumItems(items[..j + 1])))
            && (HasSubtotal(items, hasBreakdown) ==>
                  gp[|items|] == SubtotalPoint(category, SumItems(items), before + SumItems(items)))
  {
    RowPointsShape(category, items, hasBreakdown, before);
  }

  lemma {:induction false} RowPointsShape(category: string, items: seq<Item>, hasBreakdown: bool, before: int)
    ensures forall j :: 0 <= j < |items| ==>
              RowPoints(category, items, hasBreakdown, before)[j]
              == RowPoint(category, items[j], hasBreakdown, before + SumItems(items[..j + 1]))
  {
    if items != [] {
      var init := items[..|items| - 1];
      RowPointsShape(category, init, hasBreakdown, before);
      var rp := RowPoints(category, items, hasBreakdown, before);
      forall j | 0 <= j < |items|
        ensures rp[j] == RowPoint(category, items[j], hasBreakdown, before + SumItems(items[..j + 1]))
      {
        if j < |init| {
          assert items[..j + 1] == init[..j + 1];
        } else {
          assert items[..j + 1] == items;
        }
      }
    }
  }

  /** The number of groups closed by a subtotal. */
  function SubtotalCount(keys: seq<string>, groups: map<string, seq<Item>>, hasBreakdown: bool): nat
    requires KeysMapped(keys, groups)
  {
    if keys == [] then 0
    else
      SubtotalCount(keys[..|keys| - 1], groups, hasBreakdown)
      + (if HasSubtotal(groups[keys[|keys| - 1]], hasBreakdown) then 1 else 0)
  }

  lemma {:induction false} WalkGroupsLength(keys: seq<string>, groups: map<string, seq<Item>>, hasBreakdown: bool, start: int)
    requires KeysMapped(keys, groups)
    ensures |WalkGroups(keys, groups, hasBreakdown, start)| == |Flatten(keys, groups)| + SubtotalCount(keys, groups, hasBreakdown)
  {
    if keys != [] {
      var init, last := keys[..|keys| - 1], keys[|keys| - 1];
      WalkGroupsLength(init, groups, hasBreakdown, start);
      GroupPointsShape(last, groups[last], hasBreakdown, start + SumGroups(init, groups));
    }
  }

  /**
   * The output has one Start point, one point per input row, one subtotal per
   * group closed by one, and one Total point when requested.
   */
  lemma PointCount(categories: seq<Column<string>>, values: seq<Column<int>>, showTotal: bool)
    requires HasRequiredColumns(categories, values)
    ensures var g := GroupRows(InputRows(categories, values));
            |WaterfallOf(categories, values, showTotal)|
            == 1 + |InputRows(categories, values)|
               + SubtotalCount(g.keys, g.groups, Roles.ColumnWithRole(categories, Breakdown).Some?)
               + (if showTotal then 1 else 0)
  {
    var rows := InputRows(categories, values);
    var g := GroupRows(rows);
    GroupingKeepsRows(rows);
    WalkGroupsLength(g.keys, g.groups, Roles.ColumnWithRole(categories, Breakdown).Some?, Roles.StartValueOf(values));
  }

  // ---------------------------------------------------------------------
  // Where the synthesised points sit
  // ---------------------------------------------------------------------

  /** No Start or Total point, and never two flags on one point. */
  predicate InnerPoints(pts: seq<DataPoint>) {
    forall i :: 0 <= i < |pts| ==> !pts[i].isStart && !pts[i].isTotal && pts[i].AtMostOneFlag()
  }

  predicate SubtotalAt(pts: seq<DataPoint>, i: nat) {
    i < |pts| && pts[i].isSubtotal
  }

  /** Every subtotal comes right after a row point of its category carrying the same running total. */
  predicate SubtotalsCloseRows(pts: seq<DataPoint>) {
    forall i :: 0 <= i < |pts| && SubtotalAt(pts, i) ==>
      && 0 < i
      && pts[i - 1].IsOrdinary()
      && pts[i - 1].category == pts[i].category
      && pts[i - 1].cumulativeValue == pts[i].cumulativeValue
  }

  lemma InnerConcat(a: seq<DataPoint>, b: seq<DataPoint>)
    requires InnerPoints(a) && InnerPoints(b)
    requires SubtotalsCloseRows(a) && SubtotalsCloseRows(b)
    ensures InnerPoints(a + b) && SubtotalsCloseRows(a + b)
  {
    var ab := a + b;
    forall i | 0 <= i < |ab|
      ensures !ab[i].isStart && !ab[i].isTotal && ab[i].AtMostOneFlag()
    {
      if i < |a| { assert ab[i] == a[i]; } else { assert ab[i] == b[i - |a|]; }
    }
    forall i | 0 <= i < |ab| && SubtotalAt(ab, i)
      ensures 0 < i && ab[i - 1].IsOrdinary() && ab[i - 1].category == ab[i].category
              && ab[i - 1].cumulativeValue == ab[i].cumulativeValue
    {
      if i < |a| {
        assert ab[i] == a[i] && SubtotalAt(a, i);
        assert ab[i - 1] == a[i - 1];
      } else {
        assert ab[i] == b[i - |a|] && SubtotalAt(b, i - |a|);
        assert ab[i - 1] == b[i - |a| - 1];
      }
    }
  }

  lemma GroupPointsInner(category: string, items: seq<Item>, hasBreakdown: bool, before: int)
    ensures InnerPoints(GroupPoints(category, items, hasBreakdown, before))
    ensures SubtotalsCloseRows(GroupPoints(category, items, hasBreakdown, before))
  {
    GroupPointsShape(category, items, hasBreakdown, before);
    var gp := GroupPoints(category, items, hasBreakdown, before);
    if HasSubtotal(items, hasBreakdown) {
      assert items[..|items| - 1 + 1] == items;
    }
  }

  lemma {:induction false} WalkGroupsInner(keys: seq<string>, groups: map<string, seq<Item>>, hasBreakdown: bool, start: int)
    requires KeysMapped(keys, groups)
    ensures InnerPoints(WalkGroups(keys, groups, hasBreakdown, start))
    ensures SubtotalsCloseRows(WalkGroups(keys, groups, hasBreakdown, start))
  {
    if keys != [] {
      var init, last := keys[..|keys| - 1], keys[|keys| - 1];
      WalkGroupsInner(init, groups, hasBreakdown, start);
      var before := start + SumGroups(init, groups);
      GroupPointsInner(last, groups[last], hasBreakdown, before);
      InnerConcat(WalkGroups(init, groups, hasBreakdown, start), GroupPoints(last, groups[last], hasBreakdown, before));
    }
  }

  /**
   * The Start point comes first and nowhere else; the Total point comes last
   * exactly when it is requested and nowhere else; no point carries two
   * flags; every subtotal closes a run of rows of its own category.
   */
  lemma WaterfallLayout(startValue: int, g: Grouped, hasBreakdown: bool, showTotal: bool)
    requires KeysMapped(g.keys, g.groups)
    ensures var pts := Waterfall(startValue, g, hasBreakdown, showTotal);
            && pts[0] == StartPoint(startValue)
            && (forall i :: 0 < i < |pts| ==> !pts[i].isStart)
            && (pts[|pts| - 1].isTotal <==> showTotal)
            && (forall i :: 0 <= i < |pts| - 1 ==> !pts[i].isTotal)
            && (showTotal ==> pts[|pts| - 1] == TotalPoint(startValue + SumGroups(g.keys, g.groups)))
            && (forall i :: 0 <= i < |pts| ==> pts[i].AtMostOneFlag())
            && SubtotalsCloseRows(pts)
  {
    var walk := WalkGroups(g.keys, g.groups, hasBreakdown, startValue);
    WalkGroupsInner(g.keys, g.groups, hasBreakdown, startValue);
    var pts := Waterfall(startValue, g, hasBreakdown, showTotal);
    var head := [StartPoint(startValue)] + walk;
    assert forall i :: 0 < i < |head| ==> head[i] == walk[i - 1];
    if showTotal {
      assert pts == head + [TotalPoint(startValue + SumGroups(g.keys, g.groups))];
      assert forall i :: 0 <= i < |head| ==> pts[i] == head[i];
    } else {
      assert pts == head;
    }
    forall i | 0 <= i < |pts| && SubtotalAt(pts, i)
      ensures 0 < i && pts[i - 1].IsOrdinary() && pts[i - 1].category == pts[i].category
              && pts[i - 1].cumulativeValue == pts[i].cumulativeValue
    {
      assert pts[0] == StartPoint(startValue);
      assert pts[i] == walk[i - 1] && SubtotalAt(walk, i - 1);
      assert pts[i - 1] == walk[i - 2];
    }
  }
}
