/**
 * The waterfall transformation (src/visual.ts, processWaterfallData): a Start
 * point, then for each category group its row points with a running total,
 * then a subtotal point when the group has several rows and breakdown labels
 * are bound, and finally an optional Total point.
 */
module Transform {
  import opened WaterfallTypes
  import opened Grouping
  import Roles

  function StartPoint(startValue: int): DataPoint {
    DataPoint("Start", "", startValue, startValue, false, true, false, "Start")
  }

  /** "{category} - {breakdown}" when breakdown labels are bound and non-empty. */
  function RowLabel(category: string, breakdown: string, hasBreakdown: bool): string {
    if hasBreakdown && breakdown != "" then category + " - " + breakdown else category
  }

  function RowPoint(category: string, item: Item, hasBreakdown: bool, cumulative: int): DataPoint {
    DataPoint(category, item.breakdown, item.value, cumulative, false, false, false,
              RowLabel(category, item.breakdown, hasBreakdown))
  }

  function SubtotalPoint(category: string, total: int, cumulative: int): DataPoint {
    DataPoint(category, "", total, cumulative, false, false, true, category + " Subtotal")
  }

  function TotalPoint(total: int): DataPoint {
    DataPoint("Total", "", total, total, true, false, false, "Total")
  }

  /** A group is closed by a subtotal when it has several rows and breakdowns are bound. */
  predicate HasSubtotal(items: seq<Item>, hasBreakdown: bool) {
    |items| > 1 && hasBreakdown
  }

  /** The points of one group's rows, each carrying the running total after it. */
  function RowPoints(category: string, items: seq<Item>, hasBreakdown: bool, before: int): (pts: seq<DataPoint>)
    ensures |pts| == |items|
  {
    if items == [] then []
    else
      RowPoints(category, items[..|items| - 1], hasBreakdown, before)
      + [RowPoint(category, items[|items| - 1], hasBreakdown, before + SumItems(items))]
  }

  /** The points one category group contributes, starting from running total `before`. */
  function GroupPoints(category: string, items: seq<Item>, hasBreakdown: bool, before: int): seq<DataPoint> {
    RowPoints(category, items, hasBreakdown, before)
    + (if HasSubtotal(items, hasBreakdown)
       then [SubtotalPoint(category, SumItems(items), before + SumItems(items))]
       else [])
  }

  /** The walk over the groups in key order, starting from running total `start`. */
  function WalkGroups(keys: seq<string>, groups: map<string, seq<Item>>, hasBreakdown: bool, start: int): seq<DataPoint>
    requires KeysMapped(keys, groups)
  {
    if keys == [] then []
    else
      var init, last := keys[..|keys| - 1], keys[|keys| - 1];
      WalkGroups(init, groups, hasBreakdown, start)
      + GroupPoints(last, groups[last], hasBreakdown, start + SumGroups(init, groups))
  }

  function Waterfall(startValue: int, g: Grouped, hasBreakdown: bool, showTotal: bool): seq<DataPoint>
    requires KeysMapped(g.keys, g.groups)
  {
    [StartPoint(startValue)]
    + WalkGroups(g.keys, g.groups, hasBreakdown, startValue)
    + (if showTotal then [TotalPoint(startValue + SumGroups(g.keys, g.groups))] else [])
  }

  /** Both required roles are bound: a value column and a category column. */
  predicate HasRequiredColumns(categories: seq<Column<string>>, values: seq<Column<int>>) {
    Roles.ColumnWithRole(values, Value).Some? && Roles.ColumnWithRole(categories, Category).Some?
  }

  /** The normalised rows of the bound columns (none when a required role is unbound). */
  function InputRows(categories: seq<Column<string>>, values: seq<Column<int>>): seq<Row> {
    if HasRequiredColumns(categories, values) then
      Rows(Roles.ColumnWithRole(categories, Category).value,
           Roles.ColumnWithRole(categories, Breakdown),
           Roles.ColumnWithRole(values, Value).value)
    else []
  }

  /** What processWaterfallData returns for the given columns. */
  function WaterfallOf(categories: seq<Column<string>>, values: seq<Column<int>>, showTotal: bool): seq<DataPoint> {
    if HasRequiredColumns(categories, values) then
      Waterfall(Roles.StartValueOf(values), GroupRows(InputRows(categories, values)),
                Roles.ColumnWithRole(categories, Breakdown).Some?, showTotal)
    else []
  }

  /** The transformation loop, pushing points and keeping running and group totals. */
  method ProcessWaterfallData(categories: seq<Column<string>>, values: seq<Column<int>>, showTotal: bool)
    returns (dataPoints: seq<DataPoint>)
    ensures dataPoints == WaterfallOf(categories, values, showTotal)
  {
    dataPoints := [];
    var startValue, mainValues := Roles.ScanValueColumns(values);
    if mainValues.None? {
      assert !HasRequiredColumns(categories, values);
      return;
    }
    var categoryData, breakdownData := Roles.ScanCategoryColumns(categories);
    if categoryData.None? {
      assert !HasRequiredColumns(categories, values);
      return;
    }

    var grouped := GroupDataByCategoryAndBreakdown(categoryData.value, breakdownData, mainValues.value);
    assert HasRequiredColumns(categories, values);
    assert grouped == GroupRows(InputRows(categories, values));
    dataPoints := EmitWaterfall(startValue, grouped, breakdownData.Some?, showTotal);
  }

  /**
   * The body of the transformation once the inputs are grouped: the Start
   * point, the loop over the groups, and the optional Total point carrying
   * the final running total.
   */
  method EmitWaterfall(startValue: int, grouped: Grouped, hasBreakdown: bool, showTotal: bool)
    returns (dataPoints: seq<DataPoint>)
    requires KeysMapped(grouped.keys, grouped.groups)
    ensures dataPoints == Waterfall(startValue, grouped, hasBreakdown, showTotal)
  {
    var runningTotal;
    dataPoints, runningTotal := EmitGroups(grouped.keys, grouped.groups, hasBreakdown, [StartPoint(startValue)], startValue);
    if showTotal {
      dataPoints := dataPoints + [TotalPoint(runningTotal)];
    } else {
      assert dataPoints + [] == dataPoints;
    }
  }

  /** The loop over the groups in key order, carrying the running total. */
  method EmitGroups(keys: seq<string>, groups: map<string, seq<Item>>, hasBreakdown: bool,
                    dataPoints0: seq<DataPoint>, startValue: int)
    returns (dataPoints: seq<DataPoint>, runningTotal: int)
    requires KeysMapped(keys, groups)
    ensures runningTotal == startValue + SumGroups(keys, groups)
    ensures dataPoints == dataPoints0 + WalkGroups(keys, groups, hasBreakdown, startValue)
  {
    dataPoints, runningTotal := dataPoints0, startValue;
    for k := 0 to |keys|
      invariant KeysMapped(keys[..k], groups)
      invariant runningTotal == startValue + SumGroups(keys[..k], groups)
      invariant dataPoints == dataPoints0 + WalkGroups(keys[..k], groups, hasBreakdown, startValue)
    {
      WalkGroupsStep(keys, groups, hasBreakdown, startValue, k, runningTotal);
      dataPoints, runningTotal := EmitGroup(keys[k], groups[keys[k]], hasBreakdown, dataPoints, runningTotal);
      AppendAssoc(dataPoints0, WalkGroups(keys[..k], groups, hasBreakdown, startValue),
                  GroupPoints(keys[k], groups[keys[k]], hasBreakdown, runningTotal - SumItems(groups[keys[k]])));
    }
    assert keys[..|keys|] == keys;
  }

  /**
   * One pass of the loop over the groups: the group's row points, each with
   * the running total after it, then its subtotal when it has one.
   */
  method EmitGroup(categoryName: string, categoryItems: seq<Item>, hasBreakdown: bool,
                   dataPoints0: seq<DataPoint>, runningTotal0: int)
    returns (dataPoints: seq<DataPoint>, runningTotal: int)
    ensures runningTotal == runningTotal0 + SumItems(categoryItems)
    ensures dataPoints == dataPoints0 + GroupPoints(categoryName, categoryItems, hasBreakdown, runningTotal0)
  {
    dataPoints, runningTotal := dataPoints0, runningTotal0;
    var categoryTotal := 0;
    for j := 0 to |categoryItems|
      invariant categoryTotal == SumItems(categoryItems[..j])
      invariant runningTotal == runningTotal0 + categoryTotal
      invariant dataPoints == dataPoints0 + RowPoints(categoryName, categoryItems[..j], hasBreakdown, runningTotal0)
    {
      var item := categoryItems[j];
      runningTotal := runningTotal + item.value;
      categoryTotal := categoryTotal + item.value;
      RowPointsStep(categoryName, categoryItems, hasBreakdown, runningTotal0, j);
      AppendAssoc(dataPoints0, RowPoints(categoryName, categoryItems[..j], hasBreakdown, runningTotal0),
                  [RowPoint(categoryName, item, hasBreakdown, runningTotal)]);
      dataPoints := dataPoints + [RowPoint(categoryName, item, hasBreakdown, runningTotal)];
    }
    assert categoryItems[..|categoryItems|] == categoryItems;

    if |categoryItems| > 1 && hasBreakdown {
      AppendAssoc(dataPoints0, RowPoints(categoryName, categoryItems, hasBreakdown, runningTotal0),
                  [SubtotalPoint(categoryName, categoryTotal, runningTotal)]);
      dataPoints := dataPoints + [SubtotalPoint(categoryName, categoryTotal, runningTotal)];
    } else {
      assert RowPoints(categoryName, categoryItems, hasBreakdown, runningTotal0) + []
             == RowPoints(categoryName, categoryItems, hasBreakdown, runningTotal0);
    }
  }

  lemma RowPointsStep(category: string, items: seq<Item>, hasBreakdown: bool, before: int, j: nat)
    requires j < |items|
    ensures SumItems(items[..j + 1]) == SumItems(items[..j]) + items[j].value
    ensures RowPoints(category, items[..j + 1], hasBreakdown, before)
            == RowPoints(category, items[..j], hasBreakdown, before)
               + [RowPoint(category, items[j], hasBreakdown, before + SumItems(items[..j + 1]))]
  {
    assert items[..j + 1][..j] == items[..j];
  }

  lemma WalkGroupsStep(keys: seq<string>, groups: map<string, seq<Item>>, hasBreakdown: bool, start: int, k: nat, before: int)
    requires k < |keys| && KeysMapped(keys, groups)
    requires before == start + SumGroups(keys[..k], groups)
    ensures SumGroups(keys[..k + 1], groups) == SumGroups(keys[..k], groups) + SumItems(groups[keys[k]])
    ensures WalkGroups(keys[..k + 1], groups, hasBreakdown, start)
            == WalkGroups(keys[..k], groups, hasBreakdown, start)
               + GroupPoints(keys[k], groups[keys[k]], hasBreakdown, before)
    ensures KeysMapped(keys[..k], groups) && KeysMapped(keys[..k + 1], groups)
  {
    assert keys[..k + 1][..k] == keys[..k];
  }

  lemma AppendAssoc<T>(a: seq<T>, b: seq<T>, c: seq<T>)
    ensures (a + b) + c == a + (b + c)
  {
  }
}
