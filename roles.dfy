/**
 * Role lookup: which value column holds the start value and the main values,
 * and which category columns hold the category labels and the breakdown
 * labels (src/visual.ts, processWaterfallData, the two scans at its top).
 * When several columns carry the same role, the scan keeps overwriting, so
 * the last such column wins.
 */
module Roles {
  import opened WaterfallTypes

  /** The index of the last column bound to `role`, if any column is. */
  function LastWithRole<T>(cols: seq<Column<T>>, role: Role): (r: Option<nat>)
    ensures r.None? <==> forall i :: 0 <= i < |cols| ==> role !in cols[i].roles
    ensures r.Some? ==>
              && r.value < |cols|
              && role in cols[r.value].roles
              && forall j :: r.value < j < |cols| ==> role !in cols[j].roles
  {
    if cols == [] then None
    else if role in cols[|cols| - 1].roles then Some(|cols| - 1)
    else LastWithRole(cols[..|cols| - 1], role)
  }

  /** The column the scan settles on for `role`. */
  function ColumnWithRole<T>(cols: seq<Column<T>>, role: Role): Option<Column<T>> {
    match LastWithRole(cols, role)
    case None => None
    case Some(i) => Some(cols[i])
  }

  /** `values[0] || 0`: the first cell, with an empty or zero cell giving 0. */
  function FirstCellOrZero(cells: seq<Option<int>>): int {
    CellAt(cells, 0).GetOr(0)
  }

  /** The start value: first cell of the last start-value column, else 0. */
  function StartValueOf(values: seq<Column<int>>): int {
    match ColumnWithRole(values, StartValue)
    case None => 0
    case Some(c) => FirstCellOrZero(c.cells)
  }

  /**
   * The scan of the value columns. Each column may set the start value and
   * the main values; a later column bound to the same role overrides.
   */
  method ScanValueColumns(values: seq<Column<int>>) returns (startValue: int, mainValues: Option<Column<int>>)
    ensures startValue == StartValueOf(values)
    ensures mainValues == ColumnWithRole(values, Value)
    ensures mainValues.None? <==> forall i :: 0 <= i < |values| ==> Value !in values[i].roles
  {
    startValue := 0;
    mainValues := None;
    for i := 0 to |values|
      invariant startValue == StartValueOf(values[..i])
      invariant mainValues == ColumnWithRole(values[..i], Value)
    {
      assert values[..i + 1][..i] == values[..i];
      if StartValue in values[i].roles {
        startValue := FirstCellOrZero(values[i].cells);
      }
      if Value in values[i].roles {
        mainValues := Some(values[i]);
      }
    }
    assert values[..|values|] == values;
  }

  /**
   * The scan of the category columns, for the category labels and the
   * optional breakdown labels; again the last column with a role wins.
   */
  method ScanCategoryColumns(categories: seq<Column<string>>)
    returns (categoryData: Option<Column<string>>, breakdownData: Option<Column<string>>)
    ensures categoryData == ColumnWithRole(categories, Category)
    ensures breakdownData == ColumnWithRole(categories, Breakdown)
    ensures categoryData.None? <==> forall i :: 0 <= i < |categories| ==> Category !in categories[i].roles
    ensures breakdownData.None? <==> forall i :: 0 <= i < |categories| ==> Breakdown !in categories[i].roles
  {
    categoryData := None;
    breakdownData := None;
    for i := 0 to |categories|
      invariant categoryData == ColumnWithRole(categories[..i], Category)
      invariant breakdownData == ColumnWithRole(categories[..i], Breakdown)
    {
      assert categories[..i + 1][..i] == categories[..i];
      if Category in categories[i].roles {
        categoryData := Some(categories[i]);
      }
      if Breakdown in categories[i].roles {
        breakdownData := Some(categories[i]);
      }
    }
    assert categories[..|categories|] == categories;
  }

  /**
   * When several value columns are bound to the start-value role, the start
   * value comes from the last of them; when none is, it is 0.
   */
  lemma StartValueFromLastColumn(values: seq<Column<int>>, i: nat)
    requires i < |values| && StartValue in values[i].roles
    requires forall j :: i < j < |values| ==> StartValue !in values[j].roles
    ensures StartValueOf(values) == CellAt(values[i].cells, 0).GetOr(0)
  {
  }

  lemma StartValueWithoutColumn(values: seq<Column<int>>)
    requires forall j :: 0 <= j < |values| ==> StartValue !in values[j].roles
    ensures StartValueOf(values) == 0
  {
  }
}
