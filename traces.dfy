/**
 * The mapping of waterfall points to stacked single-category bars
 * (src/visual.ts, createPlotlyTraces): one bar per point, in order, with its
 * base, height, colour, opacity, outside text and hover text.
 *
 * Start and Total bars rise from 0 to the point's value, subtotal bars from
 * 0 to the running total; a row's bar spans the change it makes to the
 * running total, coloured by its sign.
 */
module Traces {
  import opened WaterfallTypes
  import opened Numerals
  import opened TransformProperties
  import Transform
  import Grouping
  import Roles

  const SubtotalOpacity: real := 0.7
  const FullOpacity: real := 1.0

  /** A point drawn in the total colour: Start, Total or a subtotal. */
  predicate IsSpecial(p: DataPoint) {
    p.isStart || p.isTotal || p.isSubtotal
  }

  /**
   * The start of a rising row's bar as the source computes it: the previous
   * point's cumulative value minus the point's own value, or 0 at the front
   * (see PositiveBarCounterexample).
   */
  function PreviousCumulative(points: seq<DataPoint>, i: nat): int
    requires i < |points|
  {
    if i > 0 then points[i - 1].cumulativeValue - points[i].value else 0
  }

  /** The start the comment beside that computation describes: the previous running total. */
  function IntendedPreviousCumulative(points: seq<DataPoint>, i: nat): int
    requires i < |points|
  {
    if i > 0 then points[i - 1].cumulativeValue else 0
  }

  /** `value.toFixed(1)`, with a '+' before non-negative changes; running totals for special points. */
  function TextFor(p: DataPoint): string {
    if IsSpecial(p) then ToFixed(p.cumulativeValue, 1)
    else if p.value >= 0 then "+" + ToFixed(p.value, 1)
    else ToFixed(p.value, 1)
  }

  /** The hover template: label, value and running total to two decimals, and the breakdown when there is one. */
  function HoverFor(p: DataPoint): string {
    "<b>" + p.displayLabel + "</b><br>"
    + "Value: " + ToFixed(p.value, 2) + "<br>"
    + "Cumulative: " + ToFixed(p.cumulativeValue, 2) + "<br>"
    + (if p.breakdown != "" then "Breakdown: " + p.breakdown + "<br>" else "")
    + "<extra></extra>"
  }

  /** The bar for point `p` when a row's bar starts from `previousCumulative`. */
  function BarWith(p: DataPoint, previousCumulative: int, colors: Colors): Bar {
    var opacity := if p.isSubtotal then SubtotalOpacity else FullOpacity;
    if p.isStart || p.isTotal then
      Bar(p.displayLabel, p.value, 0, colors.total, opacity, p.displayLabel, TextFor(p), HoverFor(p))
    else if p.isSubtotal then
      Bar(p.displayLabel, p.cumulativeValue, 0, colors.total, opacity, p.displayLabel, TextFor(p), HoverFor(p))
    else if p.value >= 0 then
      Bar(p.displayLabel, p.value, previousCumulative, colors.positive, opacity, p.displayLabel, TextFor(p), HoverFor(p))
    else
      Bar(p.displayLabel, -p.value, p.cumulativeValue, colors.negative, opacity, p.displayLabel, TextFor(p), HoverFor(p))
  }

  /** The bar the source draws for point `i`. */
  function BarOf(points: seq<DataPoint>, i: nat, colors: Colors): Bar
    requires i < |points|
  {
    BarWith(points[i], PreviousCumulative(points, i), colors)
  }

  /** The bar for point `i` with a rising row's bar starting from the previous running total. */
  function IntendedBarOf(points: seq<DataPoint>, i: nat, colors: Colors): Bar
    requires i < |points|
  {
    BarWith(points[i], IntendedPreviousCumulative(points, i), colors)
  }

  /** The trace loop: one bar per point, in order. */
  method CreatePlotlyTraces(points: seq<DataPoint>, colors: Colors) returns (traces: seq<Bar>)
    ensures |traces| == |points|
    ensures forall i :: 0 <= i < |points| ==> traces[i] == BarOf(points, i, colors)
  {
    traces := [];
    for i := 0 to |points|
      invariant |traces| == i
      invariant forall j :: 0 <= j < i ==> traces[j] == BarOf(points, j, colors)
    {
      var bar := TraceOf(points, i, colors);
      traces := traces + [bar];
    }
  }

  /** One pass of the trace loop: the colour, base and height for point `i`. */
  method TraceOf(points: seq<DataPoint>, i: nat, colors: Colors) returns (bar: Bar)
    requires i < |points|
    ensures bar == BarOf(points, i, colors)
  {
    var point := points[i];
    var color: string;
    var base: int := 0;
    var barValue: int := point.value;
    if point.isStart || point.isTotal {
      color := colors.total;
      base := 0;
      barValue := point.value;
    } else if point.isSubtotal {
      color := colors.total;
      base := 0;
      barValue := point.cumulativeValue;
    } else {
      color := if point.value >= 0 then colors.positive else colors.negative;
      var previousCumulative := if i > 0 then points[i - 1].cumulativeValue - point.value else 0;
      if point.value >= 0 {
        base := previousCumulative;
        barValue := point.value;
      } else {
        base := point.cumulativeValue;
        barValue := -point.value;
      }
    }
    var opacity := if point.isSubtotal then SubtotalOpacity else FullOpacity;
    bar := Bar(point.displayLabel, barValue, base, color, opacity, point.displayLabel, TextFor(point), HoverFor(point));
  }

  // ---------------------------------------------------------------------
  // Geometry of the bars
  // ---------------------------------------------------------------------

  /**
   * In a chained sequence every row's bar has a non-negative height, its top
   * at the previous point's running total, and the colour of its change's
   * sign; it is opaque.
   */
  lemma RowBarTopsAtPrevious(points: seq<DataPoint>, s: int, i: nat, colors: Colors)
    requires Chained(points, s)
    requires 0 < i < |points| && points[i].IsOrdinary()
    ensures var b := BarOf(points, i, colors);
            && b.y >= 0
            && b.base + b.y == points[i - 1].cumulativeValue
            && b.color == (if points[i].value >= 0 then colors.positive else colors.negative)
            && b.opacity == FullOpacity
  {
    assert points[i].cumulativeValue == Before(points, i, s) + Delta(points[i]);
  }

  /**
   * Start and Total bars rise from 0 to the point's value and subtotal bars
   * from 0 to the running total, all in the total colour; only subtotals are
   * translucent.
   */
  lemma SpecialBarsFromZero(points: seq<DataPoint>, i: nat, colors: Colors)
    requires i < |points| && IsSpecial(points[i])
    ensures var b := BarOf(points, i, colors);
            && b.base == 0
            && b.color == colors.total
            && (points[i].isStart || points[i].isTotal ==> b.y == points[i].value)
            && (!points[i].isStart && !points[i].isTotal ==> b.y == points[i].cumulativeValue)
            && (b.opacity == SubtotalOpacity <==> points[i].isSubtotal)
  {
  }

  /**
   * The bars of a waterfall: the first rises from 0 to the start value;
   * every row's bar has a non-negative height with its top at the previous
   * running total; a subtotal's bar rises from 0 to the running total it
   * closes; with the total requested the last bar rises from 0 to the start
   * value plus the sum over every group.
   */
  lemma WaterfallBarsShape(startValue: int, g: Grouping.Grouped, hasBreakdown: bool, showTotal: bool, colors: Colors)
    requires Grouping.KeysMapped(g.keys, g.groups)
    ensures var pts := Transform.Waterfall(startValue, g, hasBreakdown, showTotal);
            && BarOf(pts, 0, colors).base == 0 && BarOf(pts, 0, colors).y == startValue
            && (forall i :: 0 < i < |pts| && pts[i].IsOrdinary() ==>
                  BarOf(pts, i, colors).y >= 0
                  && BarOf(pts, i, colors).base + BarOf(pts, i, colors).y == pts[i - 1].cumulativeValue)
            && (forall i :: 0 < i < |pts| && pts[i].isSubtotal ==>
                  BarOf(pts, i, colors).base == 0 && BarOf(pts, i, colors).y == pts[i - 1].cumulativeValue)
            && (showTotal ==>
                  BarOf(pts, |pts| - 1, colors).base == 0
                  && BarOf(pts, |pts| - 1, colors).y == startValue + Grouping.SumGroups(g.keys, g.groups))
  {
    var pts := Transform.Waterfall(startValue, g, hasBreakdown, showTotal);
    WaterfallChained(startValue, g, hasBreakdown, showTotal);
    WaterfallLayout(startValue, g, hasBreakdown, showTotal);
    forall i | 0 < i < |pts| && pts[i].IsOrdinary()
      ensures BarOf(pts, i, colors).y >= 0
      ensures BarOf(pts, i, colors).base + BarOf(pts, i, colors).y == pts[i - 1].cumulativeValue
    {
      RowBarTopsAtPrevious(pts, startValue, i, colors);
    }
    forall i | 0 < i < |pts| && pts[i].isSubtotal
      ensures BarOf(pts, i, colors).base == 0 && BarOf(pts, i, colors).y == pts[i - 1].cumulativeValue
    {
      assert SubtotalAt(pts, i);
    }
  }

  /**
   * On the transformation's output, the Total bar (when requested) rises
   * from 0 to the start value plus the sum of every row's value.
   */
  lemma TotalBarOfRows(categories: seq<Column<string>>, values: seq<Column<int>>, showTotal: bool, colors: Colors)
    requires Transform.HasRequiredColumns(categories, values) && showTotal
    ensures var pts := Transform.WaterfallOf(categories, values, showTotal);
            && BarOf(pts, |pts| - 1, colors).base == 0
            && BarOf(pts, |pts| - 1, colors).y
               == Roles.StartValueOf(values) + Grouping.SumRows(Transform.InputRows(categories, values))
  {
    var rows := Transform.InputRows(categories, values);
    Grouping.GroupingKeepsRows(rows);
    WaterfallBarsShape(Roles.StartValueOf(values), Grouping.GroupRows(rows),
                       Roles.ColumnWithRole(categories, Breakdown).Some?, showTotal, colors);
  }

  /**
   * A start of 0 followed by one row of +10: the source draws the row's bar
   * from -10 to 0 instead of from 0 to 10.
   */
  lemma PositiveBarCounterexample()
    ensures var pts := [Transform.StartPoint(0), Transform.RowPoint("A", Item("", 10), false, 10)];
            var c := Colors("#2E8B57", "#DC143C", "#4682B4");
            && BarOf(pts, 1, c).base == -10 && BarOf(pts, 1, c).y == 10
            && IntendedBarOf(pts, 1, c).base == 0 && IntendedBarOf(pts, 1, c).y == 10
  {
  }

  function Min(a: int, b: int): int { if a <= b then a else b }
  function Max(a: int, b: int): int { if a <= b then b else a }

  /**
   * With the intended start, a row's bar spans exactly the step of the
   * running total it causes, from the previous point's cumulative value to
   * its own, whichever its sign.
   */
  lemma IntendedRowBarSpansStep(points: seq<DataPoint>, s: int, i: nat, colors: Colors)
    requires Chained(points, s)
    requires 0 < i < |points| && points[i].IsOrdinary()
    ensures var b, before, after := IntendedBarOf(points, i, colors), points[i - 1].cumulativeValue, points[i].cumulativeValue;
            && b.y >= 0
            && b.base == Min(before, after)
            && b.base + b.y == Max(before, after)
  {
    assert points[i].cumulativeValue == Before(points, i, s) + Delta(points[i]);
  }

  /**
   * As written, only falling rows get that span: a rising row's bar differs
   * from the intended one exactly when it rises by a positive amount.
   */
  lemma AsWrittenMatchesIntendedUnlessRising(points: seq<DataPoint>, s: int, i: nat, colors: Colors)
    requires Chained(points, s)
    requires 0 < i < |points| && points[i].IsOrdinary()
    ensures BarOf(points, i, colors) == IntendedBarOf(points, i, colors) <==> points[i].value <= 0
  {
    assert points[i].cumulativeValue == Before(points, i, s) + Delta(points[i]);
  }

  // ---------------------------------------------------------------------
  // Text annotations
  // ---------------------------------------------------------------------
  /**
   * A row's annotation is signed: it starts with '+' exactly for a
   * non-negative change and with '-' exactly for a negative one.
   */
  lemma RowTextSigned(p: DataPoint)
    requires !IsSpecial(p)
    ensures |TextFor(p)| > 0
    ensures TextFor(p)[0] == '+' <==> p.value >= 0
    ensures TextFor(p)[0] == '-' <==> p.value < 0
  {
  }

  /** The hover text carries a breakdown line exactly when the point has a non-empty breakdown. */
  lemma HoverBreakdownLine(p: DataPoint)
    ensures var h0 := HoverFor(p.(breakdown := ""));
            var n := |h0| - |"<extra></extra>"|;
            && 0 <= n
            && HoverFor(p) == h0[..n]
                              + (if p.breakdown != "" then "Breakdown: " + p.breakdown + "<br>" else "")
                              + "<extra></extra>"
  {
  }

  /**
   * On whole-number values, annotations tell values apart: two rows show the
   * same text exactly when their changes are equal, and two special points
   * exactly when their running totals are.
   */
  lemma TextDeterminesValue(p: DataPoint, q: DataPoint)
    ensures !IsSpecial(p) && !IsSpecial(q) ==> (TextFor(p) == TextFor(q) <==> p.value == q.value)
    ensures IsSpecial(p) && IsSpecial(q) ==> (TextFor(p) == TextFor(q) <==> p.cumulativeValue == q.cumulativeValue)
  {
    ToFixedInjective(p.cumulativeValue, q.cumulativeValue, 1);
    ToFixedInjective(p.value, q.value, 1);
    if !IsSpecial(p) && !IsSpecial(q) && TextFor(p) == TextFor(q) && p.value >= 0 {
      assert TextFor(p)[1..] == ToFixed(p.value, 1);
      assert TextFor(q)[1..] == ToFixed(q.value, 1);
    }
  }
}
