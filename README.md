# Waterfall chart visual — verified model of the data pipeline

This project models the data pipeline of a Power BI custom visual that draws
a waterfall chart with per-category subtotals (`src/visual.ts`). The host
hands the visual role-tagged categorical columns. The visual:

1. finds the columns bound to the `value`, `startValue`, `category` and
   `breakdown` roles (the last column bound to a role wins);
2. groups the rows by category label, in first-seen order, keeping each
   group's rows in source order (`groupDataByCategoryAndBreakdown`);
3. walks the groups with a running total, emitting a Start point, one point
   per row, a subtotal after every group with several rows when breakdown
   labels are bound, and an optional Total point (`processWaterfallData`);
4. maps every point to one stacked-bar trace with a base, a height, a
   colour, an opacity, an outside text and a hover text
   (`createPlotlyTraces`);
5. shows a placeholder message instead when the fields are missing or no
   point is produced (`update`, `createWaterfallChart`).

Each loop of the source is a Dafny method with loop invariants, proved equal
to a functional specification. The properties of the pipeline are lemmas
about those specifications. Modules, one per file:

- `WaterfallTypes` (`waterfall_types.dfy`): columns, rows, items, data points, bars.
- `Numerals` (`numerals.dfy`): decimal rendering of whole numbers, including `toFixed`.
- `Roles` (`roles.dfy`): the two role scans.
- `Grouping` (`grouping.dfy`): the grouping loop, its specification `GroupRows`, and reference definitions it is checked against.
- `Transform` (`transform.dfy`): the transformation. The body of `processWaterfallData` is split into `EmitWaterfall` (Start and Total points), `EmitGroups` (the loop over the groups) and `EmitGroup` (one group's rows and subtotal). One step is reordered. The source pushes the Start point before grouping the rows. The model groups first and pushes the Start point after. The grouping does not read the points, so the result is the same.
- `TransformProperties` (`transform_properties.dfy`): running-total chain, row preservation, point count and layout of the output.
- `Traces` (`traces.dfy`): the trace loop. `TraceOf` is one pass of its body.
- `ObjectKeys` (`object_keys.dfy`): the order in which `Object.keys` lists the groups (see Findings).
- `Visual` (`visual.dfy`): the placeholder decision and the whole update.

Cells are `Option` values. A cell past the end of a column is `None`, like
JavaScript's `undefined`. A falsy label (`None` or `""`) becomes
`"Category {i+1}"`. A falsy breakdown becomes `""`. A falsy value (`None`
or `0`) counts as `0`. Numbers are unbounded integers.

## Model

| member | source | states |
|---|---|---|
| Roles.LastWithRole | src/visual.ts:150-159 | the result is `None` exactly when no column carries the role; otherwise it is a column carrying the role, and no later column carries it |
| Roles.ScanValueColumns | src/visual.ts:146-159 | the start value is the first cell of the last `startValue` column, or 0 when that cell is falsy or no such column exists; the main values are the last `value` column, absent exactly when no column has that role |
| Roles.ScanCategoryColumns | src/visual.ts:167-177 | the category and breakdown data are the last columns bound to those roles; each is absent exactly when no column carries its role |
| Roles.StartValueFromLastColumn | src/visual.ts:150-154 | with several `startValue` columns, the start value comes from the last one |
| Roles.StartValueWithoutColumn | src/visual.ts:146-154 | without a `startValue` column the start value is 0 |
| Grouping.Rows | src/visual.ts:263-266 | there is one normalised row per cell of the category column |
| Grouping.GroupRows | src/visual.ts:260-280 | every label in the key order has a group |
| Grouping.GroupDataByCategoryAndBreakdown | src/visual.ts:260-280 | the dictionary and key order the loop builds are the grouping of the normalised rows |
| Grouping.GroupRowsShape | src/visual.ts:268-275 | no label appears twice in the key order; the key order lists exactly the labels with a group; no group is empty |
| Grouping.GroupContents | src/visual.ts:268-275 | a label has a group exactly when some row carries it, and its group holds exactly those rows' items, in source order |
| Grouping.RowInItsGroup | src/visual.ts:263-275 | row `i`'s item is in the group of row `i`'s normalised label |
| Grouping.EmptyLabelFallback | src/visual.ts:264-275 | a row with a falsy label is labelled `"Category {i+1}"`, that group exists, and the row's item is in it |
| Grouping.KeysSeen | src/visual.ts:268-270 | every key is the label of some row |
| Grouping.KeysInFirstSeenOrder | src/visual.ts:268-270 | the keys are in the order their labels first occur in the rows |
| Grouping.GroupingKeepsRows | src/visual.ts:263-275 | the groups read in key order are a permutation of the rows, with the same length and the same total value |
| Numerals.NatToStringInjective | src/visual.ts:264 | different row numbers give different fallback labels |
| Numerals.ToFixedInjective | src/visual.ts:319-320 | with the same number of decimals, `toFixed` gives the same text exactly for equal whole numbers |
| Transform.RowPoints | src/visual.ts:207-225 | a group contributes one row point per item |
| Transform.ProcessWaterfallData | src/visual.ts:140-258 | the points pushed are those of the specification `WaterfallOf`: none without a value or category column; otherwise Start, the groups' points, and Total when requested |
| Transform.EmitWaterfall | src/visual.ts:184-254 | from the grouped rows: the Start point, the walk over the groups, then the Total point carrying the final running total when requested |
| Transform.EmitGroups | src/visual.ts:202-240 | the loop over the groups appends each group's points in key order, and the running total grows by the sum of every group |
| Transform.EmitGroup | src/visual.ts:203-239 | one group appends its row points and then its subtotal, and the running total grows by the group's sum |
| TransformProperties.RunningTotalOfRows | src/visual.ts:161-196 | the output is empty exactly when a value or category column is missing; otherwise it starts with the Start point for the start value, each point's running total is the previous one plus its change, and the last running total is the start value plus the sum of every row's value |
| TransformProperties.WaterfallChained | src/visual.ts:184-254 | the points are chained from the start value, and the final running total is the start value plus every group's sum |
| TransformProperties.EveryRowOnce | src/visual.ts:199-225 | the row points, in order, are the groups' rows in key order, and they are a permutation of the input rows |
| TransformProperties.GroupPointsShape | src/visual.ts:204-239 | row `j` of a group carries the running total after its first `j+1` items; a subtotal follows exactly when the group has several rows and breakdowns are bound, with the group's sum, the running total after its last row and the label `"{cat} Subtotal"` |
| TransformProperties.RowLabelShape | src/visual.ts:211-213 | a row is labelled `"{cat} - {breakdown}"` when breakdowns are bound and its breakdown is non-empty, and `"{cat}"` otherwise |
| TransformProperties.PointCount | src/visual.ts:187-254 | the output has 1 + number of rows + number of subtotalled groups + (1 if the total is shown) points |
| TransformProperties.WaterfallLayout | src/visual.ts:187-254 | the Start point is first and nowhere else; the last point is the Total exactly when requested, with value and running total equal to the final running total, and there is no Total earlier; no point has two flags; every subtotal directly follows a row of its category with the same running total |
| Traces.CreatePlotlyTraces | src/visual.ts:282-343 | one bar per point, in the same order, each the bar the loop body builds for that point |
| Traces.TraceOf | src/visual.ts:286-339 | Start and Total: base 0, height the value, total colour. Subtotal: base 0, height the running total, total colour, opacity 0.7. Falling row: base the running total, height minus the value. Rising row: base the previous running total minus the value (0 at index 0), height the value. Row colour follows the sign |
| Traces.RowBarTopsAtPrevious | src/visual.ts:301-314 | in a chained sequence, every row's bar has a non-negative height, its top at the previous point's running total, the colour of its sign, and full opacity |
| Traces.SpecialBarsFromZero | src/visual.ts:291-300 | Start, Total and subtotal bars rise from 0 in the total colour; only subtotals are translucent |
| Traces.WaterfallBarsShape | src/visual.ts:285-315 | on a waterfall: the first bar rises from 0 to the start value; row bars have non-negative height with their top at the previous running total; subtotal bars rise from 0 to the running total they close; the Total bar rises from 0 to the start value plus every group's sum |
| Traces.TotalBarOfRows | src/visual.ts:243-253 | on the transformation's output, the Total bar rises from 0 to the start value plus the sum of every row's value |
| Traces.PositiveBarCounterexample | src/visual.ts:304-310 | Start 0 then a row of +10: the bar is drawn from -10 to 0, where the intended bar spans 0 to 10 |
| Traces.IntendedRowBarSpansStep | src/visual.ts:304-314 | with the intended base, every row's bar spans exactly from the previous running total to its own, whichever its sign |
| Traces.AsWrittenMatchesIntendedUnlessRising | src/visual.ts:304-314 | the drawn bar equals the intended bar exactly when the row does not rise |
| Traces.RowTextSigned | src/visual.ts:318-320 | a row's text starts with `+` exactly for a non-negative change and with `-` exactly for a negative one |
| Traces.TextDeterminesValue | src/visual.ts:318-320 | for whole-number values: two rows show the same text exactly when their changes are equal; two special points, exactly when their running totals are |
| Traces.HoverBreakdownLine | src/visual.ts:334-338 | the hover text is the breakdown-free text with `Breakdown: {breakdown}<br>` inserted before the `<extra></extra>` trailer exactly when the breakdown is non-empty |
| ObjectKeys.SortIndices | src/visual.ts:202 | the array-index keys are put in ascending numeric order, as a permutation |
| ObjectKeys.OwnKeysOrder | src/visual.ts:202 | `Object.keys` lists every key once: array-index keys first in ascending numeric order, then the others in insertion order |
| ObjectKeys.OwnKeysOfPlainLabels | src/visual.ts:202 | without array-index labels, the groups are visited in first-seen order |
| ObjectKeys.IndexLabelsReordered | src/visual.ts:202 | rows labelled `"b"` then `"1"` are grouped with keys `["b", "1"]`, but visited as `["1", "b"]` |
| Visual.Update | src/visual.ts:73-113 | the update shows what `Render` specifies: the fields message, "No data to display", or one bar per waterfall point |
| Visual.RenderOutcomes | src/visual.ts:78-110 | the fields message appears exactly when the data view, its categorical part, the categories or the values are missing, or the values are empty; "No data to display" appears exactly when the fields are present but a value or category column is missing; otherwise a chart appears with one bar per point, at least one |
| Visual.ColorFallback | src/visual.ts:99-101 | an unset or empty colour falls back to its default; any other colour is used as given |

## Left out

- Host lifecycle and DOM: the constructor, the chart container, the `innerHTML` writes, `console.log`, `updateCount` and `getFormattingModel`. These are glue to the host. `Visual.Screen` stands for what the container shows.
- The formatting settings are parameters (`Visual.Settings`). The host's `populateFormattingSettingsModel` is not part of this model. The defaults come from `src/settings.ts`. Its formatting-card descriptors are not modelled.
- The chart renderer call, its `layout` and `config` constants, and the error message of its `try`/`catch` (src/visual.ts:115-137). Only the traces passed to it are modelled.
- The constant trace fields `type: 'bar'` and `textposition: 'outside'`. `Bar.x` stands for the one-element arrays `x`, `y`, `base` and `text`.
- IEEE-754 arithmetic. Values are unbounded integers, so rounding, `NaN` (falsy, so counted as 0) and infinities are not modelled.
- Numerals.ToFixed: models `toFixed` only for whole numbers. It prints every integer in positional form, so from 10^21 upward it differs from JavaScript, which switches to exponent form (`(1e21).toFixed(1)` is `"1e+21"`, the model gives `"1000000000000000000000.0"`).
- Traces.TextDeterminesValue: holds only because the model's values are whole numbers. Rounding of fractional values is not modelled: in the visual, distinct fractional values can share a text (0.01 and 0.04 both show `+0.0`).
- JavaScript coercion of non-number cells, for example a truthy string value concatenated into the running total. Cells are typed `Option<int>` and `Option<string>`.
- Transform.ProcessWaterfallData: walks the groups in first-seen order. The source walks them in `Object.keys` order, which puts labels that are array indices (such as `"1"` or `"2024"`) first, in ascending numeric order. The two orders agree when no label is an array index (`ObjectKeys.OwnKeysOfPlainLabels`); the difference is a finding below.
- Labels that are not strings. A number label and its string form would merge into one key.
- Labels that name a property inherited by plain objects, such as `"constructor"`. There `grouped[category]` is already truthy and the push fails.
- Only the first data view is read, as in the source. Further data views are ignored.

## Findings

| source | as written | input that shows it | evidently intended | confidence | as-written member | corrected member |
|---|---|---|---|---|---|---|
| src/visual.ts:304-310 | a rising row's bar starts at the previous point's running total minus the row's value, so it spans from `prev - v` to `prev` | Start 0, then one row of +10: the bar is drawn from -10 to 0 | the bar starts at the previous running total (as the comment at line 307 says) and spans from `prev` to `prev + v` | high; not executed | Traces.PositiveBarCounterexample | Traces.IntendedRowBarSpansStep |
| src/visual.ts:202 | `Object.keys(groupedData)` lists labels that are array indices (such as `"1"` or `"2024"`) first, in ascending numeric order, before the other labels | rows labelled `"b"` then `"1"`: the groups are walked as `"1"`, `"b"` | the groups are walked in the order their labels first appear | medium; not executed | ObjectKeys.IndexLabelsReordered | Grouping.KeysInFirstSeenOrder |

On the first row: the chart model (`Traces.BarOf`, `Traces.CreatePlotlyTraces`,
`Visual.Render`) keeps the bar as the source computes it, so that it shows
what the visual actually draws. `Traces.IntendedBarOf` is the corrected bar.
`Traces.AsWrittenMatchesIntendedUnlessRising` states exactly where the two
differ.

On the second row: the transformation walks the groups in first-seen order
(`Grouping.GroupRows`). `Object.keys` order, as ECMA-262 section 10.1.11.1
(OrdinaryOwnPropertyKeys) defines it, is modelled separately in
`ObjectKeys.OwnKeys`. `ObjectKeys.OwnKeysOfPlainLabels` proves the two
orders agree when no label is an array index.
