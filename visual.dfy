/**
 * What one update of the visual shows (src/visual.ts, update and
 * createWaterfallChart): a placeholder message when the fields are missing
 * or nothing is left to draw, otherwise the chart's bars.
 *
 * The formatting settings arrive already read from the host's formatting
 * pane, each entry possibly unset; the defaults are those of
 * src/settings.ts.
 */
module Visual {
  import opened WaterfallTypes
  import Transform
  import Traces
  import TransformProperties

  const FieldsMessage: string := "Please add Category and Value fields (Breakdown is optional)"
  const NoDataMessage: string := "No data to display"

  const DefaultPositiveColor: string := "#2E8B57"
  const DefaultNegativeColor: string := "#DC143C"
  const DefaultTotalColor: string := "#4682B4"

  /** The formatting pane as read: an unset entry is `None`. */
  datatype Settings = Settings(
    positiveColor: Option<string>,
    negativeColor: Option<string>,
    totalColor: Option<string>,
    showTotal: Option<bool>)

  /** The categorical part of a data view; either array may be absent. */
  datatype Categorical = Categorical(
    categories: Option<seq<Column<string>>>,
    values: Option<seq<Column<int>>>)

  datatype DataView = DataView(categorical: Option<Categorical>)

  /** What the visual's container ends up showing. */
  datatype Screen = Message(text: string) | Chart(bars: seq<Bar>)

  /** `color || fallback`: an unset or empty colour falls back. */
  function ColorOr(color: Option<string>, fallback: string): string {
    match color
    case Some(c) => if c != "" then c else fallback
    case None => fallback
  }

  function ResolveColors(settings: Settings): Colors {
    Colors(ColorOr(settings.positiveColor, DefaultPositiveColor),
           ColorOr(settings.negativeColor, DefaultNegativeColor),
           ColorOr(settings.totalColor, DefaultTotalColor))
  }

  /** `showTotal ?? true`. */
  function ShowTotalOf(settings: Settings): bool {
    settings.showTotal.GetOr(true)
  }

  /** The data view the update reads: the first one, if any. */
  function FirstView(dataViews: seq<DataView>): Option<DataView> {
    if |dataViews| > 0 then Some(dataViews[0]) else None
  }

  /** The categories and values arrays, when the update gets that far with both present and values non-empty. */
  function Fields(dataViews: seq<DataView>): Option<(seq<Column<string>>, seq<Column<int>>)> {
    match FirstView(dataViews)
    case None => None
    case Some(view) =>
      match view.categorical
      case None => None
      case Some(c) =>
        if c.categories.None? || c.values.None? || |c.values.value| == 0 then None
        else Some((c.categories.value, c.values.value))
  }

  /** The bars for a sequence of points, one per point. */
  function Bars(points: seq<DataPoint>, colors: Colors): (bars: seq<Bar>)
    ensures |bars| == |points|
  {
    seq(|points|, i requires 0 <= i < |points| => Traces.BarOf(points, i, colors))
  }

  /** What the update shows for the given data views and settings. */
  function Render(dataViews: seq<DataView>, settings: Settings): Screen {
    match Fields(dataViews)
    case None => Message(FieldsMessage)
    case Some((categories, values)) =>
      var points := Transform.WaterfallOf(categories, values, ShowTotalOf(settings));
      if points == [] then Message(NoDataMessage)
      else Chart(Bars(points, ResolveColors(settings)))
  }

  /** The update: check the fields, resolve the settings, transform, and map to bars. */
  method Update(dataViews: seq<DataView>, settings: Settings) returns (screen: Screen)
    ensures screen == Render(dataViews, settings)
  {
    if |dataViews| == 0 || dataViews[0].categorical.None? {
      return Message(FieldsMessage);
    }
    var categorical := dataViews[0].categorical.value;
    if categorical.categories.None? || categorical.values.None? || |categorical.values.value| == 0 {
      return Message(FieldsMessage);
    }
    var categories, values := categorical.categories.value, categorical.values.value;

    var colors := ResolveColors(settings);
    var showTotal := ShowTotalOf(settings);

    var waterfallData := Transform.ProcessWaterfallData(categories, values, showTotal);
    if |waterfallData| == 0 {
      return Message(NoDataMessage);
    }
    var traces := Traces.CreatePlotlyTraces(waterfallData, colors);
    assert traces == Bars(waterfallData, colors);
    screen := Chart(traces);
  }

  /**
   * The three outcomes: the fields message exactly when a data view, its
   * categorical part, either array is missing or no value column is
   * present; "No data" exactly when the fields are there but no column is
   * bound to the value or the category role; otherwise a chart with one
   * bar per waterfall point, at least the Start bar.
   */
  lemma RenderOutcomes(dataViews: seq<DataView>, settings: Settings)
    ensures Render(dataViews, settings) == Message(FieldsMessage) <==> Fields(dataViews).None?
    ensures Render(dataViews, settings) == Message(NoDataMessage) <==>
              Fields(dataViews).Some?
              && !Transform.HasRequiredColumns(Fields(dataViews).value.0, Fields(dataViews).value.1)
    ensures Render(dataViews, settings).Chart? <==>
              Fields(dataViews).Some?
              && Transform.HasRequiredColumns(Fields(dataViews).value.0, Fields(dataViews).value.1)
    ensures Render(dataViews, settings).Chart? ==>
              var (categories, values) := Fields(dataViews).value;
              |Render(dataViews, settings).bars|
              == |Transform.WaterfallOf(categories, values, ShowTotalOf(settings))| >= 1
  {
    assert FieldsMessage != NoDataMessage by {
      assert |FieldsMessage| != |NoDataMessage|;
    }
    if Fields(dataViews).Some? {
      var (categories, values) := Fields(dataViews).value;
      TransformProperties.RunningTotalOfRows(categories, values, ShowTotalOf(settings));
    }
  }

  /** A colour left unset or empty falls back to its default; any other is used as given. */
  lemma ColorFallback(color: Option<string>, fallback: string)
    ensures ColorOr(color, fallback) == fallback <==> color == None || color == Some("") || color == Some(fallback)
    ensures color.Some? && color.value != "" ==> ColorOr(color, fallback) == color.value
  {
  }
}
