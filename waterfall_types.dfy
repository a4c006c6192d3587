/**
 * Values shared by every stage of the waterfall pipeline: the role-tagged
 * columns the host hands over, the normalised rows, the grouped items, the
 * waterfall data points and the bar specifications fed to the chart renderer.
 *
 * Numbers are unbounded integers; a cell the host leaves empty (`null` or
 * `undefined`, or an index past the end of a column) is `None`.
 */
module WaterfallTypes {

  datatype Option<+T> = None | Some(value: T) {
    function GetOr(default: T): T {
      match this
      case Some(v) => v
      case None => default
    }
  }

  /** The data roles a column can be bound to in the host's field wells. */
  datatype Role = Category | Breakdown | Value | StartValue

  /**
   * One column of the host's categorical result: the roles it is bound to
   * (empty when the column carries no role metadata) and its cells by row.
   */
  datatype Column<T> = Column(roles: set<Role>, cells: seq<Option<T>>)

  /** The cell at row `i`, or `None` past the end of the column. */
  function CellAt<T>(cells: seq<Option<T>>, i: nat): Option<T> {
    if i < |cells| then cells[i] else None
  }

  /** A source row after its label, breakdown and value cells were normalised. */
  datatype Row = Row(category: string, breakdown: string, value: int)

  /** What a category group keeps of each of its rows. */
  datatype Item = Item(breakdown: string, value: int)

  function ItemOf(r: Row): Item {
    Item(r.breakdown, r.value)
  }

  /** One bar of the waterfall before it is mapped to a chart primitive. */
  datatype DataPoint = DataPoint(
    category: string,
    breakdown: string,
    value: int,
    cumulativeValue: int,
    isTotal: bool,
    isStart: bool,
    isSubtotal: bool,
    displayLabel: string)
  {
    /** A point produced by a source row rather than synthesised. */
    predicate IsOrdinary() {
      !isStart && !isTotal && !isSubtotal
    }

    /** No point carries two of the three classification flags. */
    predicate AtMostOneFlag() {
      !(isStart && isTotal) && !(isStart && isSubtotal) && !(isTotal && isSubtotal)
    }
  }

  /** The three bar colours of the formatting pane, already resolved. */
  datatype Colors = Colors(positive: string, negative: string, total: string)

  /**
   * One stacked-bar trace: a single x category (`x`), the bar height (`y`),
   * its base, colour and opacity, the legend name, the outside text
   * annotation and the hover text.
   */
  datatype Bar = Bar(
    x: string,
    y: int,
    base: int,
    color: string,
    opacity: real,
    name: string,
    text: string,
    hover: string)
}
