/**
 * The JSON export of the painted and labelled cells: either a "no data"
 * message, or summary counts plus one record per touched cell, ordered by
 * row and then by column.
 */
module JsonExport {
  import opened Wrappers
  import opened Text
  import opened CanvasUtils
  import opened Constants
  import opened GridPainter
  import opened Sets

  /** One exported cell; `labelText` is the record's `label`. An absent `color`, `colorName` or `label` is JSON `null`. */
  datatype CoordinateRecord = CoordinateRecord(
    row: int,
    col: int,
    coordinate: string,
    color: Option<string>,
    colorName: Option<string>,
    labelText: Option<string>,
    isPainted: bool,
    hasLabel: bool)

  datatype ExportInfo = ExportInfo(
    totalCells: nat,
    paintedCells: nat,
    labeledCells: nat,
    gridSize: int,
    gridOffset: Point)

  datatype ExportData =
    | NoData(message: string)
    | Data(info: ExportInfo, coordinates: seq<CoordinateRecord>)

  // ---------------------------------------------------------------------------
  // Ordering cells by row, then by column
  // ---------------------------------------------------------------------------

  predicate CellBefore(a: Cell, b: Cell) {
    a.row < b.row || (a.row == b.row && a.col < b.col)
  }

  predicate StrictlySorted(cells: seq<Cell>) {
    forall i, j :: 0 <= i < j < |cells| ==> CellBefore(cells[i], cells[j])
  }

  lemma CellBeforeTransitive(a: Cell, b: Cell, c: Cell)
    requires CellBefore(a, b) && CellBefore(b, c)
    ensures CellBefore(a, c)
  {
  }

  lemma CellBeforeTotal(a: Cell, b: Cell)
    requires a != b
    ensures CellBefore(a, b) || CellBefore(b, a)
  {
  }

  /** Every non-empty set of cells has a first cell in row-then-column order. */
  lemma {:induction false} MinimumOf(s: set<Cell>) returns (m: Cell)
    requires s != {}
    ensures m in s && forall x :: x in s && x != m ==> CellBefore(m, x)
    decreases |s|
  {
    var y :| y in s;
    if s == {y} {
      m := y;
    } else {
      var rest := s - {y};
      var least := MinimumOf(rest);
      if CellBefore(y, least) {
        m := y;
        forall x | x in s && x != y
          ensures CellBefore(y, x)
        {
          if x != least {
            CellBeforeTransitive(y, least, x);
          }
        }
      } else {
        m := least;
        CellBeforeTotal(y, least);
        forall x | x in s && x != least
          ensures CellBefore(least, x)
        {
          if x != y {
            assert x in rest;
          }
        }
      }
    }
  }

  lemma MinimumExists(s: set<Cell>)
    requires s != {}
    ensures exists m :: m in s && forall x :: x in s && x != m ==> CellBefore(m, x)
  {
    var m := MinimumOf(s);
  }

  /** The first cell of a non-empty set in row-then-column order. */
  function MinCell(s: set<Cell>): (m: Cell)
    requires s != {}
    ensures m in s && forall x :: x in s && x != m ==> CellBefore(m, x)
  {
    MinimumExists(s);
    var m :| m in s && forall x :: x in s && x != m ==> CellBefore(m, x);
    m
  }

  /** The cells of `s` in row-then-column order, each exactly once. */
  function SortedCells(s: set<Cell>): (r: seq<Cell>)
    ensures |r| == |s|
    ensures forall c :: c in r <==> c in s
    ensures StrictlySorted(r)
    decreases |s|
  {
    if s == {} then []
    else
      var m := MinCell(s);
      var rest := SortedCells(s - {m});
      assert forall j :: 0 <= j < |rest| ==> rest[j] in s - {m};
      [m] + rest
  }

  // ---------------------------------------------------------------------------
  // One record per cell
  // ---------------------------------------------------------------------------

  /** The position of the first palette entry with colour `value`, if any. */
  function FindColor(colors: seq<Color>, value: string): (r: Option<nat>)
    ensures r.Some? ==> r.value < |colors| && colors[r.value].value == value &&
                        forall j :: 0 <= j < r.value ==> colors[j].value != value
    ensures r.None? ==> forall j :: 0 <= j < |colors| ==> colors[j].value != value
  {
    if colors == [] then None
    else if colors[0].value == value then Some(0)
    else
      match FindColor(colors[1..], value)
      case None => None
      case Some(i) => Some(i + 1)
  }

  /** A colour's palette name, or the colour itself when it is not in the palette or its name is empty. */
  function ColorName(color: string): (name: string)
    ensures name == color ||
      exists i :: 0 <= i < |DEFAULT_COLORS| && DEFAULT_COLORS[i].value == color && name == DEFAULT_COLORS[i].name
    ensures color != "" ==> name != ""
  {
    match FindColor(DEFAULT_COLORS, color)
    case Some(i) => if DEFAULT_COLORS[i].name != "" then DEFAULT_COLORS[i].name else color
    case None => color
  }

  /** The export record of `cell`; `""` counts as no colour and no label, as JavaScript truthiness has it. */
  function Record(cell: Cell, painted: PaintMap, labels: LabelMap): (r: CoordinateRecord)
    ensures RecordCell(r) == cell
    ensures r.isPainted <==> cell in painted && painted[cell] != ""
    ensures r.hasLabel <==> cell in labels && labels[cell] != ""
    ensures (r.isPainted <==> r.color.Some?) && (r.isPainted <==> r.colorName.Some?)
    ensures r.hasLabel <==> r.labelText.Some?
    ensures r.isPainted ==> r.color == Some(ToUpper(painted[cell])) && r.colorName == Some(ColorName(painted[cell]))
    ensures r.hasLabel ==> r.labelText == Some(labels[cell])
  {
    var color := if cell in painted && painted[cell] != "" then Some(painted[cell]) else None;
    var text := if cell in labels && labels[cell] != "" then Some(labels[cell]) else None;
    CoordinateRecord(
      cell.row,
      cell.col,
      "(" + IntToString(cell.row) + ", " + IntToString(cell.col) + ")",
      if color.Some? then Some(ToUpper(color.value)) else None,
      if color.Some? then Some(ColorName(color.value)) else None,
      text,
      color.Some?,
      text.Some?)
  }

  /** The cells that appear in the export: every painted or labelled cell. */
  function AllCells(painted: PaintMap, labels: LabelMap): set<Cell> {
    painted.Keys + labels.Keys
  }

  /** The cell of an exported record. */
  function RecordCell(e: CoordinateRecord): Cell {
    Cell(e.row, e.col)
  }

  /** The cells of a sequence of records, in the same order. */
  function RecordCells(records: seq<CoordinateRecord>): (cells: seq<Cell>)
    ensures |cells| == |records|
    ensures forall i :: 0 <= i < |records| ==> cells[i] == RecordCell(records[i])
  {
    seq(|records|, i requires 0 <= i < |records| => RecordCell(records[i]))
  }

  /** The records of `cells`, in the same order. */
  function Records(cells: seq<Cell>, painted: PaintMap, labels: LabelMap): (records: seq<CoordinateRecord>)
    ensures RecordCells(records) == cells
    ensures forall i :: 0 <= i < |cells| ==> records[i] == Record(cells[i], painted, labels)
  {
    var records := seq(|cells|, i requires 0 <= i < |cells| => Record(cells[i], painted, labels));
    assert RecordCells(records) == cells;
    records
  }

  /**
   * The export of the current painting and labels: nothing painted or
   * labelled gives the "no data" message; otherwise the counts, and one
   * record for each painted or labelled cell, in row-then-column order.
   */
  function CurrentJsonData(painted: PaintMap, labels: LabelMap, gridSize: int, gridOffset: Point): (r: ExportData)
    ensures r.NoData? <==> painted == map[] && labels == map[]
    ensures r.NoData? ==> r.message == NO_DATA_MESSAGE
    ensures r.Data? ==>
      r.info == ExportInfo(|AllCells(painted, labels)|, |painted|, |labels|, gridSize, gridOffset)
    ensures r.Data? ==> |r.coordinates| == |AllCells(painted, labels)|
    ensures r.Data? ==> forall c :: c in RecordCells(r.coordinates) <==> c in AllCells(painted, labels)
    ensures r.Data? ==> StrictlySorted(RecordCells(r.coordinates))
  {
    var all := AllCells(painted, labels);
    if |all| == 0 then
      assert painted.Keys == {} && labels.Keys == {};
      NoData(NO_DATA_MESSAGE)
    else
      assert painted != map[] || labels != map[] by {
        var c :| c in all;
      }
      Data(ExportInfo(|all|, |painted|, |labels|, gridSize, gridOffset), Records(SortedCells(all), painted, labels))
  }

  /**
   * What each exported record says about its cell: its position text, whether
   * it is painted or labelled, its upper-cased colour, the colour's palette
   * name and its label.
   */
  lemma RecordFacts(painted: PaintMap, labels: LabelMap, gridSize: int, gridOffset: Point, i: int)
    requires PaintWellFormed(painted) && LabelsWellFormed(labels)
    requires CurrentJsonData(painted, labels, gridSize, gridOffset).Data?
    requires 0 <= i < |CurrentJsonData(painted, labels, gridSize, gridOffset).coordinates|
    ensures var e := CurrentJsonData(painted, labels, gridSize, gridOffset).coordinates[i];
      var c := Cell(e.row, e.col);
      && e.coordinate == "(" + IntToString(e.row) + ", " + IntToString(e.col) + ")"
      && (e.isPainted <==> c in painted)
      && (e.hasLabel <==> c in labels)
      && (e.isPainted <==> e.color.Some?)
      && (e.isPainted <==> e.colorName.Some?)
      && (e.hasLabel <==> e.labelText.Some?)
      && (c in painted ==> e.color == Some(ToUpper(painted[c])) && e.colorName == Some(ColorName(painted[c])))
      && (c in labels ==> e.labelText == Some(labels[c]))
  {
    var cells := SortedCells(AllCells(painted, labels));
    assert CurrentJsonData(painted, labels, gridSize, gridOffset).coordinates[i] == Record(cells[i], painted, labels);
  }

  /** No two palette entries share a colour value. */
  predicate DistinctValues(colors: seq<Color>) {
    forall i, j :: 0 <= i < j < |colors| ==> colors[i].value != colors[j].value
  }

  lemma PaletteDistinct()
    ensures DistinctValues(DEFAULT_COLORS)
  {
  }

  lemma FindDistinct(colors: seq<Color>, i: int)
    requires DistinctValues(colors) && 0 <= i < |colors|
    ensures FindColor(colors, colors[i].value) == Some(i)
  {
    var r := FindColor(colors, colors[i].value);
    assert r.Some?;
  }

  /** Every palette entry has a name. */
  lemma PaletteNamed(i: int)
    requires 0 <= i < |DEFAULT_COLORS|
    ensures DEFAULT_COLORS[i].name != ""
  {
  }

  /** Palette colours are exported under their names; any other colour under itself. */
  lemma ColorNameOfPalette(i: int)
    requires 0 <= i < |DEFAULT_COLORS|
    ensures ColorName(DEFAULT_COLORS[i].value) == DEFAULT_COLORS[i].name
  {
    PaletteDistinct();
    FindDistinct(DEFAULT_COLORS, i);
    PaletteNamed(i);
  }

  lemma ColorNameOutsidePalette(color: string)
    requires forall i :: 0 <= i < |DEFAULT_COLORS| ==> DEFAULT_COLORS[i].value != color
    ensures ColorName(color) == color
  {
  }

  /** The exported cells number at most the painted plus the labelled cells, and at least each of the two. */
  lemma ExportCountsAddUp(painted: PaintMap, labels: LabelMap, gridSize: int, gridOffset: Point)
    requires CurrentJsonData(painted, labels, gridSize, gridOffset).Data?
    ensures var info := CurrentJsonData(painted, labels, gridSize, gridOffset).info;
      info.totalCells <= info.paintedCells + info.labeledCells &&
      info.paintedCells <= info.totalCells && info.labeledCells <= info.totalCells
  {
    var all := AllCells(painted, labels);
    assert painted.Keys <= all && labels.Keys <= all;
    SubsetCard(painted.Keys, all);
    SubsetCard(labels.Keys, all);
    UnionCard(painted.Keys, labels.Keys);
  }
}
