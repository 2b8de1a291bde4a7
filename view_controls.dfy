/**
 * The view panel's statistics: how many painted cells carry each kind of
 * colour (walkway, point of interest, vertical connection) and how many
 * cells are labelled.
 */
module ViewControls {
  import opened CanvasUtils
  import opened GridPainter
  import opened Sets
  import opened JsonExport

  const WALKWAY_COLOR := "#16a34a"
  const POI_COLOR := "#dc2626"
  const CONNECTION_COLORS: set<string> := {"#2563eb", "#ea580c", "#7c3aed"}

  /** The painted cells whose colour is, exactly, one of `colors`. */
  function CellsColored(painted: PaintMap, colors: set<string>): (cells: set<Cell>)
    ensures cells <= painted.Keys
    ensures forall k :: k in cells <==> k in painted && painted[k] in colors
  {
    set k | k in painted && painted[k] in colors
  }

  /** The number of painted entries whose colour is one of `colors`. */
  function CountColored(painted: PaintMap, colors: set<string>): (n: nat)
    ensures n <= |painted|
    ensures n == 0 <==> forall k :: k in painted ==> painted[k] !in colors
  {
    var cells := CellsColored(painted, colors);
    SubsetCard(cells, painted.Keys);
    assert cells != {} ==> exists k :: k in cells by {
      if cells != {} {
        var k :| k in cells;
      }
    }
    |cells|
  }

  /** The "Walkways" badge: painted cells in the walkway green. */
  function WalkwayCount(painted: PaintMap): (n: nat)
    ensures n <= |painted|
    ensures n == 0 <==> forall k :: k in painted ==> painted[k] != WALKWAY_COLOR
  {
    CountColored(painted, {WALKWAY_COLOR})
  }

  /** The "POIs" badge: painted cells in the point-of-interest red. */
  function PoiCount(painted: PaintMap): (n: nat)
    ensures n <= |painted|
    ensures n == 0 <==> forall k :: k in painted ==> painted[k] != POI_COLOR
  {
    CountColored(painted, {POI_COLOR})
  }

  /** The "Connections" badge: painted cells in any of the three connection colours. */
  function ConnectionCount(painted: PaintMap): (n: nat)
    ensures n <= |painted|
    ensures n == 0 <==> forall k :: k in painted ==> painted[k] !in CONNECTION_COLORS
  {
    CountColored(painted, CONNECTION_COLORS)
  }

  /** Counts over disjoint colour classes add up to the count over their union. */
  lemma CountDisjoint(painted: PaintMap, a: set<string>, b: set<string>)
    requires a !! b
    ensures CountColored(painted, a) + CountColored(painted, b) == CountColored(painted, a + b)
  {
    var ca := CellsColored(painted, a);
    var cb := CellsColored(painted, b);
    assert CellsColored(painted, a + b) == ca + cb;
    DisjointUnionCard(ca, cb);
  }

  /** No colour is in two classes, so the three counts never exceed the number of painted cells. */
  lemma CategoryCountsBounded(painted: PaintMap)
    ensures WalkwayCount(painted) + PoiCount(painted) + ConnectionCount(painted) <= |painted|
  {
    CountDisjoint(painted, {WALKWAY_COLOR}, {POI_COLOR});
    CountDisjoint(painted, {WALKWAY_COLOR} + {POI_COLOR}, CONNECTION_COLORS);
  }

  /** Painting a fresh cell in a colour adds one to the count of every class holding that colour and to no other. */
  lemma PaintFreshCell(painted: PaintMap, cell: Cell, color: string, colors: set<string>)
    requires cell !in painted
    ensures CountColored(TogglePaint(painted, cell, color), colors) ==
      CountColored(painted, colors) + (if color in colors then 1 else 0)
  {
    var after := CellsColored(TogglePaint(painted, cell, color), colors);
    var before := CellsColored(painted, colors);
    if color in colors {
      assert after == before + {cell};
    } else {
      assert after == before;
    }
  }

  /** Erasing a cell by clicking it again removes it from its colour's count. */
  lemma EraseCell(painted: PaintMap, cell: Cell, colors: set<string>)
    requires cell in painted
    ensures CountColored(TogglePaint(painted, cell, painted[cell]), colors) ==
      CountColored(painted, colors) - (if painted[cell] in colors then 1 else 0)
  {
    var after := CellsColored(TogglePaint(painted, cell, painted[cell]), colors);
    var before := CellsColored(painted, colors);
    if painted[cell] in colors {
      assert before == after + {cell};
    } else {
      assert after == before;
    }
  }

  /** The counts look only at colours: two paintings with the same colour on every cell give the same counts. */
  lemma CountsDependOnColorsOnly(p: PaintMap, q: PaintMap, colors: set<string>)
    requires p.Keys == q.Keys && forall k :: k in p ==> p[k] == q[k]
    ensures CountColored(p, colors) == CountColored(q, colors)
  {
    assert CellsColored(p, colors) == CellsColored(q, colors);
  }

  /** Matching is exact: an upper-case spelling of the walkway colour is not a walkway. */
  lemma CountsAreCaseSensitive(cell: Cell)
    ensures WalkwayCount(map[cell := "#16A34A"]) == 0
    ensures WalkwayCount(map[cell := WALKWAY_COLOR]) == 1
  {
    assert "#16A34A"[3] != WALKWAY_COLOR[3];
    assert CellsColored(map[cell := "#16A34A"], {WALKWAY_COLOR}) == {};
    assert CellsColored(map[cell := WALKWAY_COLOR], {WALKWAY_COLOR}) == {cell};
  }

  /** The "Labeled" badge: the number of labelled cells. */
  function LabeledCount(labels: LabelMap): nat {
    |labels|
  }

  /** The cells of the exported records that carry a label. */
  function LabeledRecordCells(records: seq<CoordinateRecord>): set<Cell> {
    set e | e in records && e.hasLabel :: RecordCell(e)
  }

  /**
   * The badge agrees with the export: it shows the export's `labeledCells`,
   * and it is the number of exported cells that carry a label.
   */
  lemma LabeledBadgeMatchesExport(painted: PaintMap, labels: LabelMap, gridSize: int, gridOffset: Point)
    requires LabelsWellFormed(labels)
    requires painted != map[] || labels != map[]
    ensures CurrentJsonData(painted, labels, gridSize, gridOffset).Data?
    ensures LabeledCount(labels) == CurrentJsonData(painted, labels, gridSize, gridOffset).info.labeledCells
    ensures LabeledCount(labels) == |LabeledRecordCells(CurrentJsonData(painted, labels, gridSize, gridOffset).coordinates)|
  {
    ExportedLabelsAreLabels(painted, labels, gridSize, gridOffset);
  }

  /** The labelled cells of the export are exactly the labelled cells. */
  lemma ExportedLabelsAreLabels(painted: PaintMap, labels: LabelMap, gridSize: int, gridOffset: Point)
    requires LabelsWellFormed(labels)
    requires painted != map[] || labels != map[]
    ensures LabeledRecordCells(CurrentJsonData(painted, labels, gridSize, gridOffset).coordinates) == labels.Keys
  {
    var cells := SortedCells(AllCells(painted, labels));
    assert CurrentJsonData(painted, labels, gridSize, gridOffset).coordinates == Records(cells, painted, labels);
    LabeledRecordsAreLabels(cells, painted, labels);
  }

  /** Records made for a list of cells that includes every labelled cell carry exactly the labelled cells' labels. */
  lemma LabeledRecordsAreLabels(cells: seq<Cell>, painted: PaintMap, labels: LabelMap)
    requires LabelsWellFormed(labels)
    requires forall c :: c in labels ==> c in cells
    ensures LabeledRecordCells(Records(cells, painted, labels)) == labels.Keys
  {
    var records := Records(cells, painted, labels);
    forall c | c in labels.Keys
      ensures c in LabeledRecordCells(records)
    {
      LabelIsExported(cells, painted, labels, c);
    }
    forall c | c in LabeledRecordCells(records)
      ensures c in labels.Keys
    {
      ExportedLabelIsStored(cells, painted, labels, c);
    }
  }

  lemma LabelIsExported(cells: seq<Cell>, painted: PaintMap, labels: LabelMap, c: Cell)
    requires LabelsWellFormed(labels)
    requires c in labels && c in cells
    ensures c in LabeledRecordCells(Records(cells, painted, labels))
  {
    var records := Records(cells, painted, labels);
    var i :| 0 <= i < |cells| && cells[i] == c;
    assert records[i] == Record(c, painted, labels);
    assert records[i] in records;
  }

  lemma ExportedLabelIsStored(cells: seq<Cell>, painted: PaintMap, labels: LabelMap, c: Cell)
    requires c in LabeledRecordCells(Records(cells, painted, labels))
    ensures c in labels
  {
    var records := Records(cells, painted, labels);
    var e :| e in records && e.hasLabel && RecordCell(e) == c;
    var i :| 0 <= i < |records| && records[i] == e;
    assert e == Record(cells[i], painted, labels);
  }
}
