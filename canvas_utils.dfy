/**
 * The arithmetic core of the canvas utilities: cell keys, the mapping from a
 * canvas pixel to a grid cell and back, and the label text colour chosen for
 * a painted cell. Coordinates, offsets and the zoom factor are exact reals;
 * the grid size is a whole number of world units, at least 1.
 */
module CanvasUtils {
  import opened Wrappers
  import opened Text
  import opened RealArith

  /** A grid cell, identified by its row and column (both may be negative). */
  datatype Cell = Cell(row: int, col: int)

  /** A point or a displacement in pixel or world coordinates. */
  datatype Point = Point(x: real, y: real)

  function Add(p: Point, q: Point): Point {
    Point(p.x + q.x, p.y + q.y)
  }

  function Sub(p: Point, q: Point): Point {
    Point(p.x - q.x, p.y - q.y)
  }

  const ORIGIN := Point(0.0, 0.0)

  // ---------------------------------------------------------------------------
  // Cell keys: `${row},${col}` and its parse
  // ---------------------------------------------------------------------------

  /** The key under which a cell is stored: its row and column joined by a comma. */
  function CoordsToKey(row: int, col: int): (key: string)
    ensures |key| == |IntToString(row)| + 1 + |IntToString(col)|
    ensures key[|IntToString(row)|] == ','
    ensures key[..|IntToString(row)|] == IntToString(row)
    ensures key[|IntToString(row)| + 1..] == IntToString(col)
  {
    IntToString(row) + "," + IntToString(col)
  }

  /**
   * `keyToCoords`: split the key at its commas and read the first two pieces as
   * numbers. `None` stands for a key that does not give two integers.
   */
  function KeyToCoords(key: string): (c: Option<Cell>)
    ensures ',' !in key ==> c.None?
  {
    var parts := Split(key, ',');
    if |parts| < 2 then None
    else
      match (ParseInt(parts[0]), ParseInt(parts[1]))
      case (Some(row), Some(col)) => Some(Cell(row, col))
      case _ => None
  }

  lemma NoCommaInInt(n: int)
    ensures ',' !in IntToString(n)
  {
    if ',' in IntToString(n) {
      IntToStringChars(n, ',');
    }
  }

  /** Reading a key back gives the cell it was made from, for every row and column. */
  lemma KeyRoundTrip(row: int, col: int)
    ensures KeyToCoords(CoordsToKey(row, col)) == Some(Cell(row, col))
  {
    NoCommaInInt(row);
    NoCommaInInt(col);
    SplitAtFirst(IntToString(row), ',', IntToString(col));
    assert CoordsToKey(row, col) == IntToString(row) + [','] + IntToString(col);
    IntRoundTrip(row);
    IntRoundTrip(col);
  }

  /** Distinct cells have distinct keys. */
  lemma CoordsToKeyInjective(a: Cell, b: Cell)
    requires CoordsToKey(a.row, a.col) == CoordsToKey(b.row, b.col)
    ensures a == b
  {
    KeyRoundTrip(a.row, a.col);
    KeyRoundTrip(b.row, b.col);
  }

  // ---------------------------------------------------------------------------
  // Pixel <-> cell
  // ---------------------------------------------------------------------------

  /** `Math.floor(v / gridSize)`. */
  function FloorDiv(v: real, gridSize: int): int
    requires gridSize >= 1
  {
    (v / gridSize as real).Floor
  }

  /**
   * The column (or row) index, counted from the grid's own origin, of the cell
   * that holds world coordinate 0; the tool renumbers cells so that this one is 0.
   */
  function TopLeft(offset: real, gridSize: int): int
    requires gridSize >= 1
  {
    FloorDiv(0.0 - offset, gridSize)
  }

  /**
   * `gridToCanvasCoords`: the world-space top-left corner of a cell, undoing the
   * renumbering relative to the cell that holds world coordinate 0.
   */
  function GridToCanvasCoords(row: int, col: int, gridOffset: Point, gridSize: int): (p: Point)
    requires gridSize >= 1
    ensures row == 0 && col == 0 ==> InSquare(ORIGIN, p, gridSize)
  {
    var realCol := col + TopLeft(gridOffset.x, gridSize);
    var realRow := row + TopLeft(gridOffset.y, gridSize);
    var p := Point(realCol as real * gridSize as real + gridOffset.x, realRow as real * gridSize as real + gridOffset.y);
    assert row == 0 && col == 0 ==> InSquare(ORIGIN, p, gridSize) by {
      if row == 0 && col == 0 {
        TopLeftBounds(realCol, gridOffset.x, gridSize);
        TopLeftBounds(realRow, gridOffset.y, gridSize);
      }
    }
    p
  }

  /** World coordinate 0 lies in the square of the column (or row) `k` that `TopLeft` picks. */
  lemma TopLeftBounds(k: int, offset: real, gridSize: int)
    requires gridSize >= 1 && k == TopLeft(offset, gridSize)
    ensures k as real * gridSize as real + offset <= 0.0 < k as real * gridSize as real + offset + gridSize as real
  {
    var v := 0.0 - offset;
    var j := FloorDiv(v, gridSize);
    FloorDivBounds(v, gridSize);
    var m := j as real * gridSize as real;
    assert m <= v < m + gridSize as real;
    assert j == k;
  }

  /** The world point shown at a canvas pixel: undo the pan, then the zoom. */
  function CanvasToWorld(canvasX: real, canvasY: real, canvasOffset: Point, zoom: real): Point
    requires zoom > 0.0
  {
    Point((canvasX - canvasOffset.x) / zoom, (canvasY - canvasOffset.y) / zoom)
  }

  /** The world point `w` lies in the half-open square of side `gridSize` whose top-left corner is `o`. */
  predicate InSquare(w: Point, o: Point, gridSize: int) {
    && o.x <= w.x < o.x + gridSize as real
    && o.y <= w.y < o.y + gridSize as real
  }

  /**
   * `canvasToGridCoords`: the cell under a canvas pixel. The cell returned is
   * the one whose square contains the pixel's world point.
   */
  function CanvasToGridCoords(canvasX: real, canvasY: real, canvasOffset: Point, zoom: real,
                              gridOffset: Point, gridSize: int): (c: Cell)
    requires zoom > 0.0 && gridSize >= 1
    ensures InSquare(CanvasToWorld(canvasX, canvasY, canvasOffset, zoom),
                     GridToCanvasCoords(c.row, c.col, gridOffset, gridSize), gridSize)
  {
    var worldX := (canvasX - canvasOffset.x) / zoom;
    var worldY := (canvasY - canvasOffset.y) / zoom;
    var rawCol := FloorDiv(worldX - gridOffset.x, gridSize);
    var rawRow := FloorDiv(worldY - gridOffset.y, gridSize);
    FloorDivBounds(worldX - gridOffset.x, gridSize);
    FloorDivBounds(worldY - gridOffset.y, gridSize);
    var c := Cell(rawRow - TopLeft(gridOffset.y, gridSize), rawCol - TopLeft(gridOffset.x, gridSize));
    assert GridToCanvasCoords(c.row, c.col, gridOffset, gridSize) ==
      Point(rawCol as real * gridSize as real + gridOffset.x, rawRow as real * gridSize as real + gridOffset.y);
    assert CanvasToWorld(canvasX, canvasY, canvasOffset, zoom) == Point(worldX, worldY);
    c
  }

  /** `k = floor(v / g)` puts `v` in the half-open interval `[k*g, k*g + g)`. */
  lemma FloorDivBounds(v: real, gridSize: int)
    requires gridSize >= 1
    ensures var k := FloorDiv(v, gridSize) as real;
            k * gridSize as real <= v < k * gridSize as real + gridSize as real
  {
    var g := gridSize as real;
    var q := v / g;
    var k := q.Floor as real;
    assert q * g == v;
    assert k <= q < k + 1.0;
    ScaleInterval(q, k, g, v);
  }

  /** Squares of different cells do not overlap: a world point lies in the square of at most one cell. */
  lemma SquareDeterminesCell(w: Point, gridOffset: Point, gridSize: int, c: Cell, d: Cell)
    requires gridSize >= 1
    requires InSquare(w, GridToCanvasCoords(c.row, c.col, gridOffset, gridSize), gridSize)
    requires InSquare(w, GridToCanvasCoords(d.row, d.col, gridOffset, gridSize), gridSize)
    ensures c == d
  {
    var tx := TopLeft(gridOffset.x, gridSize);
    var ty := TopLeft(gridOffset.y, gridSize);
    var g := gridSize as real;
    assert GridToCanvasCoords(c.row, c.col, gridOffset, gridSize) ==
      Point((c.col + tx) as real * g + gridOffset.x, (c.row + ty) as real * g + gridOffset.y);
    assert GridToCanvasCoords(d.row, d.col, gridOffset, gridSize) ==
      Point((d.col + tx) as real * g + gridOffset.x, (d.row + ty) as real * g + gridOffset.y);
    SameMultiple(c.col + tx, d.col + tx, gridSize, w.x - gridOffset.x);
    SameMultiple(c.row + ty, d.row + ty, gridSize, w.y - gridOffset.y);
  }

  /**
   * Every pixel whose world point lies in the half-open square
   * `[x, x + gridSize) x [y, y + gridSize)` of a cell maps to that cell.
   */
  lemma SquareMapsToCell(canvasX: real, canvasY: real, canvasOffset: Point, zoom: real,
                         gridOffset: Point, gridSize: int, row: int, col: int)
    requires zoom > 0.0 && gridSize >= 1
    requires InSquare(CanvasToWorld(canvasX, canvasY, canvasOffset, zoom),
                      GridToCanvasCoords(row, col, gridOffset, gridSize), gridSize)
    ensures CanvasToGridCoords(canvasX, canvasY, canvasOffset, zoom, gridOffset, gridSize) == Cell(row, col)
  {
    var c := CanvasToGridCoords(canvasX, canvasY, canvasOffset, zoom, gridOffset, gridSize);
    SquareDeterminesCell(CanvasToWorld(canvasX, canvasY, canvasOffset, zoom), gridOffset, gridSize, c, Cell(row, col));
  }

  /**
   * Where the canvas shows a world point: scale by the zoom, then translate by
   * the pan offset (the transformation the drawing code applies).
   */
  function WorldToCanvas(w: Point, canvasOffset: Point, zoom: real): Point {
    Point(w.x * zoom + canvasOffset.x, w.y * zoom + canvasOffset.y)
  }

  /**
   * Round trip: the pixel at which a cell's world origin is shown, under any
   * pan and any positive zoom, maps back to exactly that cell.
   */
  lemma GridRoundTrip(row: int, col: int, gridOffset: Point, gridSize: int, canvasOffset: Point, zoom: real)
    requires zoom > 0.0 && gridSize >= 1
    ensures var p := WorldToCanvas(GridToCanvasCoords(row, col, gridOffset, gridSize), canvasOffset, zoom);
            CanvasToGridCoords(p.x, p.y, canvasOffset, zoom, gridOffset, gridSize) == Cell(row, col)
  {
    var o := GridToCanvasCoords(row, col, gridOffset, gridSize);
    var p := WorldToCanvas(o, canvasOffset, zoom);
    ZoomCancels(o, canvasOffset, zoom);
    SquareMapsToCell(p.x, p.y, canvasOffset, zoom, gridOffset, gridSize, row, col);
  }

  /** Showing a world point at zoom `zoom` and pan `canvasOffset` and reading it back gives the point. */
  lemma ZoomCancels(w: Point, canvasOffset: Point, zoom: real)
    requires zoom > 0.0
    ensures var p := WorldToCanvas(w, canvasOffset, zoom); CanvasToWorld(p.x, p.y, canvasOffset, zoom) == w
  {
    assert (w.x * zoom + canvasOffset.x) - canvasOffset.x == w.x * zoom;
    assert (w.y * zoom + canvasOffset.y) - canvasOffset.y == w.y * zoom;
  }

  /** The pixel at the pan offset shows world point 0, which is cell (0, 0) whatever the grid offset. */
  lemma PanOriginIsCellZero(canvasOffset: Point, zoom: real, gridOffset: Point, gridSize: int)
    requires zoom > 0.0 && gridSize >= 1
    ensures CanvasToGridCoords(canvasOffset.x, canvasOffset.y, canvasOffset, zoom, gridOffset, gridSize) == Cell(0, 0)
  {
    assert CanvasToWorld(canvasOffset.x, canvasOffset.y, canvasOffset, zoom) == ORIGIN;
  }

  /** The origins of horizontally or vertically adjacent cells are exactly one grid size apart. */
  lemma AdjacentOrigins(row: int, col: int, gridOffset: Point, gridSize: int)
    requires gridSize >= 1
    ensures var o := GridToCanvasCoords(row, col, gridOffset, gridSize);
            && GridToCanvasCoords(row, col + 1, gridOffset, gridSize) == Point(o.x + gridSize as real, o.y)
            && GridToCanvasCoords(row + 1, col, gridOffset, gridSize) == Point(o.x, o.y + gridSize as real)
  {
    var g := gridSize as real;
    MulAddOne((col + TopLeft(gridOffset.x, gridSize)) as real, g);
    MulAddOne((row + TopLeft(gridOffset.y, gridSize)) as real, g);
  }

  // ---------------------------------------------------------------------------
  // getContrastColor
  // ---------------------------------------------------------------------------

  const DARK_TEXT := "#1f2937"
  const LIGHT_TEXT := "#ffffff"

  predicate IsHexDigit(c: char) {
    ('0' <= c <= '9') || ('a' <= c <= 'f') || ('A' <= c <= 'F')
  }

  /** The value of one hexadecimal digit, either case. */
  function HexDigitValue(c: char): (v: nat)
    requires IsHexDigit(c)
    ensures v < 16
  {
    if '0' <= c <= '9' then c as int - '0' as int
    else if 'a' <= c <= 'f' then c as int - 'a' as int + 10
    else c as int - 'A' as int + 10
  }

  /** A colour written `#rrggbb`. */
  predicate IsHexColor(s: string) {
    |s| == 7 && s[0] == '#' && forall i :: 1 <= i < 7 ==> IsHexDigit(s[i])
  }

  /** `parseInt(pair, 16)` for a pair of hexadecimal digits. */
  function ParseHexByte(pair: string): (v: nat)
    requires |pair| == 2 && IsHexDigit(pair[0]) && IsHexDigit(pair[1])
    ensures v < 256
  {
    HexDigitValue(pair[0]) * 16 + HexDigitValue(pair[1])
  }

  function Red(hex: string): nat requires IsHexColor(hex) { ParseHexByte(hex[1..3]) }
  function Green(hex: string): nat requires IsHexColor(hex) { ParseHexByte(hex[3..5]) }
  function Blue(hex: string): nat requires IsHexColor(hex) { ParseHexByte(hex[5..7]) }

  /**
   * `getContrastColor`: dark text on a light colour, white text otherwise.
   * The perceived brightness `(299 r + 587 g + 114 b) / 1000` is compared
   * strictly against 128.
   */
  function GetContrastColor(hex: string): (text: string)
    requires IsHexColor(hex)
    ensures text == DARK_TEXT || text == LIGHT_TEXT
    ensures text == DARK_TEXT <==> 299 * Red(hex) + 587 * Green(hex) + 114 * Blue(hex) > 128000
  {
    var r := Red(hex);
    var g := Green(hex);
    var b := Blue(hex);
    var brightness := (r * 299 + g * 587 + b * 114) as real / 1000.0;
    if brightness > 128.0 then DARK_TEXT else LIGHT_TEXT
  }

  /** A colour at least as bright in every channel as one that gets dark text gets dark text too. */
  lemma ContrastMonotone(dim: string, bright: string)
    requires IsHexColor(dim) && IsHexColor(bright)
    requires Red(dim) <= Red(bright) && Green(dim) <= Green(bright) && Blue(dim) <= Blue(bright)
    requires GetContrastColor(dim) == DARK_TEXT
    ensures GetContrastColor(bright) == DARK_TEXT
  {
  }

  /** White gets dark text, black gets white text, and mid grey (brightness exactly 128) gets white text. */
  lemma ContrastExamples()
    ensures GetContrastColor("#ffffff") == DARK_TEXT
    ensures GetContrastColor("#000000") == LIGHT_TEXT
    ensures GetContrastColor("#808080") == LIGHT_TEXT
  {
    assert Red("#ffffff") == 255 && Green("#ffffff") == 255 && Blue("#ffffff") == 255;
    assert Red("#808080") == 128 && Green("#808080") == 128 && Blue("#808080") == 128;
  }
}
