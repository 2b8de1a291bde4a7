/**
 * The grid painter's editing state and its event handlers: painting cells by
 * a short left click, labelling them by a long press, panning the view with
 * the middle button, and the clear and reset actions.
 */
module GridPainter {
  import opened Wrappers
  import opened Text
  import opened CanvasUtils
  import opened Constants

  /** Painted cells: each cell's colour. */
  type PaintMap = map<Cell, string>

  /** Labelled cells: each cell's label text. */
  type LabelMap = map<Cell, string>

  const LEFT_BUTTON := 0
  const MIDDLE_BUTTON := 1

  // ---------------------------------------------------------------------------
  // The state changes, as functions of the old state
  // ---------------------------------------------------------------------------

  /**
   * A short click on `cell` with `color`: a cell that already has exactly this
   * colour is erased, any other cell gets the colour. No other cell changes.
   */
  function TogglePaint(painted: PaintMap, cell: Cell, color: string): (r: PaintMap)
    ensures cell in r <==> !(cell in painted && painted[cell] == color)
    ensures cell in r ==> r[cell] == color
    ensures forall k :: k != cell ==> (k in r <==> k in painted)
    ensures forall k :: k != cell && k in r ==> r[k] == painted[k]
  {
    if cell in painted && painted[cell] == color then painted - {cell} else painted[cell := color]
  }

  /** Clicking the same cell twice with the same colour undoes the first click, unless the cell held another colour before. */
  lemma ToggleTwiceRestores(painted: PaintMap, cell: Cell, color: string)
    requires cell !in painted || painted[cell] == color
    ensures TogglePaint(TogglePaint(painted, cell, color), cell, color) == painted
  {
    var once := TogglePaint(painted, cell, color);
    var twice := TogglePaint(once, cell, color);
    assert twice.Keys == painted.Keys;
  }

  /** On a cell painted in another colour, two clicks erase the cell instead of restoring its colour. */
  lemma ToggleTwiceOverOtherColorErases(painted: PaintMap, cell: Cell, color: string)
    requires cell in painted && painted[cell] != color
    ensures cell !in TogglePaint(TogglePaint(painted, cell, color), cell, color)
  {
  }

  /**
   * Saving the label editor for `cell`: the trimmed input becomes the label,
   * and an input that is empty after trimming removes the label. Labels of
   * other cells do not change.
   */
  function SaveLabel(labels: LabelMap, cell: Cell, input: string): (r: LabelMap)
    ensures AllWhitespace(input) ==> cell !in r
    ensures !AllWhitespace(input) ==> cell in r && r[cell] == Trim(input)
    ensures forall k :: k != cell ==> (k in r <==> k in labels)
    ensures forall k :: k != cell && k in r ==> r[k] == labels[k]
  {
    var text := Trim(input);
    if text == "" then labels - {cell} else labels[cell := text]
  }

  /** Every stored colour is a non-empty string. */
  predicate PaintWellFormed(painted: PaintMap) {
    forall k :: k in painted ==> painted[k] != ""
  }

  /** Every stored label is non-empty and has no whitespace at either end. */
  predicate LabelsWellFormed(labels: LabelMap) {
    forall k :: k in labels ==> labels[k] != "" && IsTrimmed(labels[k])
  }

  lemma TogglePreservesWellFormed(painted: PaintMap, cell: Cell, color: string)
    requires PaintWellFormed(painted) && color != ""
    ensures PaintWellFormed(TogglePaint(painted, cell, color))
  {
  }

  lemma SaveLabelPreservesWellFormed(labels: LabelMap, cell: Cell, input: string)
    requires LabelsWellFormed(labels)
    ensures LabelsWellFormed(SaveLabel(labels, cell, input))
  {
    var r := SaveLabel(labels, cell, input);
    forall k | k in r
      ensures r[k] != "" && IsTrimmed(r[k])
    {
      if k != cell {
        assert r[k] == labels[k];
      }
    }
  }

  /** Re-saving a stored label unchanged leaves the labels as they were. */
  lemma SaveStoredLabelIsNoOp(labels: LabelMap, cell: Cell)
    requires LabelsWellFormed(labels) && cell in labels
    ensures SaveLabel(labels, cell, labels[cell]) == labels
  {
    TrimOfTrimmed(labels[cell]);
    assert Trim(labels[cell]) == labels[cell];
  }

  /** One drag step: the view moves by how far the pointer moved since the last step. */
  function PanStep(offset: Point, dragStart: Point, pointer: Point): (r: Point)
    ensures Sub(r, offset) == Sub(pointer, dragStart)
    ensures pointer == dragStart ==> r == offset
  {
    Add(offset, Sub(pointer, dragStart))
  }

  /** The view offset after a drag that started at `dragStart` and visited the `pointers` in order. */
  function PanAfter(offset: Point, dragStart: Point, pointers: seq<Point>): Point
    decreases |pointers|
  {
    if pointers == [] then offset
    else PanAfter(PanStep(offset, dragStart, pointers[0]), pointers[0], pointers[1..])
  }

  /** However a drag is broken into steps, it moves the view by the pointer's total displacement. */
  lemma {:induction false} PanTelescopes(offset: Point, dragStart: Point, pointers: seq<Point>)
    requires pointers != []
    ensures PanAfter(offset, dragStart, pointers) == Add(offset, Sub(pointers[|pointers| - 1], dragStart))
    decreases |pointers|
  {
    if |pointers| > 1 {
      PanTelescopes(PanStep(offset, dragStart, pointers[0]), pointers[0], pointers[1..]);
    }
  }

  // ---------------------------------------------------------------------------
  // The editor and its event handlers
  // ---------------------------------------------------------------------------

  /**
   * The editing state of the grid painter. `pendingTimer` is the cell whose
   * long-press timer is running, if any; the timer firing is the
   * `LongPressTimerFired` event.
   */
  class GridEditor {
    var hasImage: bool
    var gridSize: int
    var gridOffset: Point
    var paintColor: string
    var paintedCells: PaintMap
    var cellLabels: LabelMap
    var showLabelModal: bool
    var editingCell: Option<Cell>
    var labelInput: string
    var zoom: real
    var pendingTimer: Option<Cell>
    var isLongPress: bool
    var mouseDownCell: Option<Cell>
    var isDragging: bool
    var dragStart: Option<Point>
    var canvasOffset: Point

    ghost predicate Valid()
      reads this
    {
      && gridSize >= 1
      && zoom > 0.0
      && paintColor != ""
      && PaintWellFormed(paintedCells)
      && LabelsWellFormed(cellLabels)
      && (showLabelModal <==> editingCell.Some?)
      && (isDragging <==> dragStart.Some?)
    }

    constructor()
      ensures Valid()
      ensures !hasImage && gridSize == DEFAULT_GRID_SIZE && gridOffset == ORIGIN
      ensures paintColor == DEFAULT_COLORS[0].value
      ensures paintedCells == map[] && cellLabels == map[]
      ensures !showLabelModal && editingCell == None && labelInput == ""
      ensures zoom == DEFAULT_ZOOM && canvasOffset == ORIGIN
      ensures pendingTimer == None && !isLongPress && mouseDownCell == None
      ensures !isDragging && dragStart == None
    {
      hasImage := false;
      gridSize := DEFAULT_GRID_SIZE;
      gridOffset := ORIGIN;
      paintColor := DEFAULT_COLORS[0].value;
      paintedCells := map[];
      cellLabels := map[];
      showLabelModal := false;
      editingCell := None;
      labelInput := "";
      zoom := DEFAULT_ZOOM;
      pendingTimer := None;
      isLongPress := false;
      mouseDownCell := None;
      isDragging := false;
      dragStart := None;
      canvasOffset := ORIGIN;
    }

    /** A new background image has loaded: painting, labels, grid offset, pan and zoom start afresh. */
    method ImageLoaded()
      requires Valid()
      modifies this`hasImage, this`paintedCells, this`cellLabels, this`gridOffset, this`canvasOffset, this`zoom
      ensures Valid()
      ensures hasImage && paintedCells == map[] && cellLabels == map[]
      ensures gridOffset == ORIGIN && canvasOffset == ORIGIN && zoom == DEFAULT_ZOOM
    {
      hasImage := true;
      paintedCells := map[];
      cellLabels := map[];
      gridOffset := ORIGIN;
      canvasOffset := ORIGIN;
      zoom := DEFAULT_ZOOM;
    }

    /** The cell under a pointer at client position (`clientX`, `clientY`) on a canvas whose top-left corner is at (`rectLeft`, `rectTop`). */
    function CellAt(clientX: real, clientY: real, rectLeft: real, rectTop: real): (c: Cell)
      reads this
      requires Valid()
      ensures InSquare(CanvasToWorld(clientX - rectLeft, clientY - rectTop, canvasOffset, zoom),
                       GridToCanvasCoords(c.row, c.col, gridOffset, gridSize), gridSize)
    {
      CanvasToGridCoords(clientX - rectLeft, clientY - rectTop, canvasOffset, zoom, gridOffset, gridSize)
    }

    /**
     * A mouse button goes down on the canvas. Without an image nothing happens.
     * The middle button starts a drag at the pointer; the left button records
     * the cell under the pointer and starts its long-press timer.
     */
    method MouseDown(button: int, clientX: real, clientY: real, rectLeft: real, rectTop: real)
      requires Valid()
      modifies this`isDragging, this`dragStart, this`mouseDownCell, this`isLongPress, this`pendingTimer
      ensures Valid()
      ensures !hasImage || (button != LEFT_BUTTON && button != MIDDLE_BUTTON) ==>
        isDragging == old(isDragging) && dragStart == old(dragStart) &&
        mouseDownCell == old(mouseDownCell) && isLongPress == old(isLongPress) && pendingTimer == old(pendingTimer)
      ensures hasImage && button == MIDDLE_BUTTON ==>
        isDragging && dragStart == Some(Point(clientX, clientY)) &&
        mouseDownCell == old(mouseDownCell) && isLongPress == old(isLongPress) && pendingTimer == old(pendingTimer)
      ensures hasImage && button == LEFT_BUTTON ==>
        var cell := CellAt(clientX, clientY, rectLeft, rectTop);
        mouseDownCell == Some(cell) && !isLongPress && pendingTimer == Some(cell) &&
        isDragging == old(isDragging) && dragStart == old(dragStart)
    {
      if !hasImage {
        return;
      }
      if button == MIDDLE_BUTTON {
        isDragging := true;
        dragStart := Some(Point(clientX, clientY));
        return;
      }
      if button == LEFT_BUTTON {
        var cell := CellAt(clientX, clientY, rectLeft, rectTop);
        mouseDownCell := Some(cell);
        isLongPress := false;
        pendingTimer := Some(cell);
      }
    }

    /** The pointer moves: during a drag the view follows it. */
    method MouseMove(clientX: real, clientY: real)
      requires Valid()
      modifies this`canvasOffset, this`dragStart
      ensures Valid()
      ensures old(isDragging) ==>
        canvasOffset == PanStep(old(canvasOffset), old(dragStart).value, Point(clientX, clientY)) &&
        dragStart == Some(Point(clientX, clientY))
      ensures !old(isDragging) ==> canvasOffset == old(canvasOffset) && dragStart == old(dragStart)
    {
      if isDragging && dragStart.Some? {
        canvasOffset := PanStep(canvasOffset, dragStart.value, Point(clientX, clientY));
        dragStart := Some(Point(clientX, clientY));
      }
    }

    /**
     * A mouse button comes up. It ends a drag if one is under way. Otherwise,
     * for the left button over an image, it cancels the long-press timer and,
     * unless the press was long, toggles the pressed cell in the paint colour.
     */
    method MouseUp(button: int)
      requires Valid()
      modifies this`isDragging, this`dragStart, this`pendingTimer, this`paintedCells, this`mouseDownCell, this`isLongPress
      ensures Valid()
      ensures old(isDragging) ==>
        !isDragging && dragStart == None &&
        pendingTimer == old(pendingTimer) && paintedCells == old(paintedCells) &&
        mouseDownCell == old(mouseDownCell) && isLongPress == old(isLongPress)
      ensures !old(isDragging) && (!hasImage || button != LEFT_BUTTON) ==>
        !isDragging && dragStart == old(dragStart) &&
        pendingTimer == old(pendingTimer) && paintedCells == old(paintedCells) &&
        mouseDownCell == old(mouseDownCell) && isLongPress == old(isLongPress)
      ensures !old(isDragging) && hasImage && button == LEFT_BUTTON ==>
        !isDragging && dragStart == old(dragStart) &&
        pendingTimer == None && mouseDownCell == None && !isLongPress &&
        paintedCells == (if !old(isLongPress) && old(mouseDownCell).Some?
                         then TogglePaint(old(paintedCells), old(mouseDownCell).value, paintColor)
                         else old(paintedCells))
    {
      if isDragging {
        isDragging := false;
        dragStart := None;
        return;
      }
      if !hasImage || button != LEFT_BUTTON {
        return;
      }
      pendingTimer := None;
      if !isLongPress && mouseDownCell.Some? {
        TogglePreservesWellFormed(paintedCells, mouseDownCell.value, paintColor);
        paintedCells := TogglePaint(paintedCells, mouseDownCell.value, paintColor);
      }
      mouseDownCell := None;
      isLongPress := false;
    }

    /** The pointer leaves the canvas: any press and any drag are abandoned. */
    method MouseLeave()
      requires Valid()
      modifies this`pendingTimer, this`mouseDownCell, this`isLongPress, this`isDragging, this`dragStart
      ensures Valid()
      ensures pendingTimer == None && mouseDownCell == None && !isLongPress
      ensures !isDragging && dragStart == None
    {
      pendingTimer := None;
      mouseDownCell := None;
      isLongPress := false;
      isDragging := false;
      dragStart := None;
    }

    /**
     * The long-press timer runs out while the button is still down: the press
     * counts as long, and the label editor opens on the pressed cell with its
     * current label (or an empty input).
     */
    method LongPressTimerFired()
      requires Valid()
      modifies this`pendingTimer, this`isLongPress, this`editingCell, this`labelInput, this`showLabelModal
      ensures Valid()
      ensures old(pendingTimer).None? ==>
        pendingTimer == None && isLongPress == old(isLongPress) && editingCell == old(editingCell) &&
        labelInput == old(labelInput) && showLabelModal == old(showLabelModal)
      ensures old(pendingTimer).Some? ==>
        var cell := old(pendingTimer).value;
        pendingTimer == None && isLongPress && showLabelModal && editingCell == Some(cell) &&
        labelInput == (if cell in cellLabels then cellLabels[cell] else "")
    {
      if pendingTimer.Some? {
        var cell := pendingTimer.value;
        isLongPress := true;
        editingCell := Some(cell);
        labelInput := if cell in cellLabels then cellLabels[cell] else "";
        showLabelModal := true;
        pendingTimer := None;
      }
    }

    /** The label input's text changes. */
    method EditLabelInput(text: string)
      requires Valid()
      modifies this`labelInput
      ensures Valid()
      ensures labelInput == text
    {
      labelInput := text;
    }

    /** Saves the label editor's input for the cell being edited, then closes the editor. */
    method SaveLabelEdit()
      requires Valid()
      modifies this`cellLabels, this`showLabelModal, this`editingCell, this`labelInput
      ensures Valid()
      ensures cellLabels == (if old(editingCell).Some?
                             then SaveLabel(old(cellLabels), old(editingCell).value, old(labelInput))
                             else old(cellLabels))
      ensures !showLabelModal && editingCell == None && labelInput == ""
    {
      if editingCell.Some? {
        SaveLabelPreservesWellFormed(cellLabels, editingCell.value, labelInput);
        cellLabels := SaveLabel(cellLabels, editingCell.value, labelInput);
      }
      showLabelModal := false;
      editingCell := None;
      labelInput := "";
    }

    /** Closes the label editor without changing any label. */
    method CancelLabelEdit()
      requires Valid()
      modifies this`showLabelModal, this`editingCell, this`labelInput
      ensures Valid()
      ensures !showLabelModal && editingCell == None && labelInput == ""
    {
      showLabelModal := false;
      editingCell := None;
      labelInput := "";
    }

    /** A key pressed in the label input: Enter saves, Escape cancels, any other key does nothing. */
    method LabelKeyDown(key: string)
      requires Valid()
      modifies this`cellLabels, this`showLabelModal, this`editingCell, this`labelInput
      ensures Valid()
      ensures key == "Enter" ==>
        !showLabelModal && editingCell == None && labelInput == "" &&
        cellLabels == (if old(editingCell).Some?
                       then SaveLabel(old(cellLabels), old(editingCell).value, old(labelInput))
                       else old(cellLabels))
      ensures key == "Escape" ==>
        !showLabelModal && editingCell == None && labelInput == "" && cellLabels == old(cellLabels)
      ensures key != "Enter" && key != "Escape" ==>
        showLabelModal == old(showLabelModal) && editingCell == old(editingCell) &&
        labelInput == old(labelInput) && cellLabels == old(cellLabels)
    {
      if key == "Enter" {
        SaveLabelEdit();
      }
      if key == "Escape" {
        CancelLabelEdit();
      }
    }

    /** Chooses the colour later clicks paint with. */
    method SetPaintColor(color: string)
      requires Valid() && color != ""
      modifies this`paintColor
      ensures Valid()
      ensures paintColor == color
    {
      paintColor := color;
    }

    method ClearPaintedCells()
      requires Valid()
      modifies this`paintedCells
      ensures Valid()
      ensures paintedCells == map[]
    {
      paintedCells := map[];
    }

    method ClearLabels()
      requires Valid()
      modifies this`cellLabels
      ensures Valid()
      ensures cellLabels == map[]
    {
      cellLabels := map[];
    }

    method ClearAll()
      requires Valid()
      modifies this`paintedCells, this`cellLabels
      ensures Valid()
      ensures paintedCells == map[] && cellLabels == map[]
    {
      paintedCells := map[];
      cellLabels := map[];
    }

    /** Puts the grid and the view back to where they started and erases all painting and labels. */
    method ResetGrid()
      requires Valid()
      modifies this`gridOffset, this`canvasOffset, this`paintedCells, this`cellLabels, this`zoom
      ensures Valid()
      ensures gridOffset == ORIGIN && canvasOffset == ORIGIN && zoom == DEFAULT_ZOOM
      ensures paintedCells == map[] && cellLabels == map[]
    {
      gridOffset := ORIGIN;
      canvasOffset := ORIGIN;
      paintedCells := map[];
      cellLabels := map[];
      zoom := DEFAULT_ZOOM;
    }

    /** Puts the view back to no pan at the default zoom; painting and labels stay. */
    method ResetZoom()
      requires Valid()
      modifies this`zoom, this`canvasOffset
      ensures Valid()
      ensures zoom == DEFAULT_ZOOM && canvasOffset == ORIGIN
    {
      zoom := DEFAULT_ZOOM;
      canvasOffset := ORIGIN;
    }
  }

  // ---------------------------------------------------------------------------
  // Gestures: sequences of events
  // ---------------------------------------------------------------------------

  /** A short left click over the image toggles the cell under the pointer and opens no editor. */
  method ShortClick(e: GridEditor, clientX: real, clientY: real, rectLeft: real, rectTop: real)
    requires e.Valid() && e.hasImage && !e.isDragging
    modifies e
    ensures e.Valid()
    ensures e.paintedCells == TogglePaint(old(e.paintedCells), old(e.CellAt(clientX, clientY, rectLeft, rectTop)), e.paintColor)
    ensures e.cellLabels == old(e.cellLabels) && e.showLabelModal == old(e.showLabelModal)
    ensures e.pendingTimer == None && e.mouseDownCell == None && !e.isLongPress
  {
    e.MouseDown(LEFT_BUTTON, clientX, clientY, rectLeft, rectTop);
    e.MouseUp(LEFT_BUTTON);
  }

  /** A long left press over the image opens the label editor on the pressed cell and paints nothing. */
  method LongPress(e: GridEditor, clientX: real, clientY: real, rectLeft: real, rectTop: real)
    requires e.Valid() && e.hasImage && !e.isDragging
    modifies e
    ensures e.Valid()
    ensures e.paintedCells == old(e.paintedCells) && e.cellLabels == old(e.cellLabels)
    ensures var cell := old(e.CellAt(clientX, clientY, rectLeft, rectTop));
      e.showLabelModal && e.editingCell == Some(cell) &&
      e.labelInput == (if cell in e.cellLabels then e.cellLabels[cell] else "")
  {
    e.MouseDown(LEFT_BUTTON, clientX, clientY, rectLeft, rectTop);
    e.LongPressTimerFired();
    e.MouseUp(LEFT_BUTTON);
  }
}
