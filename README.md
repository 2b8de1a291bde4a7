# Grid painter: a Dafny model of the annotation kernel

Grid Painter lets a user load an image and lay a square grid over it. A user can then do four things:

- Paint cells by clicking them.
- Label cells with a long press.
- Pan the view with the middle mouse button.
- Export the painted and labelled cells as JSON.

A floor panel names the floors of a building. A statistics panel counts painted cells by colour class.

This project models that kernel in Dafny and proves properties of the model:

- **Cell keys and coordinates** (`CanvasUtils`).
  - The `row,col` key.
  - The pixel-to-cell mapping and its inverse.
  - The contrast-colour choice for labels.
- **The editor** (`GridPainter.GridEditor`). It is a class whose fields are the application's state. Its methods are the mouse, label and reset handlers. Each method states its new state in terms of a pure function of the old state (`TogglePaint`, `SaveLabel`, `PanStep`).
- **The JSON export** (`JsonExport`), modelled as a pure function.
- **The floor panel's forms** (`FloorManagement.FloorForm`), the floor key, and the floor selector's stable sort.
- **The colour-class counts** (`ViewControls`).

Supporting modules:

- `Text`: JavaScript's `trim`, integer template strings, `Number` on integers, `split` and ASCII `toUpperCase`.
- `RealArith`: small facts about products of reals.
- `Sets`: set cardinalities.
- `Constants`: the palette and the defaults.
- `Wrappers`: `Option`.

Modelling choices:

- Coordinates, offsets and the zoom are exact reals.
- The grid size is taken to be an integer of at least 1. The source does not enforce this; see "## Left out".
- Cell maps are keyed by `Cell(row, col)` rather than by the key string. `CanvasUtils.KeyRoundTrip` and `CanvasUtils.CoordsToKeyInjective` justify this: the string keys and the cells are in one-to-one correspondence.
- The browser's long-press timer is the event `LongPressTimerFired`. The field `pendingTimer` records which cell's timer is running.
- The floor panel does not own the floors. Each confirmed form returns a `FloorCommand` for the owner: create, delete or edit.
- The statistics panel is not mounted by `src/App.tsx`, and its props type the labels as `Map<string, string[]>` (`src/components/ViewControls.tsx:10`) where the editor stores one string per cell. The model gives the panel the editor's own maps, so `ViewControls.LabeledBadgeMatchesExport` assumes the badge and the export read the same label map.

## Model

| member | source | states |
|---|---|---|
| CanvasUtils.KeyRoundTrip | src/utils/canvasUtils.ts:3-9 | parsing the key of any cell, negative rows and columns included, gives back that cell |
| CanvasUtils.CoordsToKeyInjective | src/utils/canvasUtils.ts:3-4 | two cells with the same key are the same cell |
| CanvasUtils.CoordsToKey | src/utils/canvasUtils.ts:3-4 | the key is the row's rendering, one comma, then the column's rendering: its length, the comma's position, and the text before and after the comma |
| CanvasUtils.KeyToCoords | src/utils/canvasUtils.ts:6-9 | a key without a comma does not give a cell |
| CanvasUtils.CanvasToGridCoords | src/utils/canvasUtils.ts:11-26 | the cell returned is one whose half-open square of side `gridSize` contains the pixel's world point |
| CanvasUtils.FloorDivBounds | src/utils/canvasUtils.ts:21-22 | `k = floor(v / g)` puts `v` in `[k*g, k*g + g)` |
| CanvasUtils.SquareDeterminesCell | src/utils/canvasUtils.ts:28-42 | the squares of two different cells never share a point |
| CanvasUtils.SquareMapsToCell | src/utils/canvasUtils.ts:19-25 | every pixel whose world point lies in a cell's square maps to that cell |
| CanvasUtils.GridToCanvasCoords | src/utils/canvasUtils.ts:28-42 | the origin of the renumbered cell (0, 0) is the corner of the square that holds world point (0, 0) |
| CanvasUtils.TopLeftBounds | src/utils/canvasUtils.ts:34-35 | the `topLeft` index is the column (or row) whose square holds world coordinate 0 |
| CanvasUtils.GridRoundTrip | src/utils/canvasUtils.ts:11-42 | for any pan and any positive zoom, the pixel showing a cell's origin maps back to exactly that cell |
| CanvasUtils.ZoomCancels | src/utils/canvasUtils.ts:19-20 | undoing pan and zoom inverts applying them |
| CanvasUtils.PanOriginIsCellZero | src/utils/canvasUtils.ts:21-25 | the pixel at the pan offset maps to cell (0, 0) whatever the grid offset |
| CanvasUtils.AdjacentOrigins | src/utils/canvasUtils.ts:36-41 | the origins of horizontally or vertically adjacent cells are exactly `gridSize` apart in x or in y |
| CanvasUtils.GetContrastColor | src/utils/canvasUtils.ts:44-50 | the result is `#1f2937` or `#ffffff`; it is `#1f2937` exactly when `299 r + 587 g + 114 b > 128000` |
| CanvasUtils.ContrastMonotone | src/utils/canvasUtils.ts:48-49 | a colour at least as bright in every channel as one that gets dark text also gets dark text |
| CanvasUtils.ContrastExamples | src/utils/canvasUtils.ts:48-49 | white gets dark text; black and the mid grey of brightness exactly 128 get white text (the comparison is strict) |
| Text.Trim | src/App.tsx:374-379 | `trim` keeps neither leading nor trailing whitespace, and gives `""` exactly when the input is all whitespace |
| Text.TrimDropsOnlyWhitespace | src/App.tsx:374-379 | what `trim` keeps is one contiguous slice of its input, and every character it drops before or after that slice is whitespace |
| Text.TrimOfTrimmed | src/App.tsx:374-379 | a string with no whitespace at either end is left as it is |
| Text.TrimIdempotent | src/App.tsx:374-379 | trimming twice is the same as trimming once |
| Text.IntRoundTrip | src/utils/canvasUtils.ts:3-7 | `Number` of the template string of an integer gives back the integer |
| Text.SplitAtFirst | src/utils/canvasUtils.ts:7 | splitting at a separator that the first part lacks yields that part first |
| Text.SplitFirstAt | src/components/FloorManagement.tsx:48 | splitting `a + "_" + b` at the first `_` gives `a` and `b` when `a` has no `_` |
| GridPainter.TogglePaint | src/App.tsx:333-346 | a click erases the cell when it holds exactly the paint colour and otherwise paints it in that colour; no other cell changes |
| GridPainter.ToggleTwiceRestores | src/App.tsx:336-344 | two clicks with the same colour on an unpainted cell, or on a cell in that colour, restore the painting |
| GridPainter.ToggleTwiceOverOtherColorErases | src/App.tsx:336-344 | on a cell painted in another colour, two clicks leave the cell unpainted |
| GridPainter.TogglePreservesWellFormed | src/App.tsx:333-346 | painting in a non-empty colour keeps every stored colour non-empty |
| GridPainter.SaveLabel | src/App.tsx:373-380 | input that is all whitespace removes the cell's label; other input stores its trimmed text; other cells keep their labels |
| GridPainter.SaveLabelPreservesWellFormed | src/App.tsx:373-380 | a stored label is never empty and never starts or ends with whitespace |
| GridPainter.SaveStoredLabelIsNoOp | src/App.tsx:371-386 | opening a labelled cell's editor and saving it unchanged leaves the labels as they were |
| GridPainter.PanStep | src/App.tsx:306-312 | one drag step moves the pan offset by exactly the pointer's displacement since the last step, and not at all when the pointer has not moved |
| GridPainter.PanTelescopes | src/App.tsx:305-313 | after a drag, the pan offset equals the initial offset plus the last pointer position minus the drag's start |
| GridPainter.GridEditor.constructor | src/App.tsx:63-106 | the initial state: no image, grid size 20, zoom 1, the first palette colour, no painting, no labels, nothing pressed or dragged |
| GridPainter.GridEditor.ImageLoaded | src/App.tsx:239-248 | a new image resets painting, labels, grid offset, pan and zoom |
| GridPainter.GridEditor.CellAt | src/App.tsx:275-285 | the pressed cell is the one whose square contains the world point under the pointer |
| GridPainter.GridEditor.MouseDown | src/App.tsx:256-300 | nothing happens without an image; the middle button starts a drag at the pointer; the left button records the cell under the pointer, clears the long-press flag and starts that cell's timer |
| GridPainter.GridEditor.MouseMove | src/App.tsx:302-316 | during a drag the pan offset moves by the pointer's displacement and the drag restarts at the pointer; otherwise nothing changes |
| GridPainter.GridEditor.MouseUp | src/App.tsx:318-350 | a release that ends a drag only ends it and never paints; a left release over an image stops the timer and toggles the pressed cell unless the press was long |
| GridPainter.GridEditor.MouseLeave | src/App.tsx:352-361 | leaving the canvas clears the timer, the pressed cell, the long-press flag and any drag |
| GridPainter.GridEditor.LongPressTimerFired | src/App.tsx:291-296 | the press becomes long and the label editor opens on the pressed cell, filled with its label or `""` |
| GridPainter.GridEditor.EditLabelInput | src/App.tsx:810 | the label input holds the typed text |
| GridPainter.GridEditor.SaveLabelEdit | src/App.tsx:371-386 | the edited cell's labels change as `SaveLabel` says, and the editor closes and empties |
| GridPainter.GridEditor.CancelLabelEdit | src/App.tsx:388-392 | the editor closes and empties, and no label changes |
| GridPainter.GridEditor.LabelKeyDown | src/App.tsx:823-826 | Enter saves, Escape cancels, any other key changes nothing |
| GridPainter.GridEditor.SetPaintColor | src/App.tsx:66 | later clicks paint with the chosen colour |
| GridPainter.GridEditor.ClearPaintedCells | src/App.tsx:394 | all painting is erased and the labels stay |
| GridPainter.GridEditor.ClearLabels | src/App.tsx:395 | all labels are erased and the painting stays |
| GridPainter.GridEditor.ClearAll | src/App.tsx:396-399 | painting and labels are both erased |
| GridPainter.GridEditor.ResetGrid | src/App.tsx:401-407 | both offsets go to zero, zoom goes to its default, and painting and labels are erased |
| GridPainter.GridEditor.ResetZoom | src/App.tsx:409-412 | zoom goes to its default and the pan to zero; painting and labels stay |
| GridPainter.ShortClick | src/App.tsx:256-350 | a left press and release over the image toggles the cell under the pointer and opens no editor |
| GridPainter.LongPress | src/App.tsx:256-350 | a left press whose timer fires before the release paints nothing and opens the label editor on the pressed cell |
| JsonExport.MinCell | src/App.tsx:119-124 | the chosen cell precedes every other cell of the set in row-then-column order |
| JsonExport.SortedCells | src/App.tsx:119-124 | the union's cells, each exactly once, in strictly ascending row-then-column order |
| JsonExport.FindColor | src/App.tsx:141 | the position of the first palette entry with the colour, or none when no entry has it |
| JsonExport.CurrentJsonData | src/App.tsx:109-135 | nothing painted or labelled gives the no-data message; otherwise the counts, and one record per painted or labelled cell, strictly ascending by row then column |
| JsonExport.Record | src/App.tsx:136-153 | a record names its own cell; it is painted exactly when the cell has a non-empty colour and labelled exactly when it has a non-empty label; `color` and `colorName` are present exactly when it is painted, `label` exactly when it is labelled; the colour is upper-cased and the label is the cell's label |
| JsonExport.ColorName | src/App.tsx:140-142 | the name is either the colour itself or the name of a palette entry with that colour, and a non-empty colour never gets an empty name |
| JsonExport.RecordFacts | src/App.tsx:136-153 | in each record, `isPainted` holds exactly when the cell is painted and `hasLabel` exactly when it is labelled; `color` is the upper-cased colour; `colorName` is the colour's palette name or the colour itself; `label` is the label |
| JsonExport.ColorNameOfPalette | src/utils/constants.ts:8-21 | every palette colour is exported under its own palette name |
| JsonExport.ColorNameOutsidePalette | src/App.tsx:140-142 | a colour that is not in the palette is exported under itself |
| JsonExport.ExportCountsAddUp | src/App.tsx:127-130 | the total count is at most the painted count plus the labelled count, and at least either of them |
| FloorManagement.FloorKey | src/components/FloorManagement.tsx:48 | the key is the number's rendering, one `_`, then the name |
| FloorManagement.FloorKeyRoundTrip | src/components/FloorManagement.tsx:48 | splitting a floor's key at its first `_` gives back the floor's number and name, underscores in the name included |
| FloorManagement.FloorKeyInjective | src/components/FloorManagement.tsx:64 | two floors with the same key are the same floor |
| FloorManagement.Insert | src/components/FloorManagement.tsx:253-254 | inserting into a list sorted by floor number keeps it sorted |
| FloorManagement.SortByNumber | src/components/FloorManagement.tsx:252-254 | the options are sorted by floor number |
| FloorManagement.SortByNumberPermutes | src/components/FloorManagement.tsx:252-254 | the options are the floors map's entries, each as often as it occurs |
| FloorManagement.SortByNumberStable | src/components/FloorManagement.tsx:253-254 | floors with equal numbers keep their map order |
| FloorManagement.FloorSelector | src/components/FloorManagement.tsx:240-259 | the selector is shown exactly when there is a current floor and more than one floor; its options are all the floors map's entries, each as often as it occurs, sorted by number, and its value is the current floor's key |
| FloorManagement.SelectedOptionIsCurrent | src/components/FloorManagement.tsx:245-258 | when entries are keyed by their floor's key, the selector's value matches an option exactly when that option is the current floor |
| FloorManagement.FloorForm.constructor | src/components/FloorManagement.tsx:27-32 | the form starts with an empty name, number 0 and both dialogs closed |
| FloorManagement.FloorForm.SetNewFloorName | src/components/FloorManagement.tsx:105 | the name field holds the typed text |
| FloorManagement.FloorForm.SetNewFloorNumber | src/components/FloorManagement.tsx:112 | the number field holds the entered number |
| FloorManagement.FloorForm.CanCreate | src/components/FloorManagement.tsx:117 | the Create button (here and in the compact form at line 225) is enabled exactly when the name is not all whitespace |
| FloorManagement.FloorForm.HandleCreateFloor | src/components/FloorManagement.tsx:34-40 | a blank name does nothing; otherwise it asks for a floor with the trimmed name and the entered number, empties the name and moves the number on by one; it makes a request exactly when the Create button was enabled |
| FloorManagement.FloorForm.HandleDeleteRequest | src/components/FloorManagement.tsx:42-44 | the delete confirmation opens |
| FloorManagement.FloorForm.HandleDeleteConfirm | src/components/FloorManagement.tsx:46-52 | deletion of the current floor's key is requested only when there is a current floor, and the confirmation always closes |
| FloorManagement.FloorForm.HandleDeleteCancel | src/components/FloorManagement.tsx:421 | the delete confirmation closes |
| FloorManagement.FloorForm.HandleEditRequest | src/components/FloorManagement.tsx:54-60 | the edit form opens on the current floor's name and number; without a current floor nothing happens |
| FloorManagement.FloorForm.SetEditFloorName | src/components/FloorManagement.tsx:337 | the edit name field holds the typed text |
| FloorManagement.FloorForm.SetEditFloorNumber | src/components/FloorManagement.tsx:357 | the edit number field holds the entered number |
| FloorManagement.FloorForm.HandleEditConfirm | src/components/FloorManagement.tsx:62-68 | only with a current floor and a name that is not blank does it ask to re-key the old key to the trimmed name and the new number, and only then does the form close |
| FloorManagement.FloorForm.HandleEditCancel | src/components/FloorManagement.tsx:370 | the edit form closes |
| FloorManagement.EditUnchanged | src/components/FloorManagement.tsx:54-68 | editing a floor without changing anything asks to re-key it under its own key |
| ViewControls.CountColored | src/components/ViewControls.tsx:20-28 | a class count never exceeds the number of painted cells, and it is zero exactly when no painted cell has a colour of the class |
| ViewControls.WalkwayCount | src/components/ViewControls.tsx:20-22 | the walkway count is at most the number of painted cells, and zero exactly when no cell is painted `#16a34a` |
| ViewControls.PoiCount | src/components/ViewControls.tsx:23-25 | the point-of-interest count is at most the number of painted cells, and zero exactly when no cell is painted `#dc2626` |
| ViewControls.ConnectionCount | src/components/ViewControls.tsx:26-28 | the connection count is at most the number of painted cells, and zero exactly when no cell has one of the three connection colours |
| ViewControls.CategoryCountsBounded | src/components/ViewControls.tsx:20-28 | the walkway, point-of-interest and connection classes are disjoint, so their counts add up to at most the number of painted cells |
| ViewControls.CountDisjoint | src/components/ViewControls.tsx:20-28 | the counts of disjoint colour classes add up to the count of their union |
| ViewControls.PaintFreshCell | src/components/ViewControls.tsx:20-28 | painting a fresh cell adds one to the count of each class holding its colour and changes no other count |
| ViewControls.EraseCell | src/components/ViewControls.tsx:20-28 | erasing a cell removes one from its colour's class count |
| ViewControls.CountsDependOnColorsOnly | src/components/ViewControls.tsx:20-28 | the counts depend only on the cells' colours |
| ViewControls.CountsAreCaseSensitive | src/components/ViewControls.tsx:21 | colours match exactly: `#16A34A` is not counted as a walkway and `#16a34a` is |
| ViewControls.LabeledBadgeMatchesExport | src/components/ViewControls.tsx:215 | whenever the export has data, the "Labeled" badge equals the export's `labeledCells` and the number of exported cells that carry a label, assuming the badge is given the same label map the export reads |
| ViewControls.LabeledRecordsAreLabels | src/App.tsx:136-153 | the exported records that carry a label are exactly those of the labelled cells |

## Left out

- Drawing is not modelled. It covers `drawCanvas` and the `draw*` functions of `src/utils/canvasUtils.ts`, which only issue 2D-context calls.
- `resizeImageToFit`, the canvas size and the zoom step and clamp are not modelled. They are floating-point layout rules with no state to prove anything about.
- Numbers are exact, not IEEE doubles.
  - Reals stand in for coordinates, offsets and zoom.
  - Unbounded integers stand in for rows, columns and floor numbers.
  - Rounding, integers beyond 2^53, exponent notation in rendered numbers and fractional or NaN floor numbers are outside the model.
- File reading, image decoding, the PNG data URL, the clipboard and `JSON.stringify`'s text layout are not modelled. The effect of a loaded image is the single event `ImageLoaded`.
- The export's `exportDate` and `exportTime` fields are not modelled. They read the clock through `EXPORT_DATE_FORMAT`, which is not defined in `src/utils/constants.ts`.
- `LONG_PRESS_DURATION` is not modelled, and it is not defined in `src/utils/constants.ts` either. The timer is the abstract event `LongPressTimerFired`.
- GridPainter.GridEditor.MouseDown: a second left press before the first timer fires replaces `pendingTimer`. In the browser the first timer stays scheduled and can still fire later. That orphaned timer is not modelled.
- GridPainter.GridEditor.LongPressTimerFired: the browser callback reads the labels as they were at the press; the model reads the current labels. The two differ when the labels change during a held press: Enter on a focused Clear Labels, Clear All or Reset Grid button, or an image that finishes loading, clears them, and the browser's editor then opens on the label the cell had at the press.
- React's batching of state updates and its stale closures are not modelled. Each handler reads the state as it stands and updates it at once.
- GridPainter.GridEditor.MouseDown: the check that the canvas element is mounted is not modelled. The canvas is taken to be present whenever an image is.
- The grid size, grid offset and label-visibility settings are not modelled. Their setters live in the settings panels, and their slider bounds are HTML attributes. The model keeps only the invariant that the grid size is at least 1.
- GridPainter.GridEditor: a grid size of 0, a negative or a fractional grid size is outside the model. The grid-size number input passes `Number(e.target.value)` straight to `setGridSize` (`src/components/GridControls.tsx:70-76`); its `min="1"` does not stop a typed 0, an emptied field (which gives 0) or a fraction, and `MIN_GRID_SIZE` (`src/utils/constants.ts:24`) is never used to clamp it. The model's cell mapping divides by the grid size and needs it positive.
- The label input's `maxLength` of 100 is not modelled. It is enforced by the browser, not by the handlers.
- CanvasUtils.KeyToCoords returns `None` when either of the first two comma-separated pieces is not a canonical decimal integer, and ignores any further pieces, as the source does. JavaScript's `Number` accepts more: it gives 0 for an empty or blank piece, and numbers for pieces such as `"05"`, `" 5"`, `"+5"`, `"1e2"` or `"0x10"`, so the source reads `"05,3"` as row 5, column 3 where the model gives `None`. Only keys made by `CoordsToKey` are ever stored, and on those the two agree (`CanvasUtils.KeyRoundTrip`).
- CanvasUtils.GetContrastColor requires a well-formed `#rrggbb`. `parseInt` on other text yields NaN, and callers only pass palette or colour-picker values.
- Text.ToUpper upper-cases ASCII letters only. Exported colours are `#rrggbb` strings, which hold no other letters.
- The floors map, switching floors and the per-floor cell store are not modelled. They belong to the panel's owner, which is not part of this model. The panel's commands are its only output.
- The floor panel's icons and styles are not modelled. They are markup only. The "no floors" screen (`src/components/FloorManagement.tsx:101-127`) holds the first create form: its name and number fields and its Create button are the same `newFloorName`, `newFloorNumber` and `handleCreateFloor` as the main form, so `FloorManagement.FloorForm.SetNewFloorName`, `SetNewFloorNumber`, `CanCreate` and `HandleCreateFloor` model it too; only its layout is left out.
