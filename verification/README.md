# Weave_Board whiteboard core, modelled in Dafny

Weave_Board is a small whiteboard editor. The user draws lines, rectangles,
freehand strokes and text labels, then selects them to move or resize them,
with undo and redo. This project models the editor's core, all of which lives
in `src/App.tsx`. It covers:

- **the element model** (`createDrawing`);
- **hit-testing** (`nearpoint`, `lieswithinmouse`, `getElementPosition`);
- **the transforms** (`changeCoordinates`, `rezisefn`, the move computation,
  `cursorposition`);
- **the stroke-to-path conversion** (`getSvgPathFromStroke`);
- **the history hook** (`useHistory`);
- **the mouse-driven state machine** (`updateelement`, `handle_mouse_down`,
  `handle_mouse_move`, `handle_mouse_up`, `ClickedAway`).

Modules, one per concern:

- `Elements` (elements.dfy): the `Element` union (Line, Rectangle, Pencil,
  Text, and `Unplaced` for a line or rectangle whose coordinates are all
  `undefined`) and the factory, which fails with `UnknownType` on a tag it does not know.
- `HitTest` (hittest.dfy): zones, the 5-pixel square capture zones, the
  per-kind zone test and the first-match scan of the scene.
- `Transform` (transform.dfy): canonicalisation, resize, move, stroke
  offsets and cursors.
- `Stroke` (stroke.dfy): the path builder. It is a method with a loop, and it
  produces a sequence of path commands over `real` vertices.
- `History` (history.dfy): the undo log as a value (`Log`). It has commit,
  undo and redo, and lemmas relating them.
- `App` (app.dfy): `updateelement` as `UpdatedScene`, and the scene changes
  made by a mouse move (`DragScene`) and a mouse release (`ReleaseScene`).
  It also holds the class `Editor`, whose fields are the history snapshots,
  the history index, `clicked`, `tool`, `selected` and the cursor. Each
  handler is a method, and each method's postcondition ties the new history
  to `History.Commit`/`Undo`/`Redo`. `Editor.Valid()` is the object
  invariant:
  - the history is non-empty and `0 <= index < |history|`;
  - in every snapshot each element's id is its position;
  - a selection exists exactly while a gesture is in progress;
  - the selection's grip fits the element it holds.

Two behaviours of the code look unintended; both are modelled as written:

- On mouse-up after drawing or resizing a line or rectangle, the code
  canonicalises the coordinates of the *last* element of the scene and writes
  them into the *selected* element (src/App.tsx:389-392). When the resized
  element is not the last one, it takes the last element's geometry.
  `ReleaseUsesLastElement` shows one such scene.
  `ReleaseCanonicalizesLast` shows that the last element itself, which is the
  case for every draw gesture, ends up canonical. When the last element is a
  freehand stroke, `changeCoordinates` yields `undefined` for all four
  coordinates (src/App.tsx:97-100) and the selected line or rectangle is
  rebuilt from them: it becomes `Unplaced` and can no longer be hit.
  `ReleaseAfterStrokeLosesGeometry` shows one such scene. The model takes it
  that the sketchy renderer accepts `undefined` arguments without throwing.
- `ClickedAway` commits the entered text through `updateelement`. That is a
  replacing commit of the current snapshot, not an appending one.

`DrawRectangleScenario` (app.dfy) is a usage scenario rather than a model of
source code. It draws a rectangle backwards through the editor's handlers,
then checks the canonical result and an undo and a redo.

Two external computations are parameters of the `Editor`:

- the canvas text measurement (`measure: string -> nat`);
- the square-root collinearity test `insideline` (`onSegment`).

## Model

| member | source | states |
|---|---|---|
| Elements.CreateDrawing | src/App.tsx:11-34 | The factory succeeds exactly for "Line", "Rectangle", "Pencil" and "Text", and fails with UnknownType otherwise. The element it builds carries the given id and tag. A line, rectangle or label gets the given corners. A stroke starts with the single point (x1, y1). A label starts with empty text. A rectangle's renderer handle starts at (x1, y1) and ends at (x2, y2). |
| HitTest.NearPoint | src/App.tsx:45-47 | The pointer is near a handle exactly when it lies strictly inside the 10-pixel square centred on it. |
| HitTest.InBox | src/App.tsx:70 | The inclusive box test can hold only for a box whose first corner is its top-left one. |
| HitTest.OnStroke | src/App.tsx:73-78 | A stroke of fewer than two points is never hit. A two-point stroke is hit exactly when its single segment passes the collinearity test. |
| HitTest.OnStrokeScan | src/App.tsx:73-78 | The scan over consecutive pairs: a stroke of two or more points is hit exactly when its first segment passes the collinearity test or the rest of the stroke is hit. |
| HitTest.StrokeZones | src/App.tsx:72-78 | A stroke is hit, as "inside" only, exactly when some pair of consecutive points passes the collinearity test. |
| HitTest.LiesWithin | src/App.tsx:45-84 | A zone, when found, is one the element's kind can have: lines have top/bottom/inside, rectangles have the four corners and inside, strokes and labels have inside only, and an Unplaced element has none, so it is never hit. The pointer lies in the 5-pixel capture square of the handle the zone names. |
| HitTest.RectangleZones | src/App.tsx:65-71 | For a rectangle, the corners are tried in the order top-left, top-right, bottom-left, bottom-right, and each wins exactly when no earlier one matched. "inside" means no corner matched and the point is in the inclusive box. No match means neither held. |
| HitTest.RectangleHitNearBox | src/App.tsx:45-47 | On an ordered rectangle every hit lies strictly within 5 pixels of the box. |
| HitTest.TextZones | src/App.tsx:79-80 | A label is hit, as "inside" only, exactly when the pointer is in its inclusive box. |
| HitTest.LineZones | src/App.tsx:60-64 | Near the first endpoint a line reports "top". It reports "bottom" exactly when the pointer is near the second endpoint only. It reports "inside" exactly when neither endpoint is near and the collinearity test holds. |
| HitTest.Locate | src/App.tsx:36-43 | Nothing is found exactly when no element of the scene is hit. Otherwise the result is the first hit element in scene order, paired with its zone. |
| HitTest.LocateById | src/App.tsx:284-293 | In a scene whose ids are positions, the element found is the one stored under its own id. It is hit in the reported zone, and no element before it is hit. |
| HitTest.RectangleHitExamples | src/App.tsx:65-71 | On the rectangle (10,10)-(50,50), (10,10) is "tl", (30,30) is "inside" and (100,100) is no match. |
| Transform.Canonical | src/App.tsx:89-102 | A rectangle comes out with x1 <= x2 and y1 <= y2 and the same box. Any other kind comes out with its endpoints lexicographically ordered, as the same pair of points. |
| Transform.ChangeCoordinates | src/App.tsx:89-102 | There are no coordinates exactly for a stroke or an element whose coordinates are undefined. For a rectangle the result is box-ordered and describes the same box. For a line or label it is lexicographically ordered and has the same endpoints. |
| Transform.CanonicalIdempotent | src/App.tsx:89-102 | Canonicalising twice equals canonicalising once. |
| Transform.CanonicalFixedPoints | src/App.tsx:89-102 | Canonicalisation leaves a geometry unchanged exactly when it is already ordered. |
| Transform.Resize | src/App.tsx:104-120 | There is no result exactly for "inside". For any handle, the dragged handle moves to the pointer and the opposite handle keeps its old position. This covers tl/top and br/bottom, and tr (y1 and x2) and bl (x1 and y2). |
| Transform.ResizeDetermined | src/App.tsx:104-120 | The dragged and the opposite handle together determine the resized geometry uniquely. |
| Transform.Moved | src/App.tsx:345-359 | The first corner goes to the pointer minus the grab offset. Width and height are unchanged. |
| Transform.MoveTranslates | src/App.tsx:291-293 | With the offset captured at mouse-down, a move translates both corners by the pointer's displacement. It preserves both orientations. Releasing at the grab point restores the geometry. |
| Transform.StrokeOffsets | src/App.tsx:286-289 | There is one x and one y offset per stroke point, and each point plus its offset is the grab point. |
| Transform.MovedStroke | src/App.tsx:331-337 | There is one point per offset, and each new point plus its offset is the pointer. |
| Transform.StrokeMoveTranslates | src/App.tsx:286-289 | Moving a grabbed stroke translates every point by the pointer's displacement. |
| Transform.CursorFor | src/App.tsx:122-135 | "move" is shown exactly over "inside". "nesw-resize" is shown exactly over tr and bl. The remaining handles get "nwse-resize". |
| Transform.CursorDiagonals | src/App.tsx:122-135 | Opposite handles show the same cursor. The two diagonals show different ones. |
| Transform.HoverCursor | src/App.tsx:320-325 | "default" is shown exactly when nothing is hit. Otherwise the cursor is that of the hit zone. |
| Stroke.Average | src/App.tsx:158 | The average is equidistant from both values and lies between them. |
| Stroke.Midpoint | src/App.tsx:158 | Each coordinate is equidistant from the two averaged coordinates, so it is their average, and lies between them. |
| Stroke.SvgPathFromStroke | src/App.tsx:160-188 | Fewer than 4 vertices give an empty path. Otherwise the path has len-1 commands, plus Z when closed. It is M at vertex 0, then Q with control vertex 1 ending at the midpoint of vertices 1 and 2. Then come the T-anchors: for i in 2..len-2, the midpoint of vertices i and i+1. The path ends with Z exactly when closed, and has len-2 curve segments. |
| History.Initial | src/App.tsx:137-139 | The log starts with one snapshot, and the index points at it. |
| History.Current | src/App.tsx:156 | The state handed back is one of the snapshots. |
| History.Commit | src/App.tsx:140-152 | The log stays valid, and the new state is current. Replace mode keeps length and index and overwrites only entry `index`. Append mode keeps entries 0..index, drops the rest, and appends. Index becomes index+1 and length becomes index+2. |
| History.Undo | src/App.tsx:154 | Entries are unchanged. Undo does nothing at index 0 and otherwise steps back by one. |
| History.Redo | src/App.tsx:155 | Entries are unchanged. Redo does nothing at the last index and otherwise steps forward by one. |
| History.UndoRedoInverse | src/App.tsx:154-155 | A redo reverses an undo that moved the index, and an undo reverses a redo that moved it. |
| History.AppendThenUndo | src/App.tsx:148-154 | After an append there is nothing to redo, and one undo brings back the previous current state. |
| History.ReplaceKeepsUndo | src/App.tsx:143-154 | A replacing commit adds no undo step. |
| History.BranchDiscarded | src/App.tsx:140-155 | From one snapshot, three appends, two undos and one append leave three entries with the index at 2. The redo branch is gone. |
| History.Undos | src/App.tsx:154 | Repeated undo keeps the log valid and its entries unchanged. |
| History.Redos | src/App.tsx:155 | Repeated redo keeps the log valid and its entries unchanged. |
| History.UndosClamp | src/App.tsx:154 | n undos leave the index at index-n, or at 0 once the first entry is reached. |
| History.RedosClamp | src/App.tsx:155 | n redos leave the index at index+n, or at the last entry once it is reached. |
| History.RedosUndoUndos | src/App.tsx:154-155 | When there are at least n earlier entries, n redos take back n undos. |
| App.UpdatedScene | src/App.tsx:243-278 | The update fails exactly on an unknown tag, a missing element, a non-stroke given a stroke update, or a label update without text. Otherwise only element `id` changes and it gets the requested tag. A line or rectangle gets the given corners. A stroke gets (x2, y2) appended. A label is placed at (x1, y1) with the measured text width and height 24. Positional ids are preserved. |
| App.Grab | src/App.tsx:286-294 | A grab records the hit zone. For a line, rectangle or label it records an offset such that pointer minus offset is the element's origin. For a stroke it records per-point offsets. |
| App.DragScene | src/App.tsx:326-370 | States when a move takes effect and what it does. Drawing takes effect exactly when the scene is non-empty and the tool fits its last element: the Pencil tool on a stroke, the Line or Rectangle tool on an element with corners. Moving takes effect exactly when the grabbed element is still in the scene (and, for a stroke, is still a stroke). Resizing takes effect exactly for a line or rectangle held by a handle and still in the scene. A move changes only the dragged element, the last one while drawing, and keeps its type (the tool's type while drawing). Drawing appends the pointer to a stroke, or moves a line's or rectangle's second point to the pointer. Resizing gives the element the resized geometry of the selection. Moving gives a line or rectangle the moved corners, re-measures a label at its new origin, and translates a stroke's points. Positional ids are preserved. |
| App.ReleaseScene | src/App.tsx:384-393 | The release commits a scene (replaces the current snapshot) exactly after drawing or resizing a line or rectangle that is still in a non-empty scene. Then the selected element, and only it, keeps its type and gets the canonical coordinates of the last element of the scene; when that last element is a stroke it becomes Unplaced. |
| App.ReleasedInPlace | src/App.tsx:376-380 | Only a label held by its inside counts as released in place. |
| App.ReleasedInPlaceAtGrab | src/App.tsx:376-380 | A grabbed element counts as released in place exactly when it is a label and the pointer comes up where it was grabbed. |
| App.ReleaseCanonicalizesLast | src/App.tsx:384-393 | Releasing a drawn or resized line or rectangle that is the last element always commits a scene (replaces the current snapshot). The element keeps its type and ends up box-ordered (rectangle) or lexicographically ordered (line), with the same shape; it is Unplaced exactly when it already was. |
| App.ReleaseAfterStrokeLosesGeometry | src/App.tsx:389-392 | A line resized while a freehand stroke comes after it loses its coordinates on release, and no pointer position hits it afterwards. |
| App.ReleaseUsesLastElement | src/App.tsx:389-392 | A rectangle resized while a line comes after it takes the line's canonical coordinates on release. |
| App.MoveGestureTranslates | src/App.tsx:291-293 | A line or rectangle grabbed at (x0, y0) that is still in the scene is always moved when dragged to (x, y), and is translated by (x-x0, y-y0). The following release does not change the scene, so a move is not canonicalised. |
| App.Editor.constructor | src/App.tsx:213-216 | The editor starts with one empty snapshot, no gesture, no selection, the Text tool and the default cursor. |
| App.Editor.SetTool | src/App.tsx:412 | Only the tool changes. |
| App.Editor.SetState | src/App.tsx:140-152 | The history changes exactly as History.Commit says, and the invariant is kept. |
| App.Editor.Undo | src/App.tsx:154 | The history changes exactly as History.Undo says. |
| App.Editor.Redo | src/App.tsx:155 | The history changes exactly as History.Redo says. |
| App.Editor.MouseDown | src/App.tsx:280-316 | Mouse-down is ignored while writing. In select mode, a miss changes nothing. A hit selects the grabbed element, appends a copy of the current scene, and starts moving ("inside") or resizing. With a drawing tool, the element built at the pointer with id = scene length is appended and selected, and the state becomes write for Text and draw otherwise. An unknown tool changes nothing. |
| App.Editor.MouseMove | src/App.tsx:318-371 | In select mode the cursor becomes that of the zone under the pointer. The scene computed by DragScene replaces the current snapshot. Gesture state and selection are unchanged. |
| App.Editor.MouseUp | src/App.tsx:373-398 | A label released where it was grabbed switches to write. Otherwise the scene computed by ReleaseScene replaces the current snapshot, and the gesture ends unless writing. |
| App.Editor.ClickedAway | src/App.tsx:400-405 | The label being written gets the entered text, is re-measured, and replaces the current snapshot. The gesture ends and the selection is cleared. |

## Left out

- Rendering is not modelled: `drawElement`, the rough.js canvas, and the
  perfect-freehand outline (`getStroke`), whose polygon is taken as the input of
  `SvgPathFromStroke`. The rough.js handle is kept only as the arguments of the
  generator call.
- `insideline` and `distance` use `Math.sqrt` and a tolerance of 4. They are
  the parameter `onSegment`, so no property depends on their arithmetic.
- `measureText` is the parameter `measure`. It returns a whole number of
  pixels, whereas real text widths are fractional.
- The two-decimal `toFixed` formatting of the path string is not modelled.
  Commands and vertices are kept as values.
- Left out as UI plumbing: the focus effect that fills the textarea, the
  JSX toolbar, the textarea placement and the window sizing.
- React's batched state updates are not modelled. Each handler applies its
  updates in order to the editor's fields.
- The callback form of `setstate` is not modelled: the handlers pass it the
  result of applying their callback to the current snapshot.
- App.Editor.Undo: objects are values in the model, so snapshots never share
  an element. In the source, the stroke update of `updateelement`
  (src/App.tsx:251-254) assigns `points` on the element object, which the
  shallow copy of the array shares with every snapshot holding it. Only
  the canvas has a mouse-up handler, so a freehand draw released over the
  toolbar stays open. After an undo, the next move over the canvas appends
  the point to an object that later snapshots share too, and a redo shows it.
  The model does not capture this aliasing: there, the point goes into the
  current snapshot only.
- App.UpdatedScene: for a line, rectangle or label whose id is past the end
  of the scene, the source writes past the end of the array. The model
  reports `NoSuchElement` and the callers leave the scene unchanged.
- App.DragScene: while drawing with the Line or Rectangle tool over a last
  element without corners (a stroke, or an Unplaced element), the source
  builds a line or rectangle whose first corner is `undefined`. The model
  leaves the scene unchanged. The same holds when the grabbed element's id is
  no longer in the scene after an undo.
- App.ReleaseScene: when the mouse-up of a draw or resize finds an empty
  scene, the source throws before resetting `clicked`. The model leaves the
  scene unchanged and ends the gesture.
- App.Editor.ClickedAway: it requires a gesture in write mode, because the
  textarea that fires it exists only then.
- The `default: throw` of `lieswithinmouse`, `drawElement` and
  `updateelement` for an element of unknown type cannot happen, because
  `Element` is a closed union. Unknown tags reaching the factory or
  `updateelement` are modelled as errors.
