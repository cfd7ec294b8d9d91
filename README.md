# Image-placement editor: interaction state machine

A Dafny model of the pointer and button handlers of a small browser canvas editor
(`script.js`). The user uploads bitmaps, moves them by dragging, resizes them by their
bottom-right handle, deletes or duplicates the selected one, and prints the canvas.

The state consists of:

- an ordered list of placed items, where list order is paint order (the last one is on top);
- three nullable item references: the selection, the item being dragged and the item being resized;
- the last pointer position.

Items are objects compared by identity. Each one holds a bitmap handle, a box
(`x`, `y`, `width`, `height`) and two gesture flags.

Modules:

- `Wrappers` — `Option`.
- `Geometry` — pure functions:
  - the box and the two hit tests, with the handle tested first;
  - `LastMatch`, the index the full press scan ends on;
  - one drag or resize step as a function on a `Gesture` value, and a run of such steps.
- `Lists` — the item list as a value:
  - no repetition;
  - `Without`, the identity filter used by delete.
- `Editor` — classes that follow the source's mutable state.
  - `Item` is an object with the fields above.
  - `Editor` holds the page-level variables as fields, with one method per handler.
  - The press loop is a `while` loop over the list. It calls the per-item step `PressItem`, which is the loop body's callback.
  - Each method states its new state against a `Geometry`/`Lists` function of the old state.
  - The lemmas beside those functions prove what the handlers promise.
- `Scenarios` — concrete handler sequences. They show three behaviours of the press and move handlers that the source has and the model keeps.

Coordinates are `real`. The source only adds, subtracts, compares and halves, so exact
arithmetic agrees with it as long as no rounding occurs (see "## Left out"). Pointer positions reach the handlers already in canvas
coordinates.

## Model

| member | source | states |
|---|---|---|
| Geometry.InImage | script.js:127-130 | The inclusive box test; a box with a negative width or height contains no point. |
| Geometry.InResizeHandle | script.js:133-136 | The inclusive handle test holds exactly when the point is in the HandleSize (10) square whose bottom-right corner is the box's bottom-right corner, whatever the box's own size. |
| Geometry.HitAt | script.js:72-80 | A press meets an item (on handle or body) exactly when the point passes the body test or the handle test. |
| Geometry.HitAtCases | script.js:72-80 | A press meets an item on its handle exactly when the inclusive 10x10 corner test passes, even if the body test passes too. It meets the body exactly when only the inclusive box test passes. Otherwise it is a miss. |
| Geometry.HandleWithinBody | script.js:127-136 | For an item at least 10 wide and 10 high, every point of the handle is also inside the body. |
| Geometry.CornerHitsHandle | script.js:133-136 | The bottom-right corner always hits the handle, whatever the item's size (negative sizes included). |
| Geometry.NegativeSizeBodyEmpty | script.js:127-130 | An item with a negative width or height has no point inside its body. |
| Geometry.HitTranslates | script.js:127-136 | Moving a box by (dx, dy) moves both hit regions with it. |
| Geometry.HitsAt | script.js:71-72 | The per-item hit results of a press, one per item, in list order. |
| Geometry.HitsAtIndex | script.js:71-80 | Entry k of the hit list is how the press meets item k. |
| Geometry.LastMatchIsLast | script.js:71-81 | The scan result is a matching index, no later index matches, and it is None exactly when no item matches. |
| Geometry.SelectionIsLaterMatch | script.js:72-79 | The item a press selects is whichever of the last handle match and the last body match comes later in the list. |
| Geometry.Shift | script.js:94-100 | One gesture step: a drag keeps the width and height, a resize keeps x and y. |
| Geometry.MoveTo | script.js:91-103 | One move keeps the gesture kind, makes the new point the last position, and is undone by shifting back by the opposite delta. |
| Geometry.ShiftAdds | script.js:94-100 | Two successive drag (or resize) steps add up to one step by the summed delta. |
| Geometry.MoveAlongTelescopes | script.js:91-103 | A run of moves equals one move to its final point. The box shifts by the final point minus the start point. |
| Geometry.MoveAlongKeeps | script.js:94-100 | A drag never changes the size, a resize never moves the top-left corner, and the gesture kind is kept. |
| Lists.Without | script.js:141 | The identity filter is never longer than its input. |
| Lists.WithoutMembers | script.js:141 | After filtering out t, exactly the elements other than t remain (both directions). |
| Lists.WithoutDistinct | script.js:141 | Filtering keeps a list free of repetitions. |
| Lists.WithoutAbsent | script.js:141 | Filtering out an element that is not in the list leaves the list unchanged. |
| Lists.WithoutAt | script.js:139-145 | In a repetition-free list, filtering out the element at k removes exactly position k. The rest keep their order and the list is one shorter. |
| Lists.DistinctAppend | script.js:151-159 | Appending a new object keeps the list free of repetitions. |
| Editor.UploadBox | script.js:20-28 | An uploaded item sits at (50, 50) and twice its size is the bitmap's natural size, so no side is negative. |
| Editor.Mark | script.js:74-78 | A press never clears a flag: a handle hit sets isResizing only, a body hit sets isDragging only, and a miss leaves both. |
| Editor.Visit | script.js:72-80 | One callback step on the references: any hit selects the item; a handle hit makes it the resizing item and leaves the dragging item; a body hit does the reverse; a miss changes nothing. |
| Editor.Scan | script.js:71-81 | The fold of the callback over the list; once the selection differs from where the scan started, it is the current dragging or resizing item. |
| Editor.ScanPicksLast | script.js:71-81 | After the scan: the selection is the last item met on its handle or body; the resizing item is the last one met on its handle; the dragging item is the last one met on its body. Each keeps its starting value when no item matches. |
| Editor.Item.constructor | script.js:151-159 | A new item has the given bitmap and box, and both flags false. |
| Editor.Editor.constructor | script.js:4-9 | An empty list, no selection, no gesture. |
| Editor.Editor.AddUploadedImage | script.js:20-28 | Appends one fresh item at (50, 50) with half the natural width and height and both flags false. Earlier items are kept in order and nothing else changes. |
| Editor.Editor.MouseDown | script.js:63-84 | Sets the start point to the press point. The selection, dragging and resizing items are the ones ScanPicksLast describes, scanning from a cleared selection and the old dragging and resizing items. Each item's flags are its old flags plus the flag of how the press met it. No geometry and no list change. The list invariant holds. |
| Editor.Editor.ScanItems | script.js:71-81 | The forEach loop: after visiting every item in order, with no early exit, the references equal the fold of the per-item step and each item's flags are marked by its own hit. |
| Editor.Editor.PressItem | script.js:72-80 | One callback: it returns the hit and makes the item the resizing (handle) or dragging (body) item and the selection. It sets the matching flag. On a miss it changes nothing. |
| Editor.Editor.MouseMove | script.js:87-106 | With no gesture, nothing changes (the frame excludes every item and the start point is kept). When dragging, the dragged item's gesture takes one MoveTo step. When only resizing, the resized item does. A resizing item that is not also dragged keeps its box. Only x,y of the dragged item and width,height of the resized item may change. |
| Editor.Editor.MouseUp | script.js:109-115 | Both references are cleared and the items they pointed at lose the matching flag. The selection, the list and all geometry are outside the frame, so they are unchanged. |
| Editor.Editor.DeleteSelectedImage | script.js:139-145 | With a selection, the list is the identity filter of the old list. It loses exactly the selected position, the others keep their order, and the selection is cleared. No item field changes. Without a selection it is a no-op. |
| Editor.Editor.DuplicateSelectedImage | script.js:148-161 | With a selection, one fresh item is appended with the same bitmap, the box shifted by (20, 20), the same size and both flags false. Earlier items and the selection are unchanged. Without a selection it is a no-op. |
| Editor.Editor.PrintCanvas | script.js:163-215 | The snapshot is rendered with no selection and no handles. When the print window opens, the selection is afterwards what it was before; when it cannot open, the handler stops before the restore and the selection stays cleared. |
| Scenarios.TwoUploads | script.js:20-28 | Two uploads give a two-item list with the upload boxes, no flags and no references. |
| Scenarios.ReleaseLeavesLowerFlag | script.js:109-115 | Two items overlap and a press lands in both bodies. Both get isDragging, and the upper one is dragged and selected. After the release the lower one still has isDragging. |
| Scenarios.HandleAndBodyBothPicked | script.js:71-81 | A press on one item's handle and another item's body sets the resizing item and the dragging item together, and selects the later one. |
| Scenarios.DraggingWinsOverResizing | script.js:94-100 | With both references set, a move drags the dragged item and leaves the resizing item's box as it was. |

## Behaviour kept as the code has it

- **No early exit in the press scan.** The press scan visits every item, so the last matching item in list order wins. This is the topmost one, since later items are painted on top.
- **References are not reset before a press.** The dragging and resizing references are not reset before the scan. A press can therefore leave both set, on different items (`Scenarios.HandleAndBodyBothPicked`). A press that matches nothing keeps them from an earlier press whose release happened off the canvas.
- **More than one item can carry `isDragging` (or `isResizing`).** One might expect at most one item to carry each flag; the code does not keep that:
  - a press flags every matching item;
  - a release clears only the referenced one (`Scenarios.ReleaseLeavesLowerFlag`).

  The flags are never read, so nothing visible depends on this.
- **The dragging and resizing references may point at a deleted item.** This happens after a press, a release outside the canvas, and a Delete. `Editor.Valid` therefore constrains only the list (no repetition) and the selection (placed or null).

## Left out

- Canvas drawing is left out: `drawCanvas`, the resize handle and the selection border (script.js:38-60 and 218-229). It is output to a 2D drawing context, and the first `drawCanvas` is shadowed by the second anyway.
- File reading and image decoding (script.js:12-19, 29-35) are asynchronous browser I/O. `AddUploadedImage` takes the decoded bitmap's natural width and height as parameters. The bitmap itself is an opaque `Bitmap` handle.
- The print window is left out: `toDataURL`, the HTML template, `window.open` and printing (script.js:172-210). It is a foreign platform call. Only the selection save and restore is modelled, together with the no-handles argument of the render. Whether `window.open` returned a window is a parameter of `PrintCanvas`; when it did not, writing to it throws and the restore at script.js:213 is skipped.
- `getMousePos` (script.js:118-124) reads the page layout. The handlers take canvas coordinates directly.
- JavaScript's double-precision arithmetic is left out. The model uses exact reals, which agree with the source for the operations it performs (addition, subtraction, comparison and halving) as long as no rounding occurs.
- The start point is undefined in the source before the first press. The model starts it at (0, 0). It is never read before a press, because a move returns early unless a press started a gesture.
- Editor.Editor.MouseMove: when the dragged item is also the resizing item, it states only the drag step. The resize branch is not taken in that case, so nothing more happens.
