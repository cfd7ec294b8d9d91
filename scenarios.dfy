/**
 * Two press-and-release sequences through the handlers, on items placed by the
 * upload handler, that show consequences of the press scan having no early exit
 * and never resetting the dragging and resizing items.
 */
module Scenarios {
  import opened Geometry
  import opened Editor

  /** A fresh page after two uploads, of an n1 x n1 and then an n2 x n2 bitmap. */
  method TwoUploads(n1: nat, n2: nat) returns (e: Editor, lower: Item, upper: Item)
    ensures e.Valid() && e.images == [lower, upper]
    ensures e.CurrentPicks() == Picks(null, null, null)
    ensures lower.Bounds() == UploadBox(n1, n1) && upper.Bounds() == UploadBox(n2, n2)
    ensures !lower.isDragging && !lower.isResizing && !upper.isDragging && !upper.isResizing
    ensures fresh(e) && fresh(lower) && fresh(upper)
  {
    e := new Editor();
    e.AddUploadedImage(Bitmap(0), n1, n1);
    e.AddUploadedImage(Bitmap(1), n2, n2);
    lower, upper := e.images[0], e.images[1];
  }

  /**
   * Two uploads of a 200x200 bitmap land on the same box (50, 50, 100, 100).  A press
   * inside both bodies marks BOTH items as dragged, while only the later one, which
   * is painted on top, becomes the dragging item and the selection.  The release
   * then clears the flag of that item only: the lower item keeps isDragging set.
   */
  method ReleaseLeavesLowerFlag() returns (e: Editor, lower: Item, upper: Item)
    ensures e.images == [lower, upper] && lower != upper
    ensures e.selectedImage == upper
    ensures e.draggingImage == null && e.resizingImage == null
    ensures lower.isDragging && !upper.isDragging
  {
    e, lower, upper := TwoUploads(200, 200);
    ghost var boxes := BoundsOf(e.images);
    assert boxes == [Box(50.0, 50.0, 100.0, 100.0), Box(50.0, 50.0, 100.0, 100.0)];
    HitsAtIndex(boxes, 60.0, 60.0, 0);
    HitsAtIndex(boxes, 60.0, 60.0, 1);
    assert e.PressHits(60.0, 60.0) == [OnBody, OnBody];
    e.MouseDown(60.0, 60.0);
    assert e.images[0].CurrentFlags().dragging;
    assert Scan(e.images, [OnBody, OnBody], 1, Picks(null, null, null)) == Picks(lower, lower, null);
    assert e.CurrentPicks() == Picks(upper, upper, null);
    e.MouseUp();
  }

  /**
   * A 200x200 upload (box 50, 50, 100, 100) under a 400x400 one (box 50, 50, 200, 200).
   * A press at (145, 145) is on the lower item's handle and on the upper item's body,
   * so it sets the resizing item AND the dragging item, and selects the upper one.
   */
  method HandleAndBodyBothPicked() returns (e: Editor, lower: Item, upper: Item)
    ensures e.Valid() && e.images == [lower, upper] && lower != upper
    ensures e.CurrentPicks() == Picks(upper, upper, lower)
    ensures lower.Bounds() == Box(50.0, 50.0, 100.0, 100.0)
    ensures upper.Bounds() == Box(50.0, 50.0, 200.0, 200.0)
    ensures e.startX == 145.0 && e.startY == 145.0
    ensures fresh(e) && fresh(lower) && fresh(upper)
  {
    e, lower, upper := TwoUploads(200, 400);
    ghost var boxes := BoundsOf(e.images);
    assert boxes == [Box(50.0, 50.0, 100.0, 100.0), Box(50.0, 50.0, 200.0, 200.0)];
    HitsAtIndex(boxes, 145.0, 145.0, 0);
    HitsAtIndex(boxes, 145.0, 145.0, 1);
    assert e.PressHits(145.0, 145.0) == [OnHandle, OnBody];
    e.MouseDown(145.0, 145.0);
    assert Scan(e.images, [OnHandle, OnBody], 1, Picks(null, null, null)) == Picks(lower, null, lower);
  }

  /**
   * After that press, the next move drags the upper item, since dragging has
   * priority, and leaves the lower one, which is also the resizing item, as it was.
   */
  method DraggingWinsOverResizing() returns (e: Editor, lower: Item, upper: Item)
    ensures e.resizingImage == lower && e.draggingImage == upper
    ensures upper.Bounds() == Box(60.0, 55.0, 200.0, 200.0)
    ensures lower.Bounds() == Box(50.0, 50.0, 100.0, 100.0)
  {
    e, lower, upper := HandleAndBodyBothPicked();
    e.MouseMove(155.0, 150.0);
  }
}
