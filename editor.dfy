/**
 * The interaction state of the image-placement editor: the ordered list of placed
 * items (list order is paint order, later items on top), the selected item, the
 * item being dragged, the item being resized, and the last pointer position.
 * Each handler of the page is a method of Editor; pointer positions arrive already
 * in canvas coordinates.
 */
module Editor {
  import opened Wrappers
  import opened Geometry
  import opened Lists

  /** Opaque handle to a decoded bitmap.  Duplicates share the handle of their
      original; the bitmap itself is never copied. */
  datatype Bitmap = Bitmap(handle: nat)

  /** Where an uploaded image is placed. */
  const UploadX: real := 50.0
  const UploadY: real := 50.0

  /** How far a duplicate is offset from its original, in both directions. */
  const DuplicateOffset: real := 20.0

  /** The box of a freshly uploaded image: at (UploadX, UploadY), half its natural
      size, so never with a negative side. */
  function UploadBox(naturalWidth: nat, naturalHeight: nat): (r: Box)
    ensures r.x == UploadX && r.y == UploadY
    ensures 2.0 * r.width == naturalWidth as real && 2.0 * r.height == naturalHeight as real
    ensures 0.0 <= r.width && 0.0 <= r.height
  {
    Box(UploadX, UploadY, naturalWidth as real / 2.0, naturalHeight as real / 2.0)
  }

  /** The two gesture flags of an item. */
  datatype Flags = Flags(dragging: bool, resizing: bool)

  /** The flags an item has after a press meets it as `hit`: a press sets the
      matching flag and never clears one, and a miss changes nothing. */
  function Mark(f: Flags, hit: Hit): (r: Flags)
    ensures (f.dragging ==> r.dragging) && (f.resizing ==> r.resizing)
    ensures hit == OnHandle ==> r.resizing && r.dragging == f.dragging
    ensures hit == OnBody ==> r.dragging && r.resizing == f.resizing
    ensures hit == Miss ==> r == f
  {
    Flags(f.dragging || hit == OnBody, f.resizing || hit == OnHandle)
  }

  /** One placed image.  Items are compared by identity, never by their fields. */
  class Item {
    var img: Bitmap
    var x: real
    var y: real
    var width: real
    var height: real
    var isDragging: bool
    var isResizing: bool

    constructor (img: Bitmap, b: Box)
      ensures this.img == img && Bounds() == b
      ensures !isDragging && !isResizing
    {
      this.img := img;
      x, y, width, height := b.x, b.y, b.width, b.height;
      isDragging, isResizing := false, false;
    }

    /** The item's gesture flags. */
    function CurrentFlags(): Flags
      reads this`isDragging, this`isResizing
    {
      Flags(isDragging, isResizing)
    }

    /** The item's box; it depends on the geometry fields only, not on the flags. */
    function Bounds(): Box
      reads this`x, this`y, this`width, this`height
    {
      Box(x, y, width, height)
    }
  }

  /** The boxes of a list of items, in list order. */
  function BoundsOf(items: seq<Item>): (r: seq<Box>)
    reads items`x, items`y, items`width, items`height
    ensures |r| == |items|
    ensures forall k :: 0 <= k < |items| ==> r[k] == items[k].Bounds()
  {
    if items == [] then [] else [items[0].Bounds()] + BoundsOf(items[1..])
  }

  /** The item at the index a scan found, or `otherwise` when it found none. */
  function ItemAt(items: seq<Item>, found: Option<nat>, otherwise: Item?): Item? {
    match found
    case None => otherwise
    case Some(k) => if k < |items| then items[k] else otherwise
  }

  /** The three item references a press scan updates. */
  datatype Picks = Picks(selected: Item?, dragging: Item?, resizing: Item?)

  /** One step of the press scan, for an item the press meets as `hit`: the handle
      makes it the resizing item, the body the dragging item, and either makes it
      the selection; a miss leaves everything as it was. */
  function Visit(p: Picks, item: Item, hit: Hit): (r: Picks)
    ensures hit != Miss ==> r.selected == item
    ensures hit == OnHandle ==> r.resizing == item && r.dragging == p.dragging
    ensures hit == OnBody ==> r.dragging == item && r.resizing == p.resizing
    ensures hit == Miss ==> r == p
  {
    match hit
    case OnHandle => Picks(item, p.dragging, item)
    case OnBody => Picks(item, item, p.resizing)
    case Miss => p
  }

  /** The press scan over the first n items, in list order, from `start`.  Once the
      selection has changed it is always the current dragging or resizing item. */
  function Scan(items: seq<Item>, hits: seq<Hit>, n: nat, start: Picks): (r: Picks)
    requires n <= |items| == |hits|
    ensures r.selected != start.selected ==> r.selected == r.dragging || r.selected == r.resizing
  {
    if n == 0 then start else Visit(Scan(items, hits, n - 1, start), items[n - 1], hits[n - 1])
  }

  /**
   * What the scan leaves: the selection is the last item met in any way, the
   * resizing item the last one met on its handle, the dragging item the last one
   * met on its body; each keeps its starting value when there is no such item.
   */
  lemma {:induction false} ScanPicksLast(items: seq<Item>, hits: seq<Hit>, n: nat, start: Picks)
    requires n <= |items| == |hits|
    ensures Scan(items, hits, n, start).selected
         == ItemAt(items, LastMatch(hits, n, {OnHandle, OnBody}), start.selected)
    ensures Scan(items, hits, n, start).resizing
         == ItemAt(items, LastMatch(hits, n, {OnHandle}), start.resizing)
    ensures Scan(items, hits, n, start).dragging
         == ItemAt(items, LastMatch(hits, n, {OnBody}), start.dragging)
  {
    if n > 0 {
      ScanPicksLast(items, hits, n - 1, start);
    }
  }

  class Editor {
    var images: seq<Item>
    var selectedImage: Item?
    var draggingImage: Item?
    var resizingImage: Item?
    var startX: real
    var startY: real

    /** No item is placed twice, and the selection, when there is one, is placed.
        The dragging and resizing items are deliberately unconstrained: a press
        followed by a release outside the canvas leaves them set, and the item
        may since have been deleted. */
    ghost predicate Valid()
      reads this
    {
      Distinct(images) && (selectedImage != null ==> selectedImage in images)
    }

    /** The page at load: nothing placed, nothing selected, no gesture. */
    constructor ()
      ensures Valid()
      ensures images == [] && selectedImage == null
      ensures draggingImage == null && resizingImage == null
    {
      images := [];
      selectedImage, draggingImage, resizingImage := null, null, null;
      startX, startY := 0.0, 0.0;
    }

    /** The selection, dragging and resizing references. */
    function CurrentPicks(): Picks
      reads this`selectedImage, this`draggingImage, this`resizingImage
    {
      Picks(selectedImage, draggingImage, resizingImage)
    }

    /** How a press at (px, py) would meet each placed item, in list order. */
    function PressHits(px: real, py: real): (r: seq<Hit>)
      reads this`images, images`x, images`y, images`width, images`height
      ensures |r| == |images|
    {
      HitsAt(BoundsOf(images), px, py)
    }

    /** The dragged item, as a set (empty when there is none). */
    function Dragged(): set<Item>
      reads this
    {
      if draggingImage == null then {} else {draggingImage}
    }

    /** The resized item, as a set (empty when there is none). */
    function Resized(): set<Item>
      reads this
    {
      if resizingImage == null then {} else {resizingImage}
    }

    /** The active drag, seen as a gesture. */
    function DragGesture(): Gesture
      reads this, draggingImage
      requires draggingImage != null
    {
      Gesture(Dragging, draggingImage.Bounds(), startX, startY)
    }

    /** The active resize, seen as a gesture. */
    function ResizeGesture(): Gesture
      reads this, resizingImage
      requires resizingImage != null
    {
      Gesture(Resizing, resizingImage.Bounds(), startX, startY)
    }

    /**
     * The upload handler once the bitmap is decoded: a new item showing `img` is
     * appended (so it is painted on top), at (UploadX, UploadY) with half the
     * bitmap's natural size and no gesture flag.  Nothing else changes.
     */
    method AddUploadedImage(img: Bitmap, naturalWidth: nat, naturalHeight: nat)
      requires Valid()
      modifies this`images
      ensures Valid()
      ensures |images| == |old(images)| + 1 && images[..|old(images)|] == old(images)
      ensures fresh(images[|old(images)|])
      ensures images[|old(images)|].img == img
      ensures images[|old(images)|].Bounds() == UploadBox(naturalWidth, naturalHeight)
      ensures !images[|old(images)|].isDragging && !images[|old(images)|].isResizing
    {
      var item := new Item(img, UploadBox(naturalWidth, naturalHeight));
      DistinctAppend(images, item);
      images := images + [item];
      assert images[..|old(images)|] == old(images);
    }

    /**
     * Mouse press at (px, py).  The point becomes the last pointer position and the
     * selection is cleared; then EVERY item is tested in list order, handle first,
     * and each hit marks that item and makes it the resizing (handle) or dragging
     * (body) item and the selection.  So the last matching item wins, and the
     * dragging and resizing items keep their earlier value when no item matches
     * in that way.  No geometry changes.
     */
    method MouseDown(px: real, py: real)
      requires Valid()
      modifies this`startX, this`startY, this`selectedImage, this`draggingImage, this`resizingImage
      modifies images`isResizing, images`isDragging
      ensures Valid()
      ensures startX == px && startY == py
      ensures CurrentPicks()
           == Scan(images, old(PressHits(px, py)), |images|, Picks(null, old(draggingImage), old(resizingImage)))
      ensures selectedImage == ItemAt(images, LastMatch(old(PressHits(px, py)), |images|, {OnHandle, OnBody}), null)
      ensures resizingImage == ItemAt(images, LastMatch(old(PressHits(px, py)), |images|, {OnHandle}), old(resizingImage))
      ensures draggingImage == ItemAt(images, LastMatch(old(PressHits(px, py)), |images|, {OnBody}), old(draggingImage))
      ensures forall k {:trigger images[k].CurrentFlags()} :: 0 <= k < |images| ==>
        images[k].CurrentFlags() == Mark(old(images[k].CurrentFlags()), old(PressHits(px, py))[k])
    {
      ghost var hits := PressHits(px, py);
      startX, startY := px, py;
      selectedImage := null;
      ScanItems(px, py, hits);
      ScanPicksLast(images, hits, |images|, Picks(null, old(draggingImage), old(resizingImage)));
    }

    /**
     * The scan of a press: PressItem on every item, in list order, with no early
     * exit.  The references end as Scan says; each item's flags are marked by how
     * the press meets it.
     */
    method ScanItems(px: real, py: real, ghost hits: seq<Hit>)
      requires Distinct(images)
      requires hits == PressHits(px, py)
      modifies this`selectedImage, this`draggingImage, this`resizingImage
      modifies images`isResizing, images`isDragging
      ensures CurrentPicks() == Scan(images, hits, |images|, old(CurrentPicks()))
      ensures forall k {:trigger images[k].CurrentFlags()} :: 0 <= k < |images| ==>
        images[k].CurrentFlags() == Mark(old(images[k].CurrentFlags()), hits[k])
    {
      ghost var boxes := BoundsOf(images);
      ghost var start := CurrentPicks();
      var i := 0;
      while i < |images|
        invariant 0 <= i <= |images|
        invariant CurrentPicks() == Scan(images, hits, i, start)
        invariant forall k {:trigger images[k].CurrentFlags()} :: 0 <= k < |images| ==>
          images[k].CurrentFlags() == Mark(old(images[k].CurrentFlags()), if k < i then hits[k] else Miss)
      {
        forall k | 0 <= k < |images| && k != i
          ensures images[k] != images[i]
        {
          DistinctAt(images, k, i);
        }
        HitsAtIndex(boxes, px, py, i);
        assert images[i].Bounds() == boxes[i];
        var hit := PressItem(images[i], px, py);
        i := i + 1;
      }
    }

    /**
     * The per-item step of the press scan: a hit on the handle makes `item` the
     * resizing item, else a hit on its body makes it the dragging item; either way
     * the item gets the matching flag and becomes the selection.  A miss changes
     * nothing.
     */
    method PressItem(item: Item, px: real, py: real) returns (hit: Hit)
      modifies this`selectedImage, this`draggingImage, this`resizingImage
      modifies item`isResizing, item`isDragging
      ensures hit == HitAt(px, py, item.Bounds())
      ensures CurrentPicks() == Visit(old(CurrentPicks()), item, hit)
      ensures item.CurrentFlags() == Mark(old(item.CurrentFlags()), hit)
    {
      hit := HitAt(px, py, item.Bounds());
      if InResizeHandle(px, py, item.Bounds()) {
        resizingImage := item;
        item.isResizing := true;
        selectedImage := item;
      } else if InImage(px, py, item.Bounds()) {
        draggingImage := item;
        item.isDragging := true;
        selectedImage := item;
      }
    }

    /**
     * Mouse move to (px, py).  With no gesture active nothing changes at all.
     * Otherwise the dragged item moves by the delta from the last pointer position,
     * or, when nothing is dragged, the resized item grows by it (dragging wins when
     * both are set); then (px, py) becomes the last position.  One step of
     * Geometry.MoveTo; Geometry.MoveAlongTelescopes sums a run of them.
     */
    method MouseMove(px: real, py: real)
      requires Valid()
      modifies this`startX, this`startY
      modifies Dragged()`x, Dragged()`y, Resized()`width, Resized()`height
      ensures Valid()
      ensures draggingImage == null && resizingImage == null ==>
        startX == old(startX) && startY == old(startY)
      ensures draggingImage != null ==> DragGesture() == MoveTo(old(DragGesture()), px, py)
      ensures draggingImage != null && resizingImage != null && resizingImage != draggingImage ==>
        resizingImage.Bounds() == old(resizingImage.Bounds())
      ensures draggingImage == null && resizingImage != null ==>
        ResizeGesture() == MoveTo(old(ResizeGesture()), px, py)
    {
      if draggingImage == null && resizingImage == null {
        return;
      }
      var dx := px - startX;
      var dy := py - startY;
      if draggingImage != null {
        draggingImage.x := draggingImage.x + dx;
        draggingImage.y := draggingImage.y + dy;
      } else if resizingImage != null {
        resizingImage.width := resizingImage.width + dx;
        resizingImage.height := resizingImage.height + dy;
      }
      startX, startY := px, py;
    }

    /** Mouse release: the dragging and resizing items lose their flag and the
        gesture ends.  Selection, list and geometry are untouched. */
    method MouseUp()
      requires Valid()
      modifies this`draggingImage, this`resizingImage
      modifies Dragged()`isDragging, Resized()`isResizing
      ensures Valid()
      ensures draggingImage == null && resizingImage == null
      ensures old(draggingImage) != null ==> !old(draggingImage).isDragging
      ensures old(resizingImage) != null ==> !old(resizingImage).isResizing
    {
      if draggingImage != null {
        draggingImage.isDragging := false;
      }
      if resizingImage != null {
        resizingImage.isResizing := false;
      }
      draggingImage := null;
      resizingImage := null;
    }

    /**
     * Delete button: with a selection, the list is filtered on identity with the
     * selected item, so exactly that item goes and the others keep their order
     * (Lists.WithoutAt), and the selection is cleared.  Without one, a no-op.
     */
    method DeleteSelectedImage()
      requires Valid()
      modifies this`images, this`selectedImage
      ensures Valid()
      ensures selectedImage == null
      ensures old(selectedImage) == null ==> images == old(images)
      ensures old(selectedImage) != null ==> images == Without<Item>(old(images), old(selectedImage))
      ensures old(selectedImage) != null ==> |images| == |old(images)| - 1
      ensures old(selectedImage) != null ==>
        exists k :: 0 <= k < |old(images)| && old(images)[k] == old(selectedImage) &&
          images == old(images)[..k] + old(images)[k + 1..]
    {
      if selectedImage != null {
        ghost var k :| 0 <= k < |images| && images[k] == selectedImage;
        WithoutAt<Item>(images, k);
        WithoutDistinct<Item>(images, images[k]);
        var victim: Item := selectedImage;
        images := Without(images, victim);
        selectedImage := null;
      }
    }

    /**
     * Duplicate button: with a selection, a new item is appended that shows the same
     * bitmap, offset by DuplicateOffset in x and y, with the same size and no gesture
     * flag.  The selection stays on the original.  Without one, a no-op.
     */
    method DuplicateSelectedImage()
      requires Valid()
      modifies this`images
      ensures Valid()
      ensures old(selectedImage) == null ==> images == old(images)
      ensures old(selectedImage) != null ==>
        |images| == |old(images)| + 1 && images[..|old(images)|] == old(images) &&
        fresh(images[|old(images)|]) &&
        images[|old(images)|].img == selectedImage.img &&
        images[|old(images)|].Bounds() == Translate(selectedImage.Bounds(), DuplicateOffset, DuplicateOffset) &&
        !images[|old(images)|].isDragging && !images[|old(images)|].isResizing
    {
      if selectedImage != null {
        var copy := new Item(selectedImage.img,
          Translate(selectedImage.Bounds(), DuplicateOffset, DuplicateOffset));
        DistinctAppend(images, copy);
        images := images + [copy];
        assert images[..|old(images)|] == old(images);
      }
    }

    /**
     * Print button: the selection is put aside while the canvas is rendered for
     * printing, without resize handles, so the snapshot shows neither a selection
     * border nor a handle.  Then a print window is opened; when it opens, the
     * selection is restored.  When the window cannot be opened (a blocked pop-up),
     * writing to it fails and the handler stops before the restore, so the page is
     * left with no selection.  `shownSelection` and `showHandles` are what the
     * snapshot was rendered with.
     */
    method PrintCanvas(windowOpened: bool) returns (shownSelection: Item?, showHandles: bool)
      requires Valid()
      modifies this`selectedImage
      ensures Valid()
      ensures shownSelection == null && !showHandles
      ensures selectedImage == if windowOpened then old(selectedImage) else null
    {
      var previouslySelected := selectedImage;
      selectedImage := null;
      shownSelection, showHandles := selectedImage, false;
      if !windowOpened {
        return;
      }
      selectedImage := previouslySelected;
    }
  }
}
