/**
 * Pure geometry of the image-placement editor: the box an item occupies on the
 * canvas, the two hit tests a mouse press uses, the scan that decides which item
 * a press lands on, and the arithmetic of one drag or resize step.
 */
module Geometry {
  import opened Wrappers

  /** Side of the square resize handle drawn at an item's bottom-right corner. */
  const HandleSize: real := 10.0

  /** Position (top-left corner) and size of an item, in canvas pixels.  Sizes may
      be zero or negative: resizing never clamps. */
  datatype Box = Box(x: real, y: real, width: real, height: real)

  /** isInImage: the point lies inside the box, borders included.  Only a box with
      no negative side contains any point. */
  predicate InImage(px: real, py: real, b: Box): (r: bool)
    ensures r ==> 0.0 <= b.width && 0.0 <= b.height
  {
    b.x <= px <= b.x + b.width && b.y <= py <= b.y + b.height
  }

  /** The HandleSize square whose bottom-right corner is the box's bottom-right corner. */
  function HandleBox(b: Box): Box {
    Box(b.x + b.width - HandleSize, b.y + b.height - HandleSize, HandleSize, HandleSize)
  }

  /** isInResizeHandle: the point lies inside the handle square, borders included,
      whatever the size of the box itself. */
  predicate InResizeHandle(px: real, py: real, b: Box): (r: bool)
    ensures r <==> InImage(px, py, HandleBox(b))
  {
    b.x + b.width - HandleSize <= px <= b.x + b.width &&
    b.y + b.height - HandleSize <= py <= b.y + b.height
  }

  /** How a press at a point meets one item: the handle is tested first, then the body. */
  datatype Hit = Miss | OnHandle | OnBody

  /** A press meets an item at all exactly when it is in the item's body or handle. */
  function HitAt(px: real, py: real, b: Box): (r: Hit)
    ensures r != Miss <==> InImage(px, py, b) || InResizeHandle(px, py, b)
  {
    if InResizeHandle(px, py, b) then OnHandle
    else if InImage(px, py, b) then OnBody
    else Miss
  }

  /** The handle has priority: a press meets an item on its handle exactly when the
      handle test passes, whether or not the body test passes too; on its body
      exactly when only the body test passes. */
  lemma HitAtCases(px: real, py: real, b: Box)
    ensures HitAt(px, py, b) == OnHandle <==> InResizeHandle(px, py, b)
    ensures HitAt(px, py, b) == OnBody <==> InImage(px, py, b) && !InResizeHandle(px, py, b)
    ensures HitAt(px, py, b) == Miss <==> !InImage(px, py, b) && !InResizeHandle(px, py, b)
  {
  }

  /** For an item at least a handle wide and high, the handle is part of the body. */
  lemma HandleWithinBody(px: real, py: real, b: Box)
    requires HandleSize <= b.width && HandleSize <= b.height
    requires InResizeHandle(px, py, b)
    ensures InImage(px, py, b)
  {
  }

  /** The bottom-right corner always hits the handle, whatever the size, so an item
      shrunk to a negative size can still be grabbed by its handle ... */
  lemma CornerHitsHandle(b: Box)
    ensures HitAt(b.x + b.width, b.y + b.height, b) == OnHandle
  {
  }

  /** ... while its body can no longer be hit anywhere. */
  lemma NegativeSizeBodyEmpty(b: Box)
    requires b.width < 0.0 || b.height < 0.0
    ensures forall px: real, py: real :: !InImage(px, py, b)
  {
  }

  /** How a press at (px, py) meets each box, in list order. */
  function HitsAt(boxes: seq<Box>, px: real, py: real): (r: seq<Hit>)
    ensures |r| == |boxes|
    decreases |boxes|
  {
    if boxes == [] then [] else [HitAt(px, py, boxes[0])] + HitsAt(boxes[1..], px, py)
  }

  /** Entry k of HitsAt is how the press meets box k. */
  lemma {:induction false} HitsAtIndex(boxes: seq<Box>, px: real, py: real, k: nat)
    requires k < |boxes|
    ensures HitsAt(boxes, px, py)[k] == HitAt(px, py, boxes[k])
    decreases |boxes|
  {
    if k > 0 {
      HitsAtIndex(boxes[1..], px, py, k - 1);
    }
  }

  /**
   * Index of the LAST of the first n entries, in list (paint) order, whose hit is
   * one of `kinds`; None when there is none.  With n = |hits| this is what the
   * press handler's full scan without early exit computes.
   */
  function LastMatch(hits: seq<Hit>, n: nat, kinds: set<Hit>): Option<nat>
    requires n <= |hits|
  {
    if n == 0 then None
    else if hits[n - 1] in kinds then Some(n - 1)
    else LastMatch(hits, n - 1, kinds)
  }

  /** LastMatch finds a matching entry, no entry after it (among the first n)
      matches, and it finds none exactly when none of the first n entries matches. */
  lemma {:induction false} LastMatchIsLast(hits: seq<Hit>, n: nat, kinds: set<Hit>)
    requires n <= |hits|
    ensures var r := LastMatch(hits, n, kinds);
      && (r.Some? ==> r.value < n && hits[r.value] in kinds)
      && (r.Some? ==> forall j :: r.value < j < n ==> hits[j] !in kinds)
      && (r.None? <==> forall j :: 0 <= j < n ==> hits[j] !in kinds)
  {
    if n > 0 && hits[n - 1] !in kinds {
      LastMatchIsLast(hits, n - 1, kinds);
    }
  }

  /** The later of two optional indices. */
  function Later(a: Option<nat>, b: Option<nat>): Option<nat> {
    match (a, b)
    case (None, _) => b
    case (_, None) => a
    case (Some(i), Some(j)) => if i < j then b else a
  }

  /** The item a press selects is whichever of the handle match and the body match
      comes later in the list: the selection is always the new resizing or the new
      dragging item, never a third one. */
  lemma {:induction false} SelectionIsLaterMatch(hits: seq<Hit>, n: nat)
    requires n <= |hits|
    ensures LastMatch(hits, n, {OnHandle, OnBody})
         == Later(LastMatch(hits, n, {OnHandle}), LastMatch(hits, n, {OnBody}))
  {
    if n > 0 {
      LastMatchIsLast(hits, n - 1, {OnHandle});
      LastMatchIsLast(hits, n - 1, {OnBody});
      if hits[n - 1] == Miss {
        SelectionIsLaterMatch(hits, n - 1);
      }
    }
  }

  /** Moving an item by (dx, dy), as a drag step or a duplicate offset does. */
  function Translate(b: Box, dx: real, dy: real): Box {
    Box(b.x + dx, b.y + dy, b.width, b.height)
  }

  /** Growing an item by (dx, dy) from its fixed top-left corner, as a resize step does. */
  function Grow(b: Box, dx: real, dy: real): Box {
    Box(b.x, b.y, b.width + dx, b.height + dy)
  }

  /** Moving an item moves its hit regions with it: after a translation by (dx, dy)
      the item answers at p + (dx, dy) exactly as it answered at p before. */
  lemma HitTranslates(px: real, py: real, b: Box, dx: real, dy: real)
    ensures HitAt(px + dx, py + dy, Translate(b, dx, dy)) == HitAt(px, py, b)
  {
  }

  /** Whether the active gesture moves the item or resizes it. */
  datatype Mode = Dragging | Resizing

  /** An active gesture: what it does, the item's box, and the last pointer position. */
  datatype Gesture = Gesture(mode: Mode, box: Box, lastX: real, lastY: real)

  /** One step of a gesture by (dx, dy): a drag keeps the size, a resize keeps the
      top-left corner. */
  function Shift(mode: Mode, b: Box, dx: real, dy: real): (r: Box)
    ensures mode == Dragging ==> r.width == b.width && r.height == b.height
    ensures mode == Resizing ==> r.x == b.x && r.y == b.y
  {
    match mode
    case Dragging => Translate(b, dx, dy)
    case Resizing => Grow(b, dx, dy)
  }

  /** One pointer move to (px, py): the box changes by the delta from the last
      position, and (px, py) becomes the last position.  Moving straight back to
      the previous position undoes the step. */
  function MoveTo(g: Gesture, px: real, py: real): (r: Gesture)
    ensures r.mode == g.mode && r.lastX == px && r.lastY == py
    ensures Shift(g.mode, r.box, g.lastX - px, g.lastY - py) == g.box
  {
    Gesture(g.mode, Shift(g.mode, g.box, px - g.lastX, py - g.lastY), px, py)
  }

  datatype Point = Point(x: real, y: real)

  /** A run of pointer moves along `path`, in order. */
  function MoveAlong(g: Gesture, path: seq<Point>): Gesture
    decreases |path|
  {
    if path == [] then g else MoveAlong(MoveTo(g, path[0].x, path[0].y), path[1..])
  }

  /** Two successive shifts of the same kind add up. */
  lemma ShiftAdds(mode: Mode, b: Box, dx1: real, dy1: real, dx2: real, dy2: real)
    ensures Shift(mode, Shift(mode, b, dx1, dy1), dx2, dy2) == Shift(mode, b, dx1 + dx2, dy1 + dy2)
  {
  }

  /**
   * The deltas of a run of moves telescope: the whole run has the effect of one
   * move straight to its final point, so the item is shifted by the final point
   * minus the point where the gesture started, and the gesture kind is kept.
   */
  lemma {:induction false} MoveAlongTelescopes(g: Gesture, path: seq<Point>)
    requires path != []
    ensures MoveAlong(g, path) == MoveTo(g, path[|path| - 1].x, path[|path| - 1].y)
    decreases |path|
  {
    var g1 := MoveTo(g, path[0].x, path[0].y);
    if |path| > 1 {
      MoveAlongTelescopes(g1, path[1..]);
      var last := path[|path| - 1];
      ShiftAdds(g.mode, g.box, path[0].x - g.lastX, path[0].y - g.lastY,
                last.x - path[0].x, last.y - path[0].y);
    }
  }

  /** A drag never changes the item's size; a resize never moves its top-left corner. */
  lemma {:induction false} MoveAlongKeeps(g: Gesture, path: seq<Point>)
    ensures g.mode == Dragging ==>
      MoveAlong(g, path).box.width == g.box.width && MoveAlong(g, path).box.height == g.box.height
    ensures g.mode == Resizing ==>
      MoveAlong(g, path).box.x == g.box.x && MoveAlong(g, path).box.y == g.box.y
    ensures MoveAlong(g, path).mode == g.mode
    decreases |path|
  {
    if path != [] {
      MoveAlongKeeps(MoveTo(g, path[0].x, path[0].y), path[1..]);
    }
  }
}
