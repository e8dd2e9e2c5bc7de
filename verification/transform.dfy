/**
 * Geometry transforms applied while dragging: canonicalisation
 * (`changeCoordinates`, src/App.tsx:89-102), resizing (`rezisefn`,
 * src/App.tsx:104-120), moving (src/App.tsx:330-360) and the cursor shown over
 * a zone (`cursorposition`, src/App.tsx:122-135).
 */
module Transform {
  import opened Wrappers
  import opened Elements
  import opened HitTest

  function Min(a: int, b: int): int { if a <= b then a else b }
  function Max(a: int, b: int): int { if a <= b then b else a }

  /** Rectangle orientation after canonicalisation: (x1, y1) is the top-left corner. */
  predicate BoxOrdered(c: Coords)
  {
    c.x1 <= c.x2 && c.y1 <= c.y2
  }

  /** Line orientation after canonicalisation: the first endpoint is lexicographically not after the second. */
  predicate LexOrdered(c: Coords)
  {
    c.x1 < c.x2 || (c.x1 == c.x2 && c.y1 <= c.y2)
  }

  /** Both coordinate pairs describe the same axis-aligned box. */
  predicate SameBox(c: Coords, d: Coords)
  {
    multiset{c.x1, c.x2} == multiset{d.x1, d.x2} && multiset{c.y1, c.y2} == multiset{d.y1, d.y2}
  }

  /** Both coordinate pairs describe the same two endpoints. */
  predicate SameEndpoints(c: Coords, d: Coords)
  {
    multiset{Point(c.x1, c.y1), Point(c.x2, c.y2)} == multiset{Point(d.x1, d.y1), Point(d.x2, d.y2)}
  }

  /**
   * The canonical encoding of a two-point geometry: per-axis min/max for a
   * rectangle, the two endpoints in lexicographic order otherwise.
   */
  function Canonical(isRectangle: bool, c: Coords): (r: Coords)
    ensures isRectangle ==> BoxOrdered(r) && SameBox(r, c)
    ensures !isRectangle ==> LexOrdered(r) && SameEndpoints(r, c)
  {
    if isRectangle then Coords(Min(c.x1, c.x2), Min(c.y1, c.y2), Max(c.x1, c.x2), Max(c.y1, c.y2))
    else if c.x1 < c.x2 || (c.x1 == c.x2 && c.y1 < c.y2) then c
    else Coords(c.x2, c.y2, c.x1, c.y1)
  }

  /**
   * `changeCoordinates`: canonicalises an element's geometry. Only the
   * rectangle is ordered per axis; every other kind with coordinates is
   * ordered as a line. A freehand stroke has no coordinates.
   */
  function ChangeCoordinates(e: Element): (r: Option<Coords>)
    ensures r.None? <==> e.Pencil? || e.Unplaced?
    ensures r.Some? && e.Rectangle? ==> BoxOrdered(r.value) && SameBox(r.value, Corners(e).value)
    ensures r.Some? && !e.Rectangle? ==> LexOrdered(r.value) && SameEndpoints(r.value, Corners(e).value)
  {
    match Corners(e)
    case None => None
    case Some(c) => Some(Canonical(e.Rectangle?, c))
  }

  /** Canonicalising twice is canonicalising once. */
  lemma CanonicalIdempotent(isRectangle: bool, c: Coords)
    ensures Canonical(isRectangle, Canonical(isRectangle, c)) == Canonical(isRectangle, c)
  {
  }

  /** Canonicalisation leaves exactly the already ordered geometries alone. */
  lemma CanonicalFixedPoints(isRectangle: bool, c: Coords)
    ensures Canonical(isRectangle, c) == c <==> (if isRectangle then BoxOrdered(c) else LexOrdered(c))
  {
  }

  /** The opposite handle, which a resize keeps in place. */
  function Opposite(z: Zone): (o: Zone)
    requires z != Inside
    ensures o != Inside && o != z
  {
    match z
    case TopLeft => BottomRight
    case BottomRight => TopLeft
    case TopRight => BottomLeft
    case BottomLeft => TopRight
    case Top => Bottom
    case Bottom => Top
  }

  /**
   * `rezisefn`: the geometry after dragging the handle `zone` to the pointer.
   * The dragged handle lands on the pointer and the opposite handle stays
   * where it was; "inside" is not a handle and gives no geometry.
   */
  function Resize(x: int, y: int, zone: Zone, c: Coords): (r: Option<Coords>)
    ensures r.None? <==> zone == Inside
    ensures r.Some? ==> Handle(r.value, zone) == Point(x, y)
    ensures r.Some? ==> Handle(r.value, Opposite(zone)) == Handle(c, Opposite(zone))
  {
    match zone
    case TopLeft => Some(Coords(x, y, c.x2, c.y2))
    case Top => Some(Coords(x, y, c.x2, c.y2))
    case TopRight => Some(Coords(c.x1, y, x, c.y2))
    case BottomLeft => Some(Coords(x, c.y1, c.x2, y))
    case BottomRight => Some(Coords(c.x1, c.y1, x, y))
    case Bottom => Some(Coords(c.x1, c.y1, x, y))
    case Inside => None
  }

  /** The two handles a resize fixes determine the whole geometry. */
  lemma ResizeDetermined(x: int, y: int, zone: Zone, c: Coords, d: Coords)
    requires zone != Inside
    requires Handle(d, zone) == Point(x, y) && Handle(d, Opposite(zone)) == Handle(c, Opposite(zone))
    ensures Resize(x, y, zone, c) == Some(d)
  {
  }

  /**
   * The move computation: the first corner goes to the pointer minus the
   * offset captured at mouse-down, and width and height are kept.
   */
  function Moved(c: Coords, x: int, y: int, offsetX: int, offsetY: int): (r: Coords)
    ensures r.x1 == x - offsetX && r.y1 == y - offsetY
    ensures r.x2 - r.x1 == c.x2 - c.x1 && r.y2 - r.y1 == c.y2 - c.y1
  {
    var width := c.x2 - c.x1;
    var height := c.y2 - c.y1;
    Coords(x - offsetX, y - offsetY, x - offsetX + width, y - offsetY + height)
  }

  function Translated(c: Coords, dx: int, dy: int): Coords
  {
    Coords(c.x1 + dx, c.y1 + dy, c.x2 + dx, c.y2 + dy)
  }

  /**
   * Dragging from the grab point (x0, y0) to (x, y) translates both handles
   * by the pointer's displacement, so a canonical geometry stays canonical
   * and releasing where the drag began restores the original geometry.
   */
  lemma MoveTranslates(c: Coords, x0: int, y0: int, x: int, y: int)
    ensures Moved(c, x, y, x0 - c.x1, y0 - c.y1) == Translated(c, x - x0, y - y0)
    ensures BoxOrdered(c) ==> BoxOrdered(Moved(c, x, y, x0 - c.x1, y0 - c.y1))
    ensures LexOrdered(c) ==> LexOrdered(Moved(c, x, y, x0 - c.x1, y0 - c.y1))
    ensures Moved(c, x0, y0, x0 - c.x1, y0 - c.y1) == c
  {
  }

  /** The per-point offsets from a stroke's points to the grab point. */
  function StrokeOffsets(points: seq<Point>, x: int, y: int): (r: (seq<int>, seq<int>))
    ensures |r.0| == |points| && |r.1| == |points|
    ensures forall i :: 0 <= i < |points| ==> points[i].x + r.0[i] == x && points[i].y + r.1[i] == y
  {
    (seq(|points|, i requires 0 <= i < |points| => x - points[i].x),
     seq(|points|, i requires 0 <= i < |points| => y - points[i].y))
  }

  /** The stroke's points after moving the grab point to (x, y). */
  function MovedStroke(xOffsets: seq<int>, yOffsets: seq<int>, x: int, y: int): (r: seq<Point>)
    requires |xOffsets| == |yOffsets|
    ensures |r| == |xOffsets|
    ensures forall i :: 0 <= i < |r| ==> r[i].x + xOffsets[i] == x && r[i].y + yOffsets[i] == y
  {
    seq(|xOffsets|, i requires 0 <= i < |xOffsets| => Point(x - xOffsets[i], y - yOffsets[i]))
  }

  /** Moving a stroke translates every point by the pointer's displacement. */
  lemma StrokeMoveTranslates(points: seq<Point>, x0: int, y0: int, x: int, y: int)
    ensures var (dxs, dys) := StrokeOffsets(points, x0, y0);
            var r := MovedStroke(dxs, dys, x, y);
            |r| == |points| &&
            forall i :: 0 <= i < |points| ==> r[i] == Point(points[i].x + (x - x0), points[i].y + (y - y0))
  {
  }

  /** The cursor strings "default", "move", "nwse-resize" and "nesw-resize". */
  datatype Cursor = Default | Move | NwseResize | NeswResize

  /** `cursorposition`: the cursor shown over a zone. */
  function CursorFor(zone: Zone): (r: Cursor)
    ensures r != Default
    ensures r == Move <==> zone == Inside
    ensures r == NeswResize <==> zone == TopRight || zone == BottomLeft
  {
    match zone
    case TopLeft => NwseResize
    case BottomRight => NwseResize
    case Top => NwseResize
    case Bottom => NwseResize
    case TopRight => NeswResize
    case BottomLeft => NeswResize
    case Inside => Move
  }

  /** The two ends of a diagonal share a cursor; the two diagonals do not. */
  lemma CursorDiagonals(zone: Zone)
    requires zone != Inside
    ensures CursorFor(zone) == CursorFor(Opposite(zone))
    ensures CursorFor(TopLeft) != CursorFor(TopRight)
  {
  }

  /** The cursor while hovering in selection mode: "default" when nothing is hit. */
  function HoverCursor(hit: Option<Hit>): (r: Cursor)
    ensures r == Default <==> hit.None?
    ensures hit.Some? ==> r == CursorFor(hit.value.zone)
  {
    match hit
    case None => Default
    case Some(h) => CursorFor(h.zone)
  }
}
