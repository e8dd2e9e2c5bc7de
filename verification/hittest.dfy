/**
 * Hit-testing: which element, and which part of it, lies under the pointer
 * (`nearpoint`, `lieswithinmouse` and `getElementPosition`, src/App.tsx:36-84).
 */
module HitTest {
  import opened Wrappers
  import opened Elements

  /** The `position` strings "tl", "tr", "bl", "br", "top", "bottom" and "inside". */
  datatype Zone = TopLeft | TopRight | BottomLeft | BottomRight | Top | Bottom | Inside

  /** Half-width of the square capture zone around a corner or an endpoint. */
  const CaptureRadius := 5

  function Abs(n: int): nat
  {
    if n < 0 then -n else n
  }

  /** `nearpoint`: the pointer (x, y) is in the capture square of the handle (hx, hy). */
  predicate NearPoint(x: int, y: int, hx: int, hy: int): (r: bool)
    ensures r <==> hx - CaptureRadius < x < hx + CaptureRadius && hy - CaptureRadius < y < hy + CaptureRadius
  {
    Abs(x - hx) < CaptureRadius && Abs(y - hy) < CaptureRadius
  }

  /**
   * The near-collinearity test `insideline(x1, y1, x2, y2, x, y)`: the pointer
   * (x, y) lies close to the segment from (x1, y1) to (x2, y2). The source
   * computes it with square roots and a tolerance of 4; the model takes it as
   * a given predicate.
   */
  type OnSegment = (int, int, int, int, int, int) -> bool

  /** The inclusive bounding-box test used for rectangles and text labels. */
  predicate InBox(x: int, y: int, c: Coords): (r: bool)
    ensures r ==> c.x1 <= c.x2 && c.y1 <= c.y2
  {
    c.x1 <= x <= c.x2 && c.y1 <= y <= c.y2
  }

  /** The pointer is near some segment between consecutive points of a stroke. */
  predicate OnStroke(x: int, y: int, points: seq<Point>, onSegment: OnSegment): (r: bool)
    ensures r ==> |points| >= 2
    ensures |points| == 2 ==> (r <==> onSegment(points[0].x, points[0].y, points[1].x, points[1].y, x, y))
  {
    exists i | 0 <= i < |points| - 1 ::
      onSegment(points[i].x, points[i].y, points[i + 1].x, points[i + 1].y, x, y)
  }

  /** The zones each kind of element can report. */
  predicate ZoneOf(e: Element, z: Zone)
  {
    match e
    case Line(_, _, _, _, _, _) => z == Top || z == Bottom || z == Inside
    case Rectangle(_, _, _, _, _, _) => z != Top && z != Bottom
    case Pencil(_, _) => z == Inside
    case Text(_, _, _, _, _, _) => z == Inside
    case Unplaced(_, _) => false
  }

  /** The handle a corner or endpoint zone stands for. */
  function Handle(c: Coords, z: Zone): Point
    requires z != Inside
  {
    match z
    case TopLeft => Point(c.x1, c.y1)
    case Top => Point(c.x1, c.y1)
    case TopRight => Point(c.x2, c.y1)
    case BottomLeft => Point(c.x1, c.y2)
    case BottomRight => Point(c.x2, c.y2)
    case Bottom => Point(c.x2, c.y2)
  }

  /** `lieswithinmouse`: the zone of `e` under the pointer, if any. */
  function LiesWithin(x: int, y: int, e: Element, onSegment: OnSegment): (r: Option<Zone>)
    ensures r.Some? ==> ZoneOf(e, r.value)
    ensures r.Some? && r.value != Inside ==>
              var h := Handle(Corners(e).value, r.value); NearPoint(x, y, h.x, h.y)
  {
    match e
    case Line(_, x1, y1, x2, y2, _) =>
      if NearPoint(x, y, x1, y1) then Some(Top)
      else if NearPoint(x, y, x2, y2) then Some(Bottom)
      else if onSegment(x1, y1, x2, y2, x, y) then Some(Inside)
      else None
    case Rectangle(_, x1, y1, x2, y2, _) =>
      if NearPoint(x, y, x1, y1) then Some(TopLeft)
      else if NearPoint(x, y, x2, y1) then Some(TopRight)
      else if NearPoint(x, y, x1, y2) then Some(BottomLeft)
      else if NearPoint(x, y, x2, y2) then Some(BottomRight)
      else if InBox(x, y, Coords(x1, y1, x2, y2)) then Some(Inside)
      else None
    case Pencil(_, points) =>
      if OnStroke(x, y, points, onSegment) then Some(Inside) else None
    case Text(_, x1, y1, x2, y2, _) =>
      if InBox(x, y, Coords(x1, y1, x2, y2)) then Some(Inside) else None
    case Unplaced(_, _) =>
      // Every comparison with an undefined coordinate is false.
      None
  }

  /**
   * The rectangle's corners are tried in the order top-left, top-right,
   * bottom-left, bottom-right, and only then the inclusive interior.
   */
  lemma RectangleZones(x: int, y: int, e: Element, onSegment: OnSegment)
    requires e.Rectangle?
    ensures LiesWithin(x, y, e, onSegment) == Some(TopLeft) <==> NearPoint(x, y, e.x1, e.y1)
    ensures LiesWithin(x, y, e, onSegment) == Some(TopRight) <==>
              !NearPoint(x, y, e.x1, e.y1) && NearPoint(x, y, e.x2, e.y1)
    ensures LiesWithin(x, y, e, onSegment) == Some(BottomLeft) <==>
              !NearPoint(x, y, e.x1, e.y1) && !NearPoint(x, y, e.x2, e.y1) && NearPoint(x, y, e.x1, e.y2)
    ensures LiesWithin(x, y, e, onSegment) == Some(BottomRight) <==>
              !NearPoint(x, y, e.x1, e.y1) && !NearPoint(x, y, e.x2, e.y1) &&
              !NearPoint(x, y, e.x1, e.y2) && NearPoint(x, y, e.x2, e.y2)
    ensures LiesWithin(x, y, e, onSegment) == Some(Inside) <==>
              !NearPoint(x, y, e.x1, e.y1) && !NearPoint(x, y, e.x2, e.y1) &&
              !NearPoint(x, y, e.x1, e.y2) && !NearPoint(x, y, e.x2, e.y2) &&
              InBox(x, y, Corners(e).value)
    ensures LiesWithin(x, y, e, onSegment).None? <==>
              !NearPoint(x, y, e.x1, e.y1) && !NearPoint(x, y, e.x2, e.y1) &&
              !NearPoint(x, y, e.x1, e.y2) && !NearPoint(x, y, e.x2, e.y2) &&
              !InBox(x, y, Corners(e).value)
  {
  }

  /**
   * On a rectangle with x1 <= x2 and y1 <= y2 every hit lies in the box
   * grown by the capture zone, and the zone test never depends on the
   * collinearity predicate.
   */
  lemma RectangleHitNearBox(x: int, y: int, e: Element, onSegment: OnSegment)
    requires e.Rectangle? && e.x1 <= e.x2 && e.y1 <= e.y2
    requires LiesWithin(x, y, e, onSegment).Some?
    ensures e.x1 - CaptureRadius < x < e.x2 + CaptureRadius
    ensures e.y1 - CaptureRadius < y < e.y2 + CaptureRadius
  {
  }

  /**
   * The stroke scan tries consecutive pairs from the first point on: a stroke
   * is hit exactly when its first segment passes the collinearity test or the
   * rest of the stroke is hit.
   */
  lemma OnStrokeScan(x: int, y: int, points: seq<Point>, onSegment: OnSegment)
    requires |points| >= 2
    ensures OnStroke(x, y, points, onSegment) <==>
              onSegment(points[0].x, points[0].y, points[1].x, points[1].y, x, y) ||
              OnStroke(x, y, points[1..], onSegment)
  {
  }

  /** A stroke is hit, as "inside" only, exactly when some segment of it is near the pointer. */
  lemma StrokeZones(x: int, y: int, e: Element, onSegment: OnSegment)
    requires e.Pencil?
    ensures LiesWithin(x, y, e, onSegment) == (if OnStroke(x, y, e.points, onSegment) then Some(Inside) else None)
  {
  }

  /** A text label is hit exactly inside its box, and only ever as "inside". */
  lemma TextZones(x: int, y: int, e: Element, onSegment: OnSegment)
    requires e.Text?
    ensures LiesWithin(x, y, e, onSegment) == (if InBox(x, y, Corners(e).value) then Some(Inside) else None)
  {
  }

  /** A line's endpoints take precedence over its body, the first endpoint over the second. */
  lemma LineZones(x: int, y: int, e: Element, onSegment: OnSegment)
    requires e.Line?
    ensures NearPoint(x, y, e.x1, e.y1) ==> LiesWithin(x, y, e, onSegment) == Some(Top)
    ensures LiesWithin(x, y, e, onSegment) == Some(Bottom) <==>
              !NearPoint(x, y, e.x1, e.y1) && NearPoint(x, y, e.x2, e.y2)
    ensures LiesWithin(x, y, e, onSegment) == Some(Inside) <==>
              !NearPoint(x, y, e.x1, e.y1) && !NearPoint(x, y, e.x2, e.y2) &&
              onSegment(e.x1, e.y1, e.x2, e.y2, x, y)
  {
  }

  /** The result of `getElementPosition`: the element found and its zone. */
  datatype Hit = Hit(element: Element, zone: Zone)

  /** Element `i` is hit and no element before it is. */
  predicate FirstHitAt(x: int, y: int, scene: seq<Element>, i: int, onSegment: OnSegment)
    requires 0 <= i < |scene|
  {
    LiesWithin(x, y, scene[i], onSegment).Some? &&
    forall j :: 0 <= j < i ==> LiesWithin(x, y, scene[j], onSegment).None?
  }

  /**
   * `getElementPosition`: the first element, in scene order, whose zone under
   * the pointer is defined, tagged with that zone.
   */
  function Locate(x: int, y: int, scene: seq<Element>, onSegment: OnSegment): (r: Option<Hit>)
    ensures r.None? <==> forall i :: 0 <= i < |scene| ==> LiesWithin(x, y, scene[i], onSegment).None?
    ensures r.Some? ==>
              exists i :: 0 <= i < |scene| && FirstHitAt(x, y, scene, i, onSegment) &&
                          r.value == Hit(scene[i], LiesWithin(x, y, scene[i], onSegment).value)
  {
    if scene == [] then None
    else match LiesWithin(x, y, scene[0], onSegment)
      case Some(z) =>
        assert FirstHitAt(x, y, scene, 0, onSegment);
        Some(Hit(scene[0], z))
      case None =>
        var r := Locate(x, y, scene[1..], onSegment);
        assert r.Some? ==> exists i :: 1 <= i < |scene| && FirstHitAt(x, y, scene, i, onSegment) &&
                                       r.value == Hit(scene[i], LiesWithin(x, y, scene[i], onSegment).value) by {
          if r.Some? {
            var k :| 0 <= k < |scene[1..]| && FirstHitAt(x, y, scene[1..], k, onSegment) &&
                     r.value == Hit(scene[1..][k], LiesWithin(x, y, scene[1..][k], onSegment).value);
            assert forall j :: 1 <= j < k + 1 ==> scene[j] == scene[1..][j - 1];
            assert FirstHitAt(x, y, scene, k + 1, onSegment);
          }
        }
        assert r.None? ==> forall i :: 1 <= i < |scene| ==> scene[i] == scene[1..][i - 1];
        r
  }

  /**
   * In a scene whose ids are positions, the element found is the one stored
   * under its own id, so the handlers can address it by `id`.
   */
  lemma LocateById(x: int, y: int, scene: seq<Element>, onSegment: OnSegment)
    requires forall i :: 0 <= i < |scene| ==> scene[i].id == i
    requires Locate(x, y, scene, onSegment).Some?
    ensures var h := Locate(x, y, scene, onSegment).value;
            h.element.id < |scene| && scene[h.element.id] == h.element &&
            LiesWithin(x, y, h.element, onSegment) == Some(h.zone) &&
            forall j :: 0 <= j < h.element.id ==> LiesWithin(x, y, scene[j], onSegment).None?
  {
  }

  /** A rectangle from (10, 10) to (50, 50): its top-left corner, its interior and a point far outside. */
  lemma RectangleHitExamples(onSegment: OnSegment)
    ensures var r := Rectangle(0, 10, 10, 50, 50, RectangleSketch(10, 10, 40, 40));
            LiesWithin(10, 10, r, onSegment) == Some(TopLeft) &&
            LiesWithin(30, 30, r, onSegment) == Some(Inside) &&
            LiesWithin(100, 100, r, onSegment).None?
  {
  }
}
