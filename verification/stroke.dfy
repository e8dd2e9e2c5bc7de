/**
 * The stroke smoother `getSvgPathFromStroke` (src/App.tsx:158-188): turns the
 * outline polygon of a freehand stroke into a closed path of quadratic curves
 * whose anchors are the midpoints of consecutive vertices.
 */
module Stroke {

  /** A vertex of the outline polygon (the outline generator works in floating point). */
  datatype Vertex = Vertex(x: real, y: real)

  /** The path commands the source writes as "M", "Q", the anchors after "T", and "Z". */
  datatype PathCommand =
    | MoveTo(to: Vertex)
    | QuadTo(control: Vertex, to: Vertex)
    | SmoothTo(to: Vertex)
    | Close

  /** `average`: the point halfway between a and b. */
  function Average(a: real, b: real): (r: real)
    ensures r - a == b - r
    ensures a <= b ==> a <= r <= b
    ensures b <= a ==> b <= r <= a
  {
    (a + b) / 2.0
  }

  function Midpoint(a: Vertex, b: Vertex): (m: Vertex)
    ensures m.x - a.x == b.x - m.x && m.y - a.y == b.y - m.y
    ensures a.x <= b.x ==> a.x <= m.x <= b.x
    ensures b.x <= a.x ==> b.x <= m.x <= a.x
    ensures a.y <= b.y ==> a.y <= m.y <= b.y
    ensures b.y <= a.y ==> b.y <= m.y <= a.y
  {
    Vertex(Average(a.x, b.x), Average(a.y, b.y))
  }

  predicate IsCurve(c: PathCommand)
  {
    c.QuadTo? || c.SmoothTo?
  }

  /**
   * Fewer than four vertices give an empty path. Otherwise the path moves to
   * vertex 0, draws a quadratic curve with control vertex 1 ending at the
   * midpoint of vertices 1 and 2, continues with one smooth anchor per pair
   * (i, i + 1) for i from 2 to n - 2, and is closed when asked to be.
   */
  method SvgPathFromStroke(points: seq<Vertex>, closed: bool) returns (path: seq<PathCommand>)
    ensures |points| < 4 ==> path == []
    ensures |points| >= 4 ==> |path| == |points| - 1 + (if closed then 1 else 0)
    ensures |points| >= 4 ==> path[0] == MoveTo(points[0])
    ensures |points| >= 4 ==> path[1] == QuadTo(points[1], Midpoint(points[1], points[2]))
    ensures |points| >= 4 ==>
              forall i :: 2 <= i < |points| - 1 ==> path[i] == SmoothTo(Midpoint(points[i], points[i + 1]))
    ensures |points| >= 4 ==> (path[|path| - 1] == Close <==> closed)
    ensures |points| >= 4 ==> CurveCount(path) == |points| - 2
  {
    var len := |points|;
    if len < 4 {
      return [];
    }
    var a := points[0];
    var b := points[1];
    var c := points[2];
    path := [MoveTo(a), QuadTo(b, Midpoint(b, c))];
    assert CurveCount(path) == 1 by {
      assert path[..1] == [MoveTo(a)];
      assert [MoveTo(a)][..0] == [];
      assert CurveCount([MoveTo(a)]) == 0;
    }
    var i := 2;
    while i < len - 1
      invariant 2 <= i <= len - 1
      invariant |path| == i
      invariant path[0] == MoveTo(points[0])
      invariant path[1] == QuadTo(points[1], Midpoint(points[1], points[2]))
      invariant forall k :: 2 <= k < i ==> path[k] == SmoothTo(Midpoint(points[k], points[k + 1]))
      invariant CurveCount(path) == i - 1
    {
      a := points[i];
      b := points[i + 1];
      var next := path + [SmoothTo(Midpoint(a, b))];
      assert next[..|next| - 1] == path;
      path := next;
      i := i + 1;
    }
    assert path[len - 2] == SmoothTo(Midpoint(points[len - 2], points[len - 1]));
    if closed {
      var next := path + [Close];
      assert next[..|next| - 1] == path;
      path := next;
    }
  }

  /** The number of curve segments in a path. */
  function CurveCount(path: seq<PathCommand>): nat
  {
    if path == [] then 0
    else CurveCount(path[..|path| - 1]) + (if IsCurve(path[|path| - 1]) then 1 else 0)
  }
}
