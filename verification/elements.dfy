/**
 * The element model of the whiteboard: the four kinds of drawable element and
 * the factory `createDrawing` (src/App.tsx:11-34).
 */
module Elements {
  import opened Wrappers

  /** A pointer sample or stroke point, in canvas pixels. */
  datatype Point = Point(x: int, y: int)

  /** Two opposite corners (rectangle, text box) or the two endpoints (line). */
  datatype Coords = Coords(x1: int, y1: int, x2: int, y2: int)

  /**
   * The shape handle requested from the sketchy renderer when a line or a
   * rectangle is created. The renderer itself is not modelled: the handle only
   * records the arguments of the generator call.
   */
  datatype Sketch =
    | LineSketch(x1: int, y1: int, x2: int, y2: int)
    | RectangleSketch(x: int, y: int, width: int, height: int)

  datatype Element =
    | Line(id: nat, x1: int, y1: int, x2: int, y2: int, rough: Sketch)
    | Rectangle(id: nat, x1: int, y1: int, x2: int, y2: int, rough: Sketch)
    | Pencil(id: nat, points: seq<Point>)
    | Text(id: nat, x1: int, y1: int, x2: int, y2: int, text: string)
      /**
       * A line or rectangle whose four coordinates are `undefined`: what
       * `updateelement` builds when it is handed the coordinates that
       * `changeCoordinates` computes for a stroke.
       */
    | Unplaced(id: nat, isRectangle: bool)

  /** The element's `type` string. */
  function Tag(e: Element): string
  {
    match e
    case Line(_, _, _, _, _, _) => "Line"
    case Rectangle(_, _, _, _, _, _) => "Rectangle"
    case Pencil(_, _) => "Pencil"
    case Text(_, _, _, _, _, _) => "Text"
    case Unplaced(_, isRectangle) => if isRectangle then "Rectangle" else "Line"
  }

  predicate IsKnownTag(tag: string)
  {
    tag == "Line" || tag == "Rectangle" || tag == "Pencil" || tag == "Text"
  }

  /** The two-point geometry of an element; a freehand stroke and an unplaced element have none. */
  function Corners(e: Element): Option<Coords>
  {
    if e.Pencil? || e.Unplaced? then None else Some(Coords(e.x1, e.y1, e.x2, e.y2))
  }

  datatype FactoryError = UnknownType(tag: string)

  /**
   * `createDrawing`: builds an element of the given type at the given
   * coordinates, and fails on a type it does not know.
   */
  function CreateDrawing(id: nat, x1: int, y1: int, x2: int, y2: int, tag: string): (r: Result<Element, FactoryError>)
    ensures r.Ok? <==> IsKnownTag(tag)
    ensures r.Err? ==> r.error == UnknownType(tag)
    ensures r.Ok? ==> r.value.id == id && Tag(r.value) == tag
    ensures r.Ok? ==> !r.value.Unplaced?
    ensures r.Ok? && !r.value.Pencil? ==> Corners(r.value) == Some(Coords(x1, y1, x2, y2))
    ensures r.Ok? && r.value.Pencil? ==> r.value.points == [Point(x1, y1)]
    ensures r.Ok? && r.value.Text? ==> r.value.text == ""
    ensures r.Ok? && r.value.Line? ==> r.value.rough == LineSketch(x1, y1, x2, y2)
    ensures r.Ok? && r.value.Rectangle? ==>
              r.value.rough.RectangleSketch? &&
              r.value.rough.x == x1 && r.value.rough.y == y1 &&
              r.value.rough.x + r.value.rough.width == x2 &&
              r.value.rough.y + r.value.rough.height == y2
  {
    if tag == "Line" then Ok(Line(id, x1, y1, x2, y2, LineSketch(x1, y1, x2, y2)))
    else if tag == "Rectangle" then Ok(Rectangle(id, x1, y1, x2, y2, RectangleSketch(x1, y1, x2 - x1, y2 - y1)))
    else if tag == "Pencil" then Ok(Pencil(id, [Point(x1, y1)]))
    else if tag == "Text" then Ok(Text(id, x1, y1, x2, y2, ""))
    else Err(UnknownType(tag))
  }
}
