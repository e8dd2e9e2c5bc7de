/**
 * The editor itself: `updateelement` (src/App.tsx:243-278), the scene changes
 * made by the mouse handlers, and the class holding the undo/redo log
 * (`useHistory`, src/App.tsx:137-157) together with the interaction state
 * `clicked`, `tool`, `selected` and the cursor (src/App.tsx:212-405).
 */
module App {
  import opened Wrappers
  import opened Elements
  import opened HitTest
  import opened Transform
  import History

  type Scene = seq<Element>

  /** Every element's id is its position in the scene. */
  predicate WellIdentified(scene: Scene)
  {
    forall i :: 0 <= i < |scene| ==> scene[i].id == i
  }

  /** The fixed line height of a text label, in pixels. */
  const TextHeight := 24

  /**
   * The cases in which the model's `updateelement` makes no change: the
   * source's explicit throw for an unknown type, the TypeErrors of a stroke
   * update on a non-stroke and of a label update without options, and an id
   * past the end of the scene, where the source writes past the end of the
   * array instead.
   */
  datatype UpdateError =
    | UnknownTag(tag: string)
    | NoSuchElement(id: nat)
    | NotAStroke(id: nat)
    | MissingText

  function ToOption<T, E>(r: Result<T, E>): Option<T>
  {
    match r
    case Ok(v) => Some(v)
    case Err(_) => None
  }

  /**
   * `updateelement`: the scene with element `id` rebuilt from the given
   * coordinates. A line or rectangle is rebuilt by the factory; a stroke gets
   * (x2, y2) appended to its points; a text label is rebuilt at (x1, y1) with
   * the measured width of `text` and the fixed line height.
   */
  function UpdatedScene(scene: Scene, id: nat, x1: int, y1: int, x2: int, y2: int, tag: string,
                        text: Option<string>, measure: string -> nat): (r: Result<Scene, UpdateError>)
    ensures r.Err? <==>
              !IsKnownTag(tag) || id >= |scene| ||
              (tag == "Pencil" && !scene[id].Pencil?) || (tag == "Text" && text.None?)
    ensures r.Ok? ==> |r.value| == |scene| && Tag(r.value[id]) == tag
    ensures r.Ok? ==> forall i :: 0 <= i < |scene| && i != id ==> r.value[i] == scene[i]
    ensures r.Ok? && WellIdentified(scene) ==> WellIdentified(r.value)
    ensures r.Ok? && (tag == "Line" || tag == "Rectangle") ==>
              r.value[id].id == id && Corners(r.value[id]) == Some(Coords(x1, y1, x2, y2))
    ensures r.Ok? && tag == "Pencil" ==>
              r.value[id].id == scene[id].id && r.value[id].points == scene[id].points + [Point(x2, y2)]
    ensures r.Ok? && tag == "Text" ==>
              r.value[id] == Text(id, x1, y1, x1 + measure(text.value), y1 + TextHeight, text.value)
  {
    if !IsKnownTag(tag) then Err(UnknownTag(tag))
    else if tag == "Line" || tag == "Rectangle" then
      if id >= |scene| then Err(NoSuchElement(id))
      else Ok(scene[id := CreateDrawing(id, x1, y1, x2, y2, tag).value])
    else if tag == "Pencil" then
      if id >= |scene| || !scene[id].Pencil? then Err(NotAStroke(id))
      else Ok(scene[id := scene[id].(points := scene[id].points + [Point(x2, y2)])])
    else if text.None? then Err(MissingText)
    else if id >= |scene| then Err(NoSuchElement(id))
    else
      var caption := CreateDrawing(id, x1, y1, x1 + measure(text.value), y1 + TextHeight, "Text").value;
      Ok(scene[id := caption.(text := text.value)])
  }

  /** The state strings "none", "draw", "moving", "resize" and "write" of `clicked`. */
  datatype Clicked = Idle | Drawing | Moving | Resizing | Writing

  /**
   * What `selected` carries besides the element: nothing for an element just
   * drawn; the hit zone and the pointer-to-origin offset for a grabbed line,
   * rectangle or label; the hit zone and per-point offsets for a grabbed stroke.
   */
  datatype Grip =
    | Drawn
    | Held(zone: Zone, offsetX: int, offsetY: int)
    | HeldStroke(zone: Zone, xOffsets: seq<int>, yOffsets: seq<int>)

  datatype Selection = Selection(element: Element, grip: Grip)

  /** The grip agrees with the element it holds. */
  predicate GripFits(s: Selection)
  {
    match s.grip
    case Drawn => true
    case Held(z, _, _) => !s.element.Pencil? && ZoneOf(s.element, z)
    case HeldStroke(z, dxs, dys) =>
      s.element.Pencil? && z == Inside && |dxs| == |s.element.points| && |dys| == |s.element.points|
  }

  /** The selection a select-mode mouse-down makes from the element it hit. */
  function Grab(h: Hit, x: int, y: int): (s: Selection)
    requires ZoneOf(h.element, h.zone)
    ensures s.element == h.element && !s.grip.Drawn? && s.grip.zone == h.zone && GripFits(s)
    ensures s.grip.Held? ==> x - s.grip.offsetX == h.element.x1 && y - s.grip.offsetY == h.element.y1
    ensures s.grip.HeldStroke? ==>
              forall i :: 0 <= i < |h.element.points| ==>
                h.element.points[i].x + s.grip.xOffsets[i] == x && h.element.points[i].y + s.grip.yOffsets[i] == y
  {
    match h.element
    case Pencil(_, points) =>
      var (dxs, dys) := StrokeOffsets(points, x, y);
      Selection(h.element, HeldStroke(h.zone, dxs, dys))
    case Unplaced(_, _) =>
      // No zone belongs to an element without coordinates.
      assert false; Selection(h.element, Drawn)
    case _ =>
      Selection(h.element, Held(h.zone, x - h.element.x1, y - h.element.y1))
  }

  /**
   * The scene a mouse-move commits while a gesture is in progress, or None
   * when the move changes no element.
   */
  function DragScene(scene: Scene, clicked: Clicked, sel: Selection, tool: string, x: int, y: int,
                     measure: string -> nat): (r: Option<Scene>)
    requires GripFits(sel)
    ensures r.Some? ==> clicked != Idle && clicked != Writing && |r.value| == |scene|
    ensures clicked == Drawing ==>
              (r.Some? <==>
                 |scene| > 0 &&
                 if scene[|scene| - 1].Pencil? then tool == "Pencil"
                 else !scene[|scene| - 1].Unplaced? && (tool == "Line" || tool == "Rectangle"))
    ensures clicked == Moving ==>
              (r.Some? <==>
                 !sel.grip.Drawn? && sel.element.id < |scene| &&
                 (sel.grip.HeldStroke? ==> scene[sel.element.id].Pencil?))
    ensures clicked == Resizing ==>
              (r.Some? <==>
                 sel.grip.Held? && sel.grip.zone != Inside && (sel.element.Line? || sel.element.Rectangle?) &&
                 sel.element.id < |scene|)
    ensures r.Some? && clicked == Drawing ==> Tag(r.value[|scene| - 1]) == tool
    ensures r.Some? && clicked != Drawing ==> Tag(r.value[sel.element.id]) == Tag(sel.element)
    ensures r.Some? ==> if clicked == Drawing then |scene| > 0 else sel.element.id < |scene|
    ensures r.Some? && WellIdentified(scene) ==> WellIdentified(r.value)
    ensures r.Some? && clicked == Drawing ==> forall i :: 0 <= i < |scene| - 1 ==> r.value[i] == scene[i]
    ensures r.Some? && clicked != Drawing ==>
              forall i :: 0 <= i < |scene| && i != sel.element.id ==> r.value[i] == scene[i]
    ensures r.Some? && clicked == Drawing && tool == "Pencil" ==>
              scene[|scene| - 1].Pencil? && r.value[|scene| - 1].Pencil? &&
              r.value[|scene| - 1].points == scene[|scene| - 1].points + [Point(x, y)]
    ensures r.Some? && clicked == Drawing && (tool == "Line" || tool == "Rectangle") ==>
              !scene[|scene| - 1].Pencil? && !scene[|scene| - 1].Unplaced? &&
              Corners(r.value[|scene| - 1]) == Some(Coords(scene[|scene| - 1].x1, scene[|scene| - 1].y1, x, y))
    ensures r.Some? && clicked == Resizing ==>
              sel.grip.Held? && !sel.element.Pencil? &&
              Corners(r.value[sel.element.id]) == Resize(x, y, sel.grip.zone, Corners(sel.element).value)
    ensures r.Some? && clicked == Moving && (sel.element.Line? || sel.element.Rectangle?) ==>
              sel.grip.Held? &&
              Corners(r.value[sel.element.id]) ==
              Some(Moved(Corners(sel.element).value, x, y, sel.grip.offsetX, sel.grip.offsetY))
    ensures r.Some? && clicked == Moving && sel.element.Text? ==>
              sel.grip.Held? &&
              var (nx, ny) := (x - sel.grip.offsetX, y - sel.grip.offsetY);
              r.value[sel.element.id] ==
              Text(sel.element.id, nx, ny, nx + measure(sel.element.text), ny + TextHeight, sel.element.text)
    ensures r.Some? && clicked == Moving && sel.element.Pencil? ==>
              sel.grip.HeldStroke? && scene[sel.element.id].Pencil? &&
              r.value[sel.element.id] ==
              scene[sel.element.id].(points := MovedStroke(sel.grip.xOffsets, sel.grip.yOffsets, x, y))
  {
    match clicked
    case Drawing =>
      if |scene| == 0 then None
      else
        var last := |scene| - 1;
        (match Corners(scene[last])
         case Some(c) => ToOption(UpdatedScene(scene, last, c.x1, c.y1, x, y, tool, None, measure))
         case None =>
           // A stroke has no (x1, y1); its update only reads the pointer.
           if tool == "Pencil" then ToOption(UpdatedScene(scene, last, x, y, x, y, tool, None, measure))
           else None)
    case Moving =>
      (match sel.grip
       case HeldStroke(_, dxs, dys) =>
         var id := sel.element.id;
         if id < |scene| && scene[id].Pencil? then Some(scene[id := scene[id].(points := MovedStroke(dxs, dys, x, y))])
         else None
       case Held(_, offsetX, offsetY) =>
         var m := Moved(Corners(sel.element).value, x, y, offsetX, offsetY);
         var text := if sel.element.Text? then Some(sel.element.text) else None;
         ToOption(UpdatedScene(scene, sel.element.id, m.x1, m.y1, m.x2, m.y2, Tag(sel.element), text, measure))
       case Drawn => None)
    case Resizing =>
      (match sel.grip
       case Held(zone, _, _) =>
         (match Resize(x, y, zone, Corners(sel.element).value)
          case Some(c) => ToOption(UpdatedScene(scene, sel.element.id, c.x1, c.y1, c.x2, c.y2, Tag(sel.element), None, measure))
          case None => None)
       case _ => None)
    case _ => None
  }

  /** A grabbed text label released exactly where it was grabbed: the mouse-up opens the text editor. */
  predicate ReleasedInPlace(sel: Selection, x: int, y: int): (r: bool)
    ensures r ==> sel.element.Text? && sel.grip.Held?
  {
    sel.element.Text? && sel.grip.Held? && x - sel.grip.offsetX == sel.element.x1 && y - sel.grip.offsetY == sel.element.y1
  }

  /**
   * A label grabbed at (x0, y0) counts as released in place exactly when the
   * pointer comes up at (x0, y0); no other selection ever does.
   */
  lemma ReleasedInPlaceAtGrab(h: Hit, x0: int, y0: int, x: int, y: int)
    requires ZoneOf(h.element, h.zone)
    ensures ReleasedInPlace(Grab(h, x0, y0), x, y) <==> h.element.Text? && x == x0 && y == y0
  {
  }

  /**
   * The scene a mouse-up commits: after drawing or resizing a line or a
   * rectangle, the canonical coordinates of the LAST element of the scene are
   * written into the selected element, whichever element that is. When the
   * last element is a stroke, all four coordinates are `undefined` and the
   * selected element loses its geometry.
   */
  function ReleaseScene(scene: Scene, clicked: Clicked, sel: Selection, measure: string -> nat): (r: Option<Scene>)
    ensures r.Some? <==>
              (clicked == Drawing || clicked == Resizing) && (sel.element.Line? || sel.element.Rectangle?) &&
              |scene| > 0 && sel.element.id < |scene|
    ensures r.Some? ==> |r.value| == |scene| && Tag(r.value[sel.element.id]) == Tag(sel.element)
    ensures r.Some? ==> forall i :: 0 <= i < |scene| && i != sel.element.id ==> r.value[i] == scene[i]
    ensures r.Some? ==> Corners(r.value[sel.element.id]) == ChangeCoordinates(scene[|scene| - 1])
    ensures r.Some? && ChangeCoordinates(scene[|scene| - 1]).None? ==>
              r.value[sel.element.id] == Unplaced(sel.element.id, sel.element.Rectangle?)
    ensures r.Some? && WellIdentified(scene) ==> WellIdentified(r.value)
  {
    var id := sel.element.id;
    if (clicked == Drawing || clicked == Resizing) && (sel.element.Line? || sel.element.Rectangle?) &&
       |scene| > 0 && id < |scene|
    then
      match ChangeCoordinates(scene[|scene| - 1])
      case Some(c) => ToOption(UpdatedScene(scene, id, c.x1, c.y1, c.x2, c.y2, Tag(sel.element), None, measure))
      case None => Some(scene[id := Unplaced(id, sel.element.Rectangle?)])
    else
      // `updateelement` would write past the end of the array, or the handler
      // would destructure a missing element.
      None
  }

  /**
   * When the released element is the last one of the scene, as it is at the
   * end of a draw gesture, the release leaves it in canonical orientation and
   * with the same shape.
   */
  lemma ReleaseCanonicalizesLast(scene: Scene, clicked: Clicked, sel: Selection, measure: string -> nat)
    requires WellIdentified(scene) && |scene| > 0
    requires sel.element.id == |scene| - 1 && Tag(scene[|scene| - 1]) == Tag(sel.element)
    requires (clicked == Drawing || clicked == Resizing) && (sel.element.Line? || sel.element.Rectangle?)
    ensures ReleaseScene(scene, clicked, sel, measure).Some?
    ensures var e := ReleaseScene(scene, clicked, sel, measure).value[|scene| - 1];
            var before := Corners(scene[|scene| - 1]);
            e.id == |scene| - 1 && Tag(e) == Tag(sel.element) &&
            (e.Unplaced? <==> scene[|scene| - 1].Unplaced?) &&
            (e.Rectangle? ==> before.Some? && BoxOrdered(Corners(e).value) && SameBox(Corners(e).value, before.value)) &&
            (e.Line? ==> before.Some? && LexOrdered(Corners(e).value) && SameEndpoints(Corners(e).value, before.value))
  {
  }

  /**
   * Resizing an element that is not the last one: on release it takes the
   * canonical coordinates of the last element of the scene.
   */
  lemma ReleaseUsesLastElement(measure: string -> nat)
    ensures var rect := Rectangle(0, 0, 0, 10, 10, RectangleSketch(0, 0, 10, 10));
            var line := Line(1, 200, 200, 100, 100, LineSketch(200, 200, 100, 100));
            var resized := Rectangle(0, 5, 5, 10, 10, RectangleSketch(5, 5, 5, 5));
            var grabbed := Selection(rect, Held(TopLeft, 0, 0));
            var r := ReleaseScene([resized, line], Resizing, grabbed, measure);
            r.Some? && Corners(r.value[0]) == Some(Coords(100, 100, 200, 200))
  {
  }

  /**
   * Resizing a line while a freehand stroke comes after it: the stroke has no
   * corners, so on release the line loses its coordinates and can no longer
   * be hit anywhere.
   */
  lemma ReleaseAfterStrokeLosesGeometry(measure: string -> nat, onSegment: OnSegment)
    ensures var line := Line(0, 0, 0, 10, 10, LineSketch(0, 0, 10, 10));
            var stroke := Pencil(1, [Point(20, 20), Point(30, 30)]);
            var resized := Line(0, 0, 0, 12, 12, LineSketch(0, 0, 12, 12));
            var r := ReleaseScene([resized, stroke], Resizing, Selection(line, Held(Bottom, 0, 0)), measure);
            r.Some? && r.value == [Unplaced(0, false), stroke] &&
            forall x: int, y: int :: LiesWithin(x, y, r.value[0], onSegment).None?
  {
  }

  /**
   * A whole move gesture on a line or rectangle: grabbed inside at (x0, y0)
   * and dragged to (x, y), it is translated by the pointer's displacement,
   * and the release that follows does not touch the scene.
   */
  lemma MoveGestureTranslates(scene: Scene, h: Hit, tool: string, x0: int, y0: int, x: int, y: int,
                              measure: string -> nat)
    requires h.element.Line? || h.element.Rectangle?
    requires ZoneOf(h.element, h.zone)
    requires h.element.id < |scene|
    ensures DragScene(scene, Moving, Grab(h, x0, y0), tool, x, y, measure).Some?
    ensures var s := DragScene(scene, Moving, Grab(h, x0, y0), tool, x, y, measure).value;
            Corners(s[h.element.id]) == Some(Translated(Corners(h.element).value, x - x0, y - y0)) &&
            ReleaseScene(s, Moving, Grab(h, x0, y0), measure).None?
  {
  }

  class Editor {
    /** The snapshots of `useHistory` and its cursor. */
    var history: seq<Scene>
    var index: nat
    var clicked: Clicked
    var tool: string
    var selected: Option<Selection>
    var cursor: Cursor
    /** The canvas's text measurement (`measureText(text).width`). */
    const measure: string -> nat
    /** The near-collinearity test `insideline`. */
    const onSegment: OnSegment

    function Log(): History.Log<Scene>
      reads this
    {
      History.Log(history, index)
    }

    ghost predicate Valid()
      reads this
    {
      && History.Valid(Log())
      && (forall k :: 0 <= k < |history| ==> WellIdentified(history[k]))
      && (selected.Some? <==> clicked != Idle)
      && (selected.Some? ==> GripFits(selected.value))
      && (clicked == Writing ==> selected.value.element.Text?)
      && (clicked == Moving || clicked == Resizing ==> !selected.value.grip.Drawn?)
      && (clicked == Resizing ==> selected.value.grip.zone != Inside)
    }

    /** The scene under the history cursor: the `elements` the handlers read. */
    function Current(): Scene
      reads this
      requires History.Valid(Log())
    {
      History.Current(Log())
    }

    constructor (measure: string -> nat, onSegment: OnSegment)
      ensures Valid() && Log() == History.Initial([])
      ensures clicked == Idle && tool == "Text" && selected.None? && cursor == Default
      ensures this.measure == measure && this.onSegment == onSegment
    {
      history := [[]];
      index := 0;
      clicked := Idle;
      tool := "Text";
      selected := None;
      cursor := Default;
      this.measure := measure;
      this.onSegment := onSegment;
    }

    /** `setTool`, from the toolbar. */
    method SetTool(t: string)
      requires Valid()
      modifies this
      ensures Valid() && tool == t
      ensures Log() == old(Log()) && clicked == old(clicked) && selected == old(selected) && cursor == old(cursor)
    {
      tool := t;
    }

    /** `setstate`: replaces the current snapshot, or appends one and discards the redo branch. */
    method SetState(s: Scene, replace: bool)
      requires Valid() && WellIdentified(s)
      modifies this
      ensures Valid() && Log() == History.Commit(old(Log()), s, replace)
      ensures clicked == old(clicked) && tool == old(tool) && selected == old(selected) && cursor == old(cursor)
    {
      if replace {
        history := history[index := s];
      } else {
        history := history[..index + 1] + [s];
        index := index + 1;
      }
    }

    method Undo()
      requires Valid()
      modifies this
      ensures Valid() && Log() == History.Undo(old(Log()))
      ensures clicked == old(clicked) && tool == old(tool) && selected == old(selected) && cursor == old(cursor)
    {
      if index > 0 {
        index := index - 1;
      }
    }

    method Redo()
      requires Valid()
      modifies this
      ensures Valid() && Log() == History.Redo(old(Log()))
      ensures clicked == old(clicked) && tool == old(tool) && selected == old(selected) && cursor == old(cursor)
    {
      if index < |history| - 1 {
        index := index + 1;
      }
    }

    /**
     * `handle_mouse_down`. Ignored while a label is being written. In
     * selection mode a hit grabs the element, appends a copy of the current
     * scene to the history and starts a move ("inside") or a resize (a
     * handle). With a drawing tool a new element with id = the scene's length
     * is appended at the pointer and selected.
     */
    method MouseDown(x: int, y: int)
      requires Valid()
      modifies this
      ensures Valid() && tool == old(tool) && cursor == old(cursor)
      ensures old(clicked) == Writing ==> unchanged(this)
      ensures old(clicked) != Writing && tool == "select" ==>
                var hit := Locate(x, y, old(Current()), onSegment);
                (hit.None? ==> unchanged(this)) &&
                (hit.Some? ==>
                   && selected == Some(Grab(hit.value, x, y))
                   && clicked == (if hit.value.zone == Inside then Moving else Resizing)
                   && Log() == History.Commit(old(Log()), old(Current()), false))
      ensures old(clicked) != Writing && tool != "select" ==>
                var made := CreateDrawing(|old(Current())|, x, y, x, y, tool);
                (made.Err? ==> unchanged(this)) &&
                (made.Ok? ==>
                   && selected == Some(Selection(made.value, Drawn))
                   && clicked == (if tool == "Text" then Writing else Drawing)
                   && Log() == History.Commit(old(Log()), old(Current()) + [made.value], false))
    {
      if clicked == Writing {
        return;
      }
      var scene := Current();
      if tool == "select" {
        var hit := Locate(x, y, scene, onSegment);
        if hit.Some? {
          ghost var i :| 0 <= i < |scene| && FirstHitAt(x, y, scene, i, onSegment) &&
                         hit.value == Hit(scene[i], LiesWithin(x, y, scene[i], onSegment).value);
          SetState(scene, false);
          selected := Some(Grab(hit.value, x, y));
          clicked := if hit.value.zone == Inside then Moving else Resizing;
        }
      } else {
        var made := CreateDrawing(|scene|, x, y, x, y, tool);
        if made.Ok? {
          SetState(scene + [made.value], false);
          selected := Some(Selection(made.value, Drawn));
          clicked := if tool == "Text" then Writing else Drawing;
        }
      }
    }

    /**
     * `handle_mouse_move`. In selection mode the cursor follows the zone
     * under the pointer. While drawing, moving or resizing, the dragged
     * element is rebuilt and the current snapshot replaced.
     */
    method MouseMove(x: int, y: int)
      requires Valid()
      modifies this
      ensures Valid()
      ensures clicked == old(clicked) && selected == old(selected) && tool == old(tool)
      ensures cursor == if tool == "select" then HoverCursor(Locate(x, y, old(Current()), onSegment)) else old(cursor)
      ensures old(selected).None? ==> Log() == old(Log())
      ensures old(selected).Some? ==>
                Log() == match DragScene(old(Current()), old(clicked), old(selected).value, tool, x, y, measure)
                         case None => old(Log())
                         case Some(s) => History.Commit(old(Log()), s, true)
    {
      var scene := Current();
      if tool == "select" {
        cursor := HoverCursor(Locate(x, y, scene, onSegment));
      }
      if selected.Some? {
        var dragged := DragScene(scene, clicked, selected.value, tool, x, y, measure);
        if dragged.Some? {
          SetState(dragged.value, true);
        }
      }
    }

    /**
     * `handle_mouse_up`. A label released where it was grabbed switches to
     * writing. Otherwise a drawn or resized line or rectangle is
     * canonicalised, and the gesture ends unless a label is being written.
     */
    method MouseUp(x: int, y: int)
      requires Valid()
      modifies this
      ensures Valid() && tool == old(tool) && cursor == old(cursor)
      ensures old(selected).None? ==> unchanged(this)
      ensures old(selected).Some? && ReleasedInPlace(old(selected).value, x, y) ==>
                clicked == Writing && selected == old(selected) && Log() == old(Log())
      ensures old(selected).Some? && !ReleasedInPlace(old(selected).value, x, y) ==>
                && Log() == (match ReleaseScene(old(Current()), old(clicked), old(selected).value, measure)
                             case None => old(Log())
                             case Some(s) => History.Commit(old(Log()), s, true))
                && (old(clicked) == Writing ==> clicked == Writing && selected == old(selected))
                && (old(clicked) != Writing ==> clicked == Idle && selected.None?)
    {
      if selected.None? {
        return;
      }
      var sel := selected.value;
      if ReleasedInPlace(sel, x, y) {
        clicked := Writing;
        return;
      }
      var released := ReleaseScene(Current(), clicked, sel, measure);
      if released.Some? {
        SetState(released.value, true);
      }
      if clicked == Writing {
        return;
      }
      clicked := Idle;
      selected := None;
    }

    /**
     * `ClickedAway`: the text box lost focus. The label being written gets
     * the entered text and is resized to it, the current snapshot is
     * replaced, and the gesture ends.
     */
    method ClickedAway(value: string)
      requires Valid() && clicked == Writing
      modifies this
      ensures Valid() && clicked == Idle && selected.None? && tool == old(tool) && cursor == old(cursor)
      ensures var caption := old(selected).value.element;
              Log() == match UpdatedScene(old(Current()), caption.id, caption.x1, caption.y1, caption.x2, caption.y2,
                                          Tag(caption), Some(value), measure)
                       case Err(_) => old(Log())
                       case Ok(s) => History.Commit(old(Log()), s, true)
    {
      var caption := selected.value.element;
      clicked := Idle;
      selected := None;
      var updated := UpdatedScene(Current(), caption.id, caption.x1, caption.y1, caption.x2, caption.y2, Tag(caption), Some(value), measure);
      if updated.Ok? {
        SetState(updated.value, true);
      }
    }
  }

  /** Draws a rectangle backwards, then undoes and redoes it. */
  method DrawRectangleScenario(measure: string -> nat, onSegment: OnSegment)
  {
    var editor := new Editor(measure, onSegment);
    editor.SetTool("Rectangle");
    assert editor.Current() == [];
    editor.MouseDown(50, 40);
    assert editor.clicked == Drawing && editor.Log().entries == [[], editor.Current()];
    assert editor.Current() == [Rectangle(0, 50, 40, 50, 40, RectangleSketch(50, 40, 0, 0))];
    editor.MouseMove(10, 20);
    assert |editor.Current()| == 1 && Corners(editor.Current()[0]) == Some(Coords(50, 40, 10, 20));
    editor.MouseUp(10, 20);
    assert editor.clicked == Idle && |editor.Log().entries| == 2;
    assert |editor.Current()| == 1 && Corners(editor.Current()[0]) == Some(Coords(10, 20, 50, 40));
    editor.Undo();
    assert editor.Current() == [];
    editor.Redo();
    assert Corners(editor.Current()[0]) == Some(Coords(10, 20, 50, 40));
  }
}
