/**
 * The drawing window's interaction state machine: the committed shapes, the
 * one shape being manipulated (new_shape in the C++ code), the current
 * operation, the last mouse position seen while moving, and the tool
 * settings. Each mouse and menu handler is a pure transition.
 */
module Controller {
  import opened Results
  import opened Geometry
  import opened Shapes
  import Tools
  import opened ShapeList

  /** The C++ `operation` enum; `none` is called Idle here. */
  datatype Operation = Idle | Moving | Dragging

  datatype Window = Window(
    settings: Tools.ToolSettings,
    op: Operation,
    shapes: seq<Shape>,
    active: Option<Shape>,
    lastMovePos: Point)

  /** The two ways a handler of ML5.Draw stops the program. */
  datatype Fault =
    | AssertionFailed  // on_mouse_left_down entered with a shape active or an operation running
    | UnknownState     // on_mouse_move with a shape active but no operation

  /** A shape is being manipulated exactly when an operation is running. */
  ghost predicate Inv(w: Window) {
    w.active.Some? <==> w.op != Idle
  }

  /** The window as constructed: line tool, black pen, green brush, nothing drawn. */
  function Init(): (w: Window)
    ensures w.settings == Tools.ToolSettings(Line, Pen(Black), Brush(Green))
    ensures w.op == Idle && w.active.None? && w.shapes == []
    ensures Inv(w)
  {
    Window(Tools.ToolSettings(Line, Pen(Black), Brush(Green)), Idle, [], None, Point(0, 0))
  }

  /** make_shape: a shape of the selected kind, in the current pen and brush, covering pos. */
  function MakeShape(t: Tools.ToolSettings, pos: Point): (s: Shape)
    ensures s.kind == t.nextShape && s.pen == t.pen && s.brush == t.brush
    ensures forall q :: Contains(s, q) <==> q == pos
    ensures s.box.leftTop == pos && !Empty(s)
  {
    NewShape(t.nextShape, pos, t.pen, t.brush)
  }

  /**
   * on_mouse_left_down. A hit lifts the topmost shape under the mouse out of
   * the list to be moved; a miss starts dragging out a new shape.
   */
  function OnMouseLeftDown(w: Window, pos: Point): (r: Window)
    requires w.active.None? && w.op == Idle
    ensures r.settings == w.settings && r.active.Some? && r.op != Idle
    ensures r.op == Moving <==> exists i :: 0 <= i < |w.shapes| && Contains(w.shapes[i], pos)
    ensures r.op == Moving ==>
              && r.lastMovePos == pos
              && exists k :: && 0 <= k < |w.shapes|
                             && r.active == Some(w.shapes[k])
                             && Contains(w.shapes[k], pos)
                             && (forall j :: k < j < |w.shapes| ==> !Contains(w.shapes[j], pos))
                             && r.shapes == w.shapes[..k] + w.shapes[k + 1..]
    ensures r.op == Dragging ==>
              && r.active == Some(MakeShape(w.settings, pos))
              && r.shapes == w.shapes
              && r.lastMovePos == w.lastMovePos
    ensures multiset(r.shapes) + (if r.op == Moving then multiset{r.active.value} else multiset{})
            == multiset(w.shapes)
  {
    var (hit, rest) := TakeTopmost(w.shapes, pos);
    if hit.Some? then
      w.(active := hit, shapes := rest, lastMovePos := pos, op := Moving)
    else
      w.(active := Some(MakeShape(w.settings, pos)), op := Dragging)
  }

  /**
   * on_mouse_move. Without an active shape nothing happens. Moving shifts the
   * shape by the distance since the last move; dragging pins its bottom-right
   * corner to the mouse. An active shape with no operation is a fault.
   */
  function OnMouseMove(w: Window, pos: Point): (r: Result<Window, Fault>)
    ensures r.Err? <==> w.active.Some? && w.op == Idle
    ensures r.Err? ==> r.error == UnknownState
    ensures w.active.None? ==> r == Ok(w)
    ensures r.Ok? ==> && r.value.shapes == w.shapes && r.value.settings == w.settings
                      && r.value.op == w.op && r.value.active.Some? == w.active.Some?
    ensures r.Ok? && w.active.Some? && w.op == Moving ==>
              var (s, s') := (w.active.value, r.value.active.value);
              && s'.kind == s.kind && s'.pen == s.pen && s'.brush == s.brush
              && s'.box.leftTop == s.box.leftTop.Plus(pos.Minus(w.lastMovePos))
              && Width(s'.box) == Width(s.box) && Height(s'.box) == Height(s.box)
              && r.value.lastMovePos == pos
    ensures r.Ok? && w.active.Some? && w.op == Dragging ==>
              var (s, s') := (w.active.value, r.value.active.value);
              && s'.kind == s.kind && s'.pen == s.pen && s'.brush == s.brush
              && s'.box.leftTop == s.box.leftTop && s'.box.rightBottom == pos
              && r.value.lastMovePos == w.lastMovePos
  {
    match w.active
    case None => Ok(w)
    case Some(s) =>
      match w.op
      case Moving => Ok(w.(active := Some(Move(s, pos.Minus(w.lastMovePos))), lastMovePos := pos))
      case Dragging => Ok(w.(active := Some(SetRightBottom(s, pos))))
      case Idle => Err(UnknownState)
  }

  /**
   * on_mouse_left_up. The active shape is appended on top of the list when
   * its box is empty and dropped otherwise; either way the slot is cleared
   * and the operation ends.
   */
  function OnMouseLeftUp(w: Window): (r: Window)
    ensures w.active.None? ==> r == w
    ensures r.active.None?
    ensures w.active.Some? ==> r.op == Idle && r.settings == w.settings && r.lastMovePos == w.lastMovePos
    ensures w.active.Some? ==> (r.shapes == w.shapes + [w.active.value] <==> Empty(w.active.value))
    ensures w.active.Some? && !Empty(w.active.value) ==> r.shapes == w.shapes
    ensures w.active.Some? ==>
              multiset(r.shapes) == multiset(w.shapes) + (if Empty(w.active.value) then multiset{w.active.value} else multiset{})
    ensures Inv(w) ==> Inv(r)
  {
    match w.active
    case None => w
    case Some(s) =>
      if !Empty(s) then w.(active := None, op := Idle)
      else w.(shapes := w.shapes + [s], active := None, op := Idle)
  }

  /** on_menu: only the tool settings change; shapes, active shape and operation are untouched. */
  function OnMenu(w: Window, item: string): (r: Window)
    ensures r.op == w.op && r.shapes == w.shapes && r.active == w.active && r.lastMovePos == w.lastMovePos
    ensures r.settings == Tools.OnMenu(w.settings, item)
  {
    w.(settings := Tools.OnMenu(w.settings, item))
  }

  /** An input the window receives. */
  datatype Event = LeftDown(pos: Point) | MouseMove(pos: Point) | LeftUp | Menu(item: string)

  /**
   * Dispatch one event; the assertions of on_mouse_left_down become a fault.
   * Only a press during an operation and a move with a shape active but no
   * operation fault; a release or a menu choice never does.
   */
  function Step(w: Window, e: Event): (r: Result<Window, Fault>)
    ensures r.Err? <==> || (e.LeftDown? && (w.active.Some? || w.op != Idle))
                        || (e.MouseMove? && w.active.Some? && w.op == Idle)
    ensures r.Err? ==> r.error == (if e.LeftDown? then AssertionFailed else UnknownState)
    ensures r.Ok? && !e.Menu? ==> r.value.settings == w.settings
    ensures r.Ok? && e.Menu? ==> && r.value.shapes == w.shapes && r.value.active == w.active
                                  && r.value.op == w.op && r.value.lastMovePos == w.lastMovePos
  {
    match e
    case LeftDown(p) =>
      if w.active.None? && w.op == Idle then Ok(OnMouseLeftDown(w, p)) else Err(AssertionFailed)
    case MouseMove(p) => OnMouseMove(w, p)
    case LeftUp => Ok(OnMouseLeftUp(w))
    case Menu(item) => Ok(OnMenu(w, item))
  }

  /** Dispatch events in order, stopping at the first fault. */
  function Run(w: Window, es: seq<Event>): Result<Window, Fault>
    decreases |es|
  {
    if |es| == 0 then Ok(w)
    else
      match Step(w, es[0])
      case Err(f) => Err(f)
      case Ok(w') => Run(w', es[1..])
  }
}
