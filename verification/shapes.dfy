/**
 * The shape hierarchy of the drawing program: a bounding box plus a pen and
 * a brush fixed at construction. The three concrete shapes (line, ellipse,
 * rectangle) differ only in how they render, so the kind is a tag here and
 * rendering is one exhaustive match instead of a virtual call.
 */
module Shapes {
  import opened Geometry

  datatype Kind = Line | Ellipse | Rectangle

  /** The stock colours the menus offer; only their identity matters. */
  datatype Colour = Blue | Green | Red | White | LightGrey | Black

  datatype Pen = Pen(colour: Colour)
  datatype Brush = Brush(colour: Colour)

  /** A shape owns its box; pen and brush are const members in the C++ code. */
  datatype Shape = Shape(kind: Kind, box: Box, pen: Pen, brush: Brush)

  /** One call a shape makes on the drawing context. */
  datatype Command =
    | UsePen(pen: Pen)
    | UseBrush(brush: Brush)
    | DrawLine(from: Point, to: Point)
    | DrawEllipse(bounds: Box)
    | DrawRectangle(bounds: Box)

  /** Constructor: the box covers just the construction point. */
  function NewShape(kind: Kind, p: Point, pen: Pen, brush: Brush): (s: Shape)
    ensures s.kind == kind && s.pen == pen && s.brush == brush
    ensures Width(s.box) == 1 && Height(s.box) == 1
    ensures forall q :: Contains(s, q) <==> q == p
    ensures !Empty(s)
  {
    Shape(kind, PointBox(p), pen, brush)
  }

  /** Hit test: the point lies between the two corners, edges included. */
  function Contains(s: Shape, p: Point): (r: bool)
    ensures r <==> (&& s.box.leftTop.x <= p.x <= s.box.rightBottom.x
                    && s.box.leftTop.y <= p.y <= s.box.rightBottom.y)
  {
    BoxContains(s.box, p)
  }

  /**
   * Emptiness: no width and no height. Under the inclusive-corner
   * convention that puts the bottom-right corner one pixel above and left of
   * the top-left one, and such a box holds no point at all.
   */
  function Empty(s: Shape): (r: bool)
    ensures r <==> s.box.rightBottom == s.box.leftTop.Minus(Point(1, 1))
    ensures r ==> forall p :: !Contains(s, p)
  {
    BoxIsEmpty(s.box)
  }

  /** Resize by dragging: the top-left anchor stays, the bottom-right corner follows p. */
  function SetRightBottom(s: Shape, p: Point): (r: Shape)
    ensures r.kind == s.kind && r.pen == s.pen && r.brush == s.brush
    ensures r.box.leftTop == s.box.leftTop
    ensures BottomRight(r.box) == p
    ensures Width(r.box) == p.x - s.box.leftTop.x + 1
    ensures Height(r.box) == p.y - s.box.leftTop.y + 1
  {
    s.(box := BoxSetRightBottom(s.box, p))
  }

  /** Translation: every point of the shape moves by the offset, the size stays. */
  function Move(s: Shape, offset: Point): (r: Shape)
    ensures r.kind == s.kind && r.pen == s.pen && r.brush == s.brush
    ensures r.box.leftTop == s.box.leftTop.Plus(offset)
    ensures Width(r.box) == Width(s.box) && Height(r.box) == Height(s.box)
    ensures Empty(r) <==> Empty(s)
    ensures forall p :: Contains(s, p) <==> Contains(r, p.Plus(offset))
  {
    s.(box := BoxOffset(s.box, offset))
  }

  /** The kind-specific render step (the draw_ overrides of the C++ subclasses). */
  function Render(s: Shape): Command {
    match s.kind
    case Line => DrawLine(s.box.leftTop, BottomRight(s.box))
    case Ellipse => DrawEllipse(s.box)
    case Rectangle => DrawRectangle(s.box)
  }

  /** Draw: select the pen, then the brush, then exactly one geometry command. */
  function Draw(s: Shape): (cmds: seq<Command>)
    ensures |cmds| == 3
    ensures cmds[0] == UsePen(s.pen) && cmds[1] == UseBrush(s.brush)
    ensures s.kind == Line ==> cmds[2] == DrawLine(s.box.leftTop, s.box.rightBottom)
    ensures s.kind == Ellipse ==> cmds[2] == DrawEllipse(s.box)
    ensures s.kind == Rectangle ==> cmds[2] == DrawRectangle(s.box)
  {
    [UsePen(s.pen), UseBrush(s.brush), Render(s)]
  }

  /** The operations a shape undergoes after construction. */
  datatype Edit = MoveBy(offset: Point) | DragTo(corner: Point)

  function ApplyEdits(s: Shape, edits: seq<Edit>): Shape
    decreases |edits|
  {
    if |edits| == 0 then s
    else
      var e := edits[|edits| - 1];
      var t := ApplyEdits(s, edits[..|edits| - 1]);
      match e
      case MoveBy(o) => Move(t, o)
      case DragTo(p) => SetRightBottom(t, p)
  }

  /**
   * Pen, brush and kind are fixed at construction: no sequence of moves and
   * resizes changes them, so every later draw selects the same pen and brush.
   */
  lemma {:induction false} EditsKeepStyle(s: Shape, edits: seq<Edit>)
    ensures ApplyEdits(s, edits).kind == s.kind
    ensures ApplyEdits(s, edits).pen == s.pen && ApplyEdits(s, edits).brush == s.brush
    ensures Draw(ApplyEdits(s, edits))[..2] == Draw(s)[..2]
    decreases |edits|
  {
    if |edits| > 0 {
      EditsKeepStyle(s, edits[..|edits| - 1]);
    }
  }

  /** Moves only translate: any sequence of moves keeps width and height. */
  lemma {:induction false} MovesKeepSize(s: Shape, edits: seq<Edit>)
    requires forall i :: 0 <= i < |edits| ==> edits[i].MoveBy?
    ensures Width(ApplyEdits(s, edits).box) == Width(s.box)
    ensures Height(ApplyEdits(s, edits).box) == Height(s.box)
    decreases |edits|
  {
    if |edits| > 0 {
      MovesKeepSize(s, edits[..|edits| - 1]);
    }
  }
}
