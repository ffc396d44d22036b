/**
 * Integer geometry underneath the shapes: points and axis-aligned boxes.
 *
 * ML5.Draw keeps a shape's bounding box in a wxRect. A wxRect stores an
 * origin plus a width and a height; the two-point constructor, SetRight and
 * SetBottom treat both corners as INCLUSIVE, so width = right - left + 1.
 * Here the box is held by its two corners and that convention lives in
 * exactly one place: Width and Height below. Every other operation on a box
 * (containment, emptiness, the bottom-right corner) is phrased through them,
 * the way wxRect phrases them through its stored width and height.
 */
module Geometry {

  /** A wxPoint: a window position, or an offset between two positions. */
  datatype Point = Point(x: int, y: int) {

    /** Componentwise sum, as wxPoint's operator+. */
    function Plus(o: Point): Point {
      Point(x + o.x, y + o.y)
    }

    /** Componentwise difference, as wxPoint's operator-. */
    function Minus(o: Point): Point {
      Point(x - o.x, y - o.y)
    }
  }

  /** A bounding box given by its two corners, both inside the box. */
  datatype Box = Box(leftTop: Point, rightBottom: Point)

  /** wxRect::GetWidth under the inclusive-corner convention. */
  function Width(b: Box): int {
    b.rightBottom.x - b.leftTop.x + 1
  }

  /** wxRect::GetHeight under the inclusive-corner convention. */
  function Height(b: Box): int {
    b.rightBottom.y - b.leftTop.y + 1
  }

  /** wxRect::GetBottomRight: the origin plus the extent, less one. */
  function BottomRight(b: Box): Point {
    Point(b.leftTop.x + Width(b) - 1, b.leftTop.y + Height(b) - 1)
  }

  /** wxRect{p, p}: the box that covers the single pixel p. */
  function PointBox(p: Point): Box {
    Box(p, p)
  }

  /** wxRect::Contains: at or right of / below the origin and less than the extent away. */
  predicate BoxContains(b: Box, p: Point) {
    && b.leftTop.x <= p.x
    && b.leftTop.y <= p.y
    && p.x - b.leftTop.x < Width(b)
    && p.y - b.leftTop.y < Height(b)
  }

  /** The emptiness test of ML5.Draw: no extent in either direction. */
  predicate BoxIsEmpty(b: Box) {
    Width(b) == 0 && Height(b) == 0
  }

  /** wxRect::SetRightBottom: the origin stays, the extent is recomputed. */
  function BoxSetRightBottom(b: Box, p: Point): Box {
    Box(b.leftTop, p)
  }

  /** wxRect::Offset: both corners shift by the offset. */
  function BoxOffset(b: Box, o: Point): Box {
    Box(b.leftTop.Plus(o), b.rightBottom.Plus(o))
  }

  /** The bottom-right corner read through the width convention is the stored corner. */
  lemma BottomRightIsCorner(b: Box)
    ensures BottomRight(b) == b.rightBottom
  {
  }
}
