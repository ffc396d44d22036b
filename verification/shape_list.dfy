/**
 * The window's list of committed shapes, in z-order: index 0 is painted
 * first, the last index is painted last and so is on top. The hit test of
 * ML5.Draw scans front to back and remembers the LAST shape that contains
 * the position, then lifts that shape out of the list.
 */
module ShapeList {
  import opened Results
  import opened Geometry
  import opened Shapes

  /** The index of the topmost shape containing pos, found from the top down. */
  function TopmostIndex(shapes: seq<Shape>, pos: Point): (r: Option<nat>)
    ensures r.None? <==> forall i :: 0 <= i < |shapes| ==> !Contains(shapes[i], pos)
    ensures r.Some? ==> && r.value < |shapes|
                        && Contains(shapes[r.value], pos)
                        && forall j :: r.value < j < |shapes| ==> !Contains(shapes[j], pos)
    decreases |shapes|
  {
    if |shapes| == 0 then None
    else if Contains(shapes[|shapes| - 1], pos) then Some(|shapes| - 1)
    else TopmostIndex(shapes[..|shapes| - 1], pos)
  }

  /** The list without its k-th element; the others keep their order. */
  function RemoveAt(shapes: seq<Shape>, k: nat): (r: seq<Shape>)
    requires k < |shapes|
    ensures |r| == |shapes| - 1
    ensures forall i :: 0 <= i < k ==> r[i] == shapes[i]
    ensures forall i :: k <= i < |r| ==> r[i] == shapes[i + 1]
    ensures multiset(r) + multiset{shapes[k]} == multiset(shapes)
  {
    assert shapes == shapes[..k] + [shapes[k]] + shapes[k + 1..];
    shapes[..k] + shapes[k + 1..]
  }

  /**
   * get_topmost_shape: on a hit, the topmost containing shape and the list
   * without it; on a miss, nothing and the list unchanged.
   */
  function TakeTopmost(shapes: seq<Shape>, pos: Point): (r: (Option<Shape>, seq<Shape>))
    ensures r.0.None? <==> forall i :: 0 <= i < |shapes| ==> !Contains(shapes[i], pos)
    ensures r.0.None? ==> r.1 == shapes
    ensures r.0.Some? ==> exists k :: && 0 <= k < |shapes|
                                     && r.0.value == shapes[k]
                                     && Contains(shapes[k], pos)
                                     && (forall j :: k < j < |shapes| ==> !Contains(shapes[j], pos))
                                     && r.1 == shapes[..k] + shapes[k + 1..]
  {
    match TopmostIndex(shapes, pos)
    case None => (None, shapes)
    case Some(k) => (Some(shapes[k]), RemoveAt(shapes, k))
  }

  /**
   * The C++ code's front-to-back scan: remember every index whose shape
   * contains pos, so the last one remembered wins; then remove that element.
   */
  method GetTopmostShape(shapes: seq<Shape>, pos: Point) returns (hit: Option<Shape>, rest: seq<Shape>)
    ensures hit.None? <==> forall i :: 0 <= i < |shapes| ==> !Contains(shapes[i], pos)
    ensures hit.None? ==> rest == shapes
    ensures hit.Some? ==> exists k :: && 0 <= k < |shapes|
                                     && hit.value == shapes[k]
                                     && Contains(shapes[k], pos)
                                     && (forall j :: k < j < |shapes| ==> !Contains(shapes[j], pos))
                                     && rest == shapes[..k] + shapes[k + 1..]
    ensures (hit, rest) == TakeTopmost(shapes, pos)
  {
    var tmp: Option<nat> := None;
    var i := 0;
    while i < |shapes|
      invariant 0 <= i <= |shapes|
      invariant tmp.None? ==> forall j :: 0 <= j < i ==> !Contains(shapes[j], pos)
      invariant tmp.Some? ==> && tmp.value < i
                              && Contains(shapes[tmp.value], pos)
                              && forall j :: tmp.value < j < i ==> !Contains(shapes[j], pos)
    {
      if Contains(shapes[i], pos) {
        tmp := Some(i);
      }
      i := i + 1;
    }
    match tmp {
      case None =>
        hit, rest := None, shapes;
      case Some(k) =>
        TopmostIndexUnique(shapes, pos, k);
        hit, rest := Some(shapes[k]), RemoveAt(shapes, k);
    }
  }

  /** The topmost containing index is the only one with nothing containing above it. */
  lemma TopmostIndexUnique(shapes: seq<Shape>, pos: Point, k: nat)
    requires k < |shapes| && Contains(shapes[k], pos)
    requires forall j :: k < j < |shapes| ==> !Contains(shapes[j], pos)
    ensures TopmostIndex(shapes, pos) == Some(k)
  {
  }

  /**
   * Of overlapping shapes the one added later is hit: appending a shape that
   * contains pos makes it the topmost hit.
   */
  lemma LaterShapeWins(shapes: seq<Shape>, s: Shape, pos: Point)
    requires Contains(s, pos)
    ensures TakeTopmost(shapes + [s], pos) == (Some(s), shapes)
  {
    var all := shapes + [s];
    assert TopmostIndex(all, pos) == Some(|shapes|);
    assert TakeTopmost(all, pos) == (Some(all[|shapes|]), RemoveAt(all, |shapes|));
    assert RemoveAt(all, |shapes|) == shapes;
  }

  /** No shape is lost or duplicated by the hit test: hit plus rest is the old list. */
  lemma TakeTopmostKeepsShapes(shapes: seq<Shape>, pos: Point)
    ensures var (hit, rest) := TakeTopmost(shapes, pos);
            multiset(rest) + (if hit.Some? then multiset{hit.value} else multiset{}) == multiset(shapes)
  {
  }
}
