/**
 * Properties of the drawing window over whole event sequences: the
 * controller invariant, what a gesture (press, drags, release) leaves
 * behind, and what the keep-only-empty commit rule implies together with
 * the inclusive-corner box convention.
 */
module WindowProperties {
  import opened Results
  import opened Geometry
  import opened Shapes
  import Tools
  import opened ShapeList
  import opened Controller

  /** The mouse-move events for a path of positions. */
  function Moves(ps: seq<Point>): (es: seq<Event>)
    ensures |es| == |ps|
    ensures forall i :: 0 <= i < |ps| ==> es[i] == MouseMove(ps[i])
    decreases |ps|
  {
    if |ps| == 0 then [] else [MouseMove(ps[0])] + Moves(ps[1..])
  }

  /** Running two event sequences back to back is running their concatenation. */
  lemma {:induction false} RunAppend(w: Window, a: seq<Event>, b: seq<Event>)
    ensures Run(w, a + b) == match Run(w, a)
                             case Err(f) => Err(f)
                             case Ok(w') => Run(w', b)
    decreases |a|
  {
    if |a| == 0 {
      assert a + b == b;
    } else {
      assert (a + b)[0] == a[0];
      assert (a + b)[1..] == a[1..] + b;
      match Step(w, a[0])
      case Err(_) =>
      case Ok(w') => RunAppend(w', a[1..], b);
    }
  }

  /** Every handler keeps "a shape is active iff an operation runs", so on_mouse_move never faults. */
  lemma StepKeepsInv(w: Window, e: Event)
    requires Inv(w)
    ensures Step(w, e) != Err(UnknownState)
    ensures Step(w, e).Ok? ==> Inv(Step(w, e).value)
  {
  }

  lemma {:induction false} RunKeepsInv(w: Window, es: seq<Event>)
    requires Inv(w)
    ensures Run(w, es) != Err(UnknownState)
    ensures Run(w, es).Ok? ==> Inv(Run(w, es).value)
    decreases |es|
  {
    if |es| > 0 {
      StepKeepsInv(w, es[0]);
      if Step(w, es[0]).Ok? {
        RunKeepsInv(Step(w, es[0]).value, es[1..]);
      }
    }
  }

  /**
   * The states the window can reach from its initial state: the invariant
   * holds, every committed shape is empty (only empty shapes are ever
   * committed), and no shape is ever being moved.
   */
  ghost predicate Settled(w: Window) {
    && Inv(w)
    && w.op != Moving
    && forall i :: 0 <= i < |w.shapes| ==> Empty(w.shapes[i])
  }

  /** An empty box holds no point, so a list of empty shapes is never hit. */
  lemma EmptyShapesNeverHit(shapes: seq<Shape>, pos: Point)
    requires forall i :: 0 <= i < |shapes| ==> Empty(shapes[i])
    ensures TakeTopmost(shapes, pos) == (None, shapes)
  {
  }

  lemma StepKeepsSettled(w: Window, e: Event)
    requires Settled(w)
    ensures Step(w, e) != Err(UnknownState)
    ensures Step(w, e).Ok? ==> Settled(Step(w, e).value)
  {
    match e
    case LeftDown(p) =>
      if w.active.None? && w.op == Idle {
        EmptyShapesNeverHit(w.shapes, p);
      }
    case MouseMove(_) =>
    case LeftUp =>
      if w.active.Some? && Empty(w.active.value) {
        var r := OnMouseLeftUp(w);
        assert r.shapes == w.shapes + [w.active.value];
        assert forall i :: 0 <= i < |r.shapes| ==> Empty(r.shapes[i]) by {
          forall i | 0 <= i < |r.shapes|
            ensures Empty(r.shapes[i])
          {
            if i < |w.shapes| {
              assert r.shapes[i] == w.shapes[i];
            }
          }
        }
      }
    case Menu(_) =>
  }

  lemma {:induction false} RunKeepsSettled(w: Window, es: seq<Event>)
    requires Settled(w)
    ensures Run(w, es) != Err(UnknownState)
    ensures Run(w, es).Ok? ==> Settled(Run(w, es).value)
    decreases |es|
  {
    if |es| > 0 {
      StepKeepsSettled(w, es[0]);
      if Step(w, es[0]).Ok? {
        RunKeepsSettled(Step(w, es[0]).value, es[1..]);
      }
    }
  }

  /**
   * From the initial window, any event sequence either stops at a failed
   * assertion of on_mouse_left_down (a press while a shape is active) or
   * ends in a settled state: the moving operation is never entered, and
   * no committed shape contains any point, so none can be picked up again.
   */
  lemma FromInit(es: seq<Event>)
    ensures Run(Init(), es).Ok? || Run(Init(), es) == Err(AssertionFailed)
    ensures Run(Init(), es).Ok? ==> Settled(Run(Init(), es).value)
  {
    RunKeepsSettled(Init(), es);
    var r := Run(Init(), es);
    if r.Err? {
      assert r.error != UnknownState;
    }
  }

  /**
   * While moving, a path of mouse moves translates the shape by the distance
   * from the press position to the last position, and nothing else changes.
   */
  lemma {:induction false} MovesTranslate(w: Window, ps: seq<Point>)
    requires w.op == Moving && w.active.Some?
    requires |ps| > 0
    ensures Run(w, Moves(ps))
            == Ok(w.(active := Some(Move(w.active.value, ps[|ps| - 1].Minus(w.lastMovePos))),
                     lastMovePos := ps[|ps| - 1]))
    decreases |ps|
  {
    var s := w.active.value;
    var w1 := w.(active := Some(Move(s, ps[0].Minus(w.lastMovePos))), lastMovePos := ps[0]);
    assert Step(w, MouseMove(ps[0])) == Ok(w1);
    assert Moves(ps)[1..] == Moves(ps[1..]);
    if |ps| > 1 {
      MovesTranslate(w1, ps[1..]);
      var last := ps[|ps| - 1];
      assert ps[1..][|ps[1..]| - 1] == last;
      assert Move(Move(s, ps[0].Minus(w.lastMovePos)), last.Minus(ps[0])) == Move(s, last.Minus(w.lastMovePos));
    } else {
      assert Moves(ps[1..]) == [];
    }
  }

  /**
   * While dragging, a path of mouse moves leaves the anchor where the press
   * was and puts the bottom-right corner at the last position: only the
   * last move matters.
   */
  lemma {:induction false} DragsKeepAnchor(w: Window, ps: seq<Point>)
    requires w.op == Dragging && w.active.Some?
    requires |ps| > 0
    ensures Run(w, Moves(ps)) == Ok(w.(active := Some(SetRightBottom(w.active.value, ps[|ps| - 1]))))
    decreases |ps|
  {
    var s := w.active.value;
    var w1 := w.(active := Some(SetRightBottom(s, ps[0])));
    assert Step(w, MouseMove(ps[0])) == Ok(w1);
    assert Moves(ps)[1..] == Moves(ps[1..]);
    if |ps| > 1 {
      DragsKeepAnchor(w1, ps[1..]);
      assert ps[1..][|ps[1..]| - 1] == ps[|ps| - 1];
    } else {
      assert Moves(ps[1..]) == [];
    }
  }

  /**
   * Press on empty canvas at p, drag to q, release: the new shape spans p to
   * q and is kept only when q is one pixel above and left of p, the one
   * corner that makes its box empty; every other drag is thrown away.
   */
  lemma DrawGesture(w: Window, p: Point, q: Point)
    requires w.op == Idle && w.active.None?
    requires forall i :: 0 <= i < |w.shapes| ==> !Contains(w.shapes[i], p)
    ensures var s := Shape(w.settings.nextShape, Box(p, q), w.settings.pen, w.settings.brush);
            Run(w, [LeftDown(p), MouseMove(q), LeftUp])
            == Ok(w.(shapes := if q == p.Minus(Point(1, 1)) then w.shapes + [s] else w.shapes))
  {
    var s := Shape(w.settings.nextShape, Box(p, q), w.settings.pen, w.settings.brush);
    var w1 := w.(active := Some(MakeShape(w.settings, p)), op := Dragging);
    assert Step(w, LeftDown(p)) == Ok(w1);
    var w2 := w1.(active := Some(s));
    assert SetRightBottom(MakeShape(w.settings, p), q) == s;
    assert Step(w1, MouseMove(q)) == Ok(w2);
    assert Empty(s) <==> q == p.Minus(Point(1, 1));
    var w3 := w.(shapes := if q == p.Minus(Point(1, 1)) then w.shapes + [s] else w.shapes);
    assert Step(w2, LeftUp) == Ok(w3);
    var es := [LeftDown(p), MouseMove(q), LeftUp];
    assert es[1..] == [MouseMove(q), LeftUp] && es[1..][1..] == [LeftUp] && es[1..][1..][1..] == [];
    assert Run(w2, [LeftUp]) == Ok(w3);
  }

  /** A click without dragging makes a one-pixel shape, which is not empty and so is dropped. */
  lemma ClickLeavesNothing(w: Window, p: Point)
    requires w.op == Idle && w.active.None?
    requires forall i :: 0 <= i < |w.shapes| ==> !Contains(w.shapes[i], p)
    ensures Run(w, [LeftDown(p), LeftUp]) == Ok(w)
  {
    var w1 := w.(active := Some(MakeShape(w.settings, p)), op := Dragging);
    assert Step(w, LeftDown(p)) == Ok(w1);
    assert Step(w1, LeftUp) == Ok(w);
    var es := [LeftDown(p), LeftUp];
    assert es[1..] == [LeftUp] && es[1..][1..] == [];
    assert Run(w1, [LeftUp]) == Ok(w);
  }

  /**
   * Press on a committed shape, move it along any path, release: the shape
   * under the mouse is non-empty (it contains the press point), moving keeps
   * its size, so the release drops it; the list loses exactly that shape.
   */
  lemma PickUpAndReleaseDrops(w: Window, pos: Point, ps: seq<Point>)
    requires w.op == Idle && w.active.None?
    requires TopmostIndex(w.shapes, pos).Some?
    ensures var k := TopmostIndex(w.shapes, pos).value;
            && Run(w, [LeftDown(pos)] + Moves(ps) + [LeftUp]).Ok?
            && Run(w, [LeftDown(pos)] + Moves(ps) + [LeftUp]).value.shapes == RemoveAt(w.shapes, k)
            && |Run(w, [LeftDown(pos)] + Moves(ps) + [LeftUp]).value.shapes| == |w.shapes| - 1
  {
    var k := TopmostIndex(w.shapes, pos).value;
    var s := w.shapes[k];
    assert !Empty(s);
    var w1 := OnMouseLeftDown(w, pos);
    assert w1 == w.(active := Some(s), shapes := RemoveAt(w.shapes, k), lastMovePos := pos, op := Moving);
    assert Run(w, [LeftDown(pos)]) == Ok(w1) by {
      assert [LeftDown(pos)][1..] == [];
    }
    RunAppend(w, [LeftDown(pos)], Moves(ps));
    var w2: Window;
    if |ps| == 0 {
      assert Moves(ps) == [];
      w2 := w1;
    } else {
      MovesTranslate(w1, ps);
      w2 := w1.(active := Some(Move(s, ps[|ps| - 1].Minus(pos))), lastMovePos := ps[|ps| - 1]);
    }
    assert Run(w, [LeftDown(pos)] + Moves(ps)) == Ok(w2);
    assert w2.active.Some? && !Empty(w2.active.value) && w2.shapes == RemoveAt(w.shapes, k);
    RunAppend(w, [LeftDown(pos)] + Moves(ps), [LeftUp]);
    assert [LeftUp][1..] == [];
  }

  /** A menu selection followed by more events: the events run on the window with the new settings. */
  lemma MenuThenRun(w: Window, item: string, es: seq<Event>)
    ensures Run(w, [Menu(item)] + es) == Run(w.(settings := Tools.OnMenu(w.settings, item)), es)
  {
    var all := [Menu(item)] + es;
    assert all[0] == Menu(item) && all[1..] == es;
    assert Step(w, Menu(item)) == Ok(OnMenu(w, item));
  }

  /**
   * Choose a kind in the Shape menu, then press on empty canvas at p, drag
   * to q and release: the shape dragged out has the chosen kind, and it is
   * kept only when its box is empty.
   */
  lemma ChooseKindThenDraw(w: Window, k: Kind, p: Point, q: Point)
    requires w.op == Idle && w.active.None?
    requires forall i :: 0 <= i < |w.shapes| ==> !Contains(w.shapes[i], p)
    ensures var t := w.settings.(nextShape := k);
            var s := Shape(k, Box(p, q), t.pen, t.brush);
            Run(w, [Menu("Shape/" + Tools.KindLabel(k)), LeftDown(p), MouseMove(q), LeftUp])
            == Ok(w.(settings := t, shapes := if q == p.Minus(Point(1, 1)) then w.shapes + [s] else w.shapes))
  {
    var item := "Shape/" + Tools.KindLabel(k);
    var gesture := [LeftDown(p), MouseMove(q), LeftUp];
    Tools.ShapeEntryTakesEffect(w.settings, k);
    MenuThenRun(w, item, gesture);
    assert [Menu(item)] + gesture == [Menu(item), LeftDown(p), MouseMove(q), LeftUp];
    DrawGesture(w.(settings := w.settings.(nextShape := k)), p, q);
  }
}
