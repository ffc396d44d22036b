# ML5.Draw in Dafny

A model of the interactive core of ML5.Draw, a small wxWidgets drawing
program. The user picks a shape kind (line, ellipse, rectangle), a pen colour
and a brush colour from menus. A press on empty canvas starts dragging out a
new shape from the press point. A press on a committed shape lifts the
topmost shape under the mouse out of the list so it can be moved. Releasing
the button ends the operation and decides whether the active shape joins the
list.

Modules, one per component of the program:

- `Results` (results.dfy): `Option` stands for a nullable owning pointer. `Result` stands for a handler that can end in a fatal fault.
- `Geometry` (geometry.dfy): `wxPoint` and `wxRect`. A box is held by its two corners. The width convention of wxRect (width = right − left + 1, both corners inclusive) is defined once, in `Width` and `Height`.
- `Shapes` (shapes.dfy): the `shape` class and its three subclasses (shape.h, shape.cpp, and the identical copy at main.cpp:3-58). The subclass is a `Kind` tag, and rendering is a list of drawing-context calls.
- `Tools` (tools.dfy): the tool settings and the menu handler `on_menu`. There are two versions: draw_application.h and the single-file main.cpp.
- `ShapeList` (shape_list.dfy): the z-ordered shape list and `get_topmost_shape`.
- `Controller` (controller.dfy): the window's state and its mouse and menu handlers as pure transitions, with `Step`/`Run` over event sequences.
- `WindowProperties` (window_properties.dfy): properties of whole event sequences.

### Behaviour worth knowing

- **A fresh shape is one pixel, not empty.** The constructor builds `wxRect{p, p}`, which wxRect treats as a 1×1 box containing exactly `p`. It is therefore not empty (`Shapes.NewShape`).
- **Emptiness is an unusual box.** `empty()` tests width == 0 and height == 0. Under the inclusive convention that means the bottom-right corner is one pixel above and to the left of the top-left corner, and such a box contains no point (`Shapes.Empty`).
- **The commit rule is kept as written.** On release, a non-empty shape is destroyed and an empty one is appended. The model keeps this literally.
  - A drag is kept only when it ends exactly one pixel up and left of the press point (`WindowProperties.DrawGesture`).
  - A plain click leaves nothing behind (`WindowProperties.ClickLeavesNothing`).
  - Picking up a committed shape and releasing it drops it from the list (`WindowProperties.PickUpAndReleaseDrops`).
  - Together with emptiness, this means the list only ever holds shapes that contain no point. From the initial window, the moving operation is never entered (`WindowProperties.FromInit`).
  - A drag that ends at the press point leaves a 1×1 shape, which is discarded (`WindowProperties.DrawGesture`).
- **The menu handler is a run of independent `if`s.** Each branch assigns one setting. `Tools.OnMenuIsLookup` proves the run equals a first-match table lookup and that at most one setting changes.

## Model

| member | source | states |
|---|---|---|
| Shapes.NewShape | shape.cpp:3 | the new shape has the given kind, pen and brush, its box is 1×1, it contains exactly the construction point, and it is not empty |
| Shapes.Contains | shape.cpp:11-13 | the wx containment test holds exactly when the point lies between the two corners, edges included |
| Shapes.Empty | shape.cpp:15-17 | zero width and height holds exactly when the bottom-right corner is the top-left corner minus (1, 1); an empty shape contains no point |
| Shapes.SetRightBottom | shape.cpp:19-21 | resizing keeps style and top-left anchor, puts the bottom-right corner at the point, and gives width/height right − left + 1 |
| Shapes.Move | shape.cpp:23-25 | moving keeps style and size, shifts the anchor by the offset, preserves emptiness, and shifts containment: p is in the old shape iff p + offset is in the new one |
| Shapes.Draw | shape.h:11-63 | drawing selects the shape's pen, then its brush, then issues one geometry call chosen by kind: a line from the top-left to the bottom-right corner, or an ellipse or rectangle on the box |
| Geometry.BottomRightIsCorner | shape.h:44-46 | the corner the line is drawn to, read through the width convention, is the stored bottom-right corner |
| Shapes.EditsKeepStyle | main.cpp:26-33 | pen, brush and kind are fixed at construction: no sequence of moves and resizes changes them or the first two drawing calls |
| Shapes.MovesKeepSize | shape.h:29-31 | any sequence of moves keeps width and height |
| Tools.RunRulesMiss | draw_application.h:52-70 | an item that matches no branch leaves the setting unchanged |
| Tools.RunRulesIsLookup | draw_application.h:54-70 | with distinct labels, the run of ifs for a setting yields the value of the one branch whose label is the item, else the old value |
| Tools.ShapeRulesWellFormed | draw_application.h:54-56 | the Shape labels are distinct and all start with 'S' |
| Tools.BrushRulesWellFormed | draw_application.h:58-63 | the Brush labels are distinct and all start with 'B' |
| Tools.PenRulesWellFormed | draw_application.h:65-70 | the Pen labels are distinct and all start with 'P' |
| Tools.OnMenuIsLookup | draw_application.h:52-82 | on_menu is a table lookup per setting; at most one of kind, pen and brush changes; an unknown item changes nothing |
| Tools.ShapeRuleTakesEffect | draw_application.h:54-56 | the item of each Shape branch sets the next kind to that branch's kind and leaves pen and brush alone |
| Tools.BrushRuleTakesEffect | draw_application.h:58-63 | the item of each Brush branch sets that brush and leaves kind and pen alone |
| Tools.PenRuleTakesEffect | draw_application.h:65-70 | the item of each Pen branch sets that pen and leaves kind and brush alone |
| Tools.ShapeEntryTakesEffect | draw_application.h:20-24 | choosing any entry of the Shape menu selects that kind and nothing else |
| Tools.BrushEntryTakesEffect | draw_application.h:25-32 | choosing any colour of the Brush menu, light gray included, selects that brush and nothing else |
| Tools.PenEntryTakesEffect | draw_application.h:33-40 | choosing any colour of the Pen menu selects that pen and nothing else |
| Tools.RunRules | draw_application.h:54-70 | the run of `if`s for one setting leaves it unchanged or gives it the value of a branch whose label is the item |
| Tools.OnMenu | draw_application.h:52-82 | each of next kind, pen and brush either keeps its value or takes the value of a branch of its own menu labelled by the item |
| Tools.SingleFileOnMenu | main.cpp:109-136 | in the single-file handler, each of next kind, pen and brush either keeps its value or takes the value of a branch of its own menu labelled by the item |
| Tools.SingleFileBrushRulesWellFormed | main.cpp:115-120 | the single-file Brush labels are distinct and all start with 'B' |
| Tools.SingleFilePenRulesWellFormed | main.cpp:122-126 | the single-file Pen labels are distinct and all start with 'P' |
| Tools.SingleFileOnMenuIsLookup | main.cpp:109-136 | the single-file on_menu is a table lookup per setting; at most one of kind, pen and brush changes; an unknown item changes nothing |
| Tools.SingleFileShapeRuleTakesEffect | main.cpp:111-113 | in the single-file handler, the item of each Shape branch sets that kind and leaves pen and brush alone |
| Tools.SingleFileBrushRuleTakesEffect | main.cpp:115-120 | in the single-file handler, the item of each Brush branch sets that brush and leaves kind and pen alone |
| Tools.SingleFilePenRuleTakesEffect | main.cpp:122-126 | in the single-file handler, the item of each Pen branch sets that pen and leaves kind and brush alone |
| Tools.SingleFileShapeEntryTakesEffect | main.cpp:75-79 | in the single-file program, choosing any entry of the Shape menu selects that kind and nothing else |
| Tools.SingleFileBrushEntryTakesEffect | main.cpp:115-120 | in the single-file program, the Brush items for blue, red, green, white and black select that brush and nothing else (light gray is the finding below) |
| Tools.SingleFilePenEntryTakesEffect | main.cpp:122-126 | in the single-file program, the Pen items for blue, red, green, white and black select that pen and nothing else; it has no light gray pen branch |
| Tools.SingleFileBrushRulesLackLightGray | main.cpp:115-120 | no Brush branch of the single-file handler is labelled "Brush/Light Gray" |
| Tools.SingleFileLightGrayBrushIgnored | main.cpp:109-136 | choosing the Brush menu's "Light Gray" entry in the single-file program changes no setting, while the handler of draw_application.h selects the light grey brush |
| ShapeList.TopmostIndex | draw_application.h:106-112 | no index exactly when no shape contains the point; otherwise a containing index with no containing shape above it |
| ShapeList.RemoveAt | draw_application.h:116-117 | removal keeps the order of the others and loses exactly the removed element (multiset) |
| ShapeList.TakeTopmost | draw_application.h:106-119 | get_topmost_shape as the handler uses it: nothing and the list unchanged exactly when no shape contains the point, otherwise a containing shape with none containing above it and the list without it |
| ShapeList.GetTopmostShape | draw_application.h:106-119 | the front-to-back scan returns the topmost containing shape and the list without it, or nothing and the list unchanged; it agrees with the top-down search |
| ShapeList.TopmostIndexUnique | draw_application.h:108-112 | a containing index with nothing containing above it is the one the search finds |
| ShapeList.LaterShapeWins | draw_application.h:106-119 | of overlapping shapes, the one added last is picked up, and the rest of the list is what it was |
| ShapeList.TakeTopmostKeepsShapes | draw_application.h:113-118 | the hit plus the remaining list is the old list as a multiset |
| Controller.Init | draw_application.h:167-171 | the window starts with the line tool, black pen, green brush, no operation, no active shape and no shapes |
| Controller.MakeShape | draw_application.h:84-94 | the new shape has the selected kind, pen and brush and covers exactly the press point |
| Controller.OnMouseLeftDown | draw_application.h:121-133 | moving starts exactly when some shape contains the press point; it lifts the topmost such shape out of the list and records the press point; otherwise a fresh shape is dragged from the press point; no shape is lost |
| Controller.OnMouseMove | draw_application.h:148-165 | no active shape: nothing changes; moving translates by the distance since the last move and records the position; dragging pins the bottom-right corner to the mouse; an active shape with no operation is the "unknown state" fault |
| Controller.OnMouseLeftUp | draw_application.h:135-146 | no active shape: nothing changes; otherwise the operation ends, the slot is cleared, and the shape is appended exactly when it is empty |
| Controller.OnMenu | draw_application.h:52-82 | a menu choice changes only the tool settings, as Tools.OnMenu does |
| Controller.Step | draw_application.h:121-165 | an event faults exactly when it is a press while a shape is active or an operation runs (the asserts of on_mouse_left_down) or a move with a shape active but no operation (the `unknown state` throw); only a menu choice changes the settings, and it touches nothing else |
| WindowProperties.StepKeepsInv | draw_application.h:148-165 | a shape is active exactly when an operation runs, every handler keeps this, and under it on_mouse_move never reaches the unknown-state fault |
| WindowProperties.RunKeepsInv | draw_application.h:121-165 | the same over any event sequence |
| WindowProperties.EmptyShapesNeverHit | draw_application.h:106-115 | a list of empty shapes is never hit |
| WindowProperties.StepKeepsSettled | draw_application.h:135-146 | each event keeps the invariant, keeps the list all-empty, and never enters moving |
| WindowProperties.RunKeepsSettled | draw_application.h:121-146 | the same over any event sequence |
| WindowProperties.FromInit | draw_application.h:121-146 | from the initial window, every event sequence either stops at the press assertion or ends settled: no moving operation and only empty committed shapes |
| WindowProperties.MovesTranslate | main.cpp:192-197 | while moving, any path of mouse moves translates the shape by last position − press position |
| WindowProperties.DragsKeepAnchor | main.cpp:198-200 | while dragging, any path of mouse moves keeps the anchor and puts the bottom-right corner at the last position |
| WindowProperties.DrawGesture | main.cpp:167-187 | press on empty canvas at p, move to q, release: the shape spans p..q and is kept exactly when q = p − (1, 1) |
| WindowProperties.ClickLeavesNothing | main.cpp:181-184 | a click without movement leaves the window unchanged |
| WindowProperties.PickUpAndReleaseDrops | draw_application.h:121-146 | picking up the topmost shape, moving it along any path and releasing removes exactly that shape from the list |
| WindowProperties.ChooseKindThenDraw | draw_application.h:52-94 | choosing a kind and then drawing produces a shape of that kind, kept exactly when its box is empty |

## Left out

- Painting (`on_paint`), `refresh`, the status text and `on_init`'s menu construction: they only talk to wxWidgets. The menu labels the handler compares against are written out in `Tools`.
- The Background menu: it only sets the window's background brush. Its White entry selects the blue brush (draw_application.h:75, main.cpp:131); that is not part of this model.
- `get_title_and_item` is assumed to produce "Title/Item" with the mnemonic '&' removed, so the Brush menu's "&Light Gray" entry arrives as "Brush/Light Gray".
- The duplicate "&Blue" entries and the missing Pen "Light Gray" entry of main.cpp's menus: menu construction is not modelled.
- wxPoint coordinates are C++ `int`. The model uses unbounded integers, so overflow of offsets and widths is not modelled.
- The two-point `wxRect` constructor normalises its corners. The source only calls it with two equal points, so the model builds that case directly (`Geometry.PointBox`).
- `make_shape`'s `default: throw` is unreachable: the shape kind is a closed enumeration.
- The `assert`s at the top of `on_mouse_left_down` are modelled as preconditions of `Controller.OnMouseLeftDown`. `Controller.Step` turns a press that violates them into the `AssertionFailed` fault. A build with `NDEBUG` would skip the check; that build is not modelled.
- Ownership through `std::unique_ptr` and `ml5::vector::remove` is modelled by value. The lifted shape is removed from its own index in the list.

## Findings

| source | as written | input that shows it | evidently intended | confidence | as-written member | corrected member |
|---|---|---|---|---|---|---|
| main.cpp:119 | the Brush branch compares the item with "Brush/Light Grey" | choosing "Light Gray" in the Brush menu built at main.cpp:85, which arrives as "Brush/Light Gray" | select the light grey brush, as draw_application.h:62 does | medium, not executed (rests on how get_title_and_item strips the '&') | Tools.SingleFileLightGrayBrushIgnored | Tools.BrushEntryTakesEffect |

`Tools.SingleFileOnMenu` models main.cpp's handler as written. `Tools.OnMenu`, the handler of draw_application.h, is the one the controller uses.
