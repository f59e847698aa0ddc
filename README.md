# eui layout and dispatch engine, in Dafny

This project models the core of `eui`, a small Rust UI library. Its input is a tree of widgets, each of which describes itself by a `Layout`. The engine resolves that tree into a retained tree of `Node`s. Each node has:

- a local 3×3 column-major matrix;
- the widget it came from;
- its child nodes;
- its shapes;
- a rebuild flag;
- four "empty margins".

On that tree the engine:

- flattens the nodes into the list of shapes to draw, bottom to top;
- scans them for a pending rebuild;
- dispatches mouse samples to them as enter, leave and click events.

The model is split into modules that follow the crate's files:

| file | module | what it models |
|---|---|---|
| matrix.dfy | `Matrices` | `Matrix` (src/matrix.rs): constructors, products, conversions |
| shape.dfy | `Primitives` | `Shape` (src/shape.rs): `apply_matrix` and the four-edge `hit_test` |
| widget.dfy | `Widgets` | src/lib.rs: events, `EventOutcome`, alignments, `Layout`, `Child`, the `Widget` defaults and the `Mutex<T>` forwarding |
| node.dfy | `Nodes` | `Node`, the widget arena and the error type |
| layout.dfy | `Layouts` | `Node::new` and `Node::with_layout`, as functions |
| layout_facts.dfy | `LayoutFacts` | what the layout guarantees: bar geometry, margins, padding |
| resolve.dfy | `Resolution` | `Node::new` and `Node::with_layout` as loops, proved equal to the functions |
| dirty.dfy | `DirtyTracking` | `Node::needs_rebuild` |
| draw.dfy | `Drawing` | `Node::build_shapes` |
| dispatch.dfy | `Dispatch` | `Node::send_event`, `Node::mouse_update` |
| ui.dfy | `Engine` | the `Ui` object |
| image.dfy | `ImageWidget` | the predefined `Image` widget |
| scenarios.dfy | `LayoutScenarios` | the two tests of tests/layout.rs, played on `Ui` |

Modelling choices:

- `f32` is `real`. The model proves proportional layout, not rounding.
- A `Node` is a value, because a Rust node owns its children. An in-place update of a node (clearing or setting its flag, overwriting a matrix) is a function or method that returns the updated node.
- `Ui` is a class. Its methods reassign its fields.
- The `Image` widget is a class, since `set_name` mutates it.
- The loops of the source are methods, each proved equal to the function that specifies it:
  - the two passes of `with_layout`;
  - the scan of `needs_rebuild`;
  - the pushes of `build_shapes`;
  - the child loop and the event loop of `mouse_update`.
- Widgets are values in an arena (`Arena`), addressed by a `WidgetId`. A widget is the triple of its `build_layout`, `needs_rebuild` and `handle_event`. These are functions of an application state `S`; a handler returns the new state with its outcome.
- A bar child's `Arc<Widget>` is the child's id. The model needs a topological numbering: every child id is smaller than its parent's, so that resolution terminates by the id alone. Rust has no such rule; a widget may reappear in its own subtree as long as its recursion ends.
- Resolution returns a `Result`. The error cases are:
  - an unknown widget id;
  - a child id that is not below its parent's;
  - an `i8` overflow while summing a bar's weights, where a debug build panics;
  - a non-empty bar whose weights sum to 0, where Rust would divide by 0;
  - a matrix whose m00 entry is 0 (a zero width or a quarter-turn rotation), where the height per width ratio divides by 0.

  Where Rust would compute with infinities or NaN, the model reports an error.
- `mouse_update` returns, next to the state, the node and the events for the parent, a log of every `handle_event` call it makes (widget, event, source child). The dispatch contracts speak about that log.

The code is followed where it departs from the crate's own documentation:

- **A click fires when the button is pressed, not when it is released.** `set_cursor` passes the previous button state, from `swap`, where `mouse_update` expects the new state. It passes `down` where `mouse_update` expects the old state. The test `hit && !new_mouse_down && old_mouse_down` therefore holds on a press (`Engine.ClickOnPress`).
- **Vertical bars run bottom to top.** `Bottom` starts the walk at −1, and `Top` ends it at +1.
- **`EventOutcome` gains a field.** src/ui.rs reads `outcome.events_for_parent`, which src/lib.rs does not declare. The model adds it to `EventOutcome` as a sequence of events, empty by default.

## Model

| member | source | states |
|---|---|---|
| Matrices.Identity | src/matrix.rs:10-16 | `identity()` maps every vector to itself |
| Matrices.Scale | src/matrix.rs:20-26 | `scale(f)` multiplies x and y by f and keeps z |
| Matrices.ScaleWH | src/matrix.rs:30-36 | `scale_wh(w, h)` multiplies x by w and y by h and keeps z |
| Matrices.Translate | src/matrix.rs:40-46 | `translate(x, y)` adds x·z to the first coordinate and y·z to the second, and keeps z |
| Matrices.Mul | src/matrix.rs:52-71 | the product applied to a vector is the right factor applied first and the left one after it: (A·B)·v = A·(B·v) |
| Matrices.MulVec | src/matrix.rs:74-86 | the unit vectors pick out the matrix's three columns, and a matrix with bottom row (0, 0, 1) keeps z |
| Matrices.FromGrid | src/matrix.rs:88-92 | every entry of the matrix is the array's entry at the same column and row |
| Matrices.ToGrid | src/matrix.rs:94-98 | the result is a 3×3 array holding each entry at its column and row |
| Matrices.ToGrid4 | src/matrix.rs:100-110 | the 4×4 array keeps each entry, with index 2 moved to index 3; its third row and column are all 0 |
| Matrices.FromToGrid | src/matrix.rs:88-98 | converting a matrix to an array and back gives the same matrix |
| Matrices.ToFromGrid | src/matrix.rs:88-98 | converting a 3×3 array to a matrix and back gives the same array |
| Matrices.IdentityIsUnit | src/matrix.rs:10-16 | `identity()` is a left and a right unit of the product |
| Matrices.MulColumn | src/matrix.rs:52-86 | column k of A·B is A times column k of B |
| Matrices.MulAssociative | src/matrix.rs:52-71 | the matrix product is associative |
| Matrices.ScaleIsUniformScaleWH | src/matrix.rs:20-36 | scale(f) equals scale_wh(f, f) |
| Matrices.TranslateComposes | src/matrix.rs:40-71 | translate(a, b)·translate(c, d) = translate(a + c, b + d) |
| Matrices.TranslateScaleForm | src/matrix.rs:30-71 | translate(x, y)·scale_wh(w, h) is the diagonal matrix (w, h) with translation (x, y) |
| Matrices.DiagonalCompose | src/matrix.rs:52-71 | the product of two such diagonal matrices multiplies the scales and maps the inner translation through the outer one |
| Primitives.ApplyMatrix | src/shape.rs:22-27 | the variant and its text or name are kept, and the matrix becomes outer · matrix |
| Primitives.Project | src/shape.rs:37-47 | the divide `[v0 / v2, v1 / v2]`: the quotients times z give back x and y, z = 1 leaves the point unchanged, z = 0 sends it to the origin |
| Primitives.Corner | src/shape.rs:37-47 | for an affine matrix, a corner lands at the matrix applied to it, with no divide |
| Primitives.EdgeDot | src/shape.rs:57-79 | the dot product of `point − corner` with `next − corner` is 0 at the corner and non-negative at the next corner |
| Primitives.Test | src/shape.rs:32-82 | for a positive axis-aligned affine matrix, the four edge tests pass exactly inside the closed box the matrix spans |
| Primitives.EdgesOfBox | src/shape.rs:57-81 | the cascade of the four edge tests, on such a matrix, holds exactly inside the closed box |
| Primitives.HitTest | src/shape.rs:30-93 | a shape whose matrix is a positive axis-aligned box is hit exactly inside that closed box, whatever its variant |
| Primitives.ApplyIdentity | src/shape.rs:22-27 | applying the identity changes nothing |
| Primitives.ApplyTwice | src/shape.rs:22-27 | applying A and then B equals applying B·A |
| Primitives.HitTestNested | src/shape.rs:22-27 | re-basing twice hit-tests like re-basing once by the product, as `mouse_update` does |
| Primitives.HitTestIgnoresPayload | src/shape.rs:84-92 | `Text` and `Image` hit-test the same way: only the matrix matters |
| Primitives.AffineClosed | src/shape.rs:37-47 | products of affine matrices are affine |
| Primitives.LayoutMatricesAreAffine | src/matrix.rs:10-46 | identity, translate and scale_wh are affine |
| Primitives.EdgeDotSign | src/shape.rs:57-79 | on an axis-parallel edge, the dot-product test keeps a point exactly when it is on the inner side or on the edge |
| Primitives.HitTestPlacedBox | src/shape.rs:30-93 | a shape at translate(tx, ty)·scale_wh(w, h) with w, h > 0 is hit exactly when \|x − tx\| ≤ w and \|y − ty\| ≤ h |
| Primitives.HitTestBox | src/shape.rs:30-93 | the same box test for the diagonal-matrix form |
| Primitives.HitTestIdentity | src/shape.rs:30-93 | at the identity matrix, a point is hit exactly when −1 ≤ x ≤ 1 and −1 ≤ y ≤ 1; the boundary counts as a hit |
| Widgets.DefaultOutcome | src/lib.rs:76-83 | the default outcome does not refresh the layout, propagates to the parent, and has no extra events |
| Widgets.DefaultHorizontal | src/lib.rs:152-156 | the default horizontal alignment is `Center` |
| Widgets.DefaultVertical | src/lib.rs:165-169 | the default vertical alignment is `Center` |
| Widgets.DefaultAlignment | src/lib.rs:139-143 | the default alignment is centred on both axes |
| Widgets.WithDefaults | src/lib.rs:86-120 | a widget that only gives `build_layout` never asks for a rebuild, and its handler returns the default outcome with the state unchanged |
| Widgets.Locked | src/lib.rs:122-137 | `Mutex<T>` forwards all three widget methods unchanged to the inner widget |
| Nodes.SameShapeWellFormed | src/ui.rs:137-150 | two trees that differ only in their flags refer to the same widgets |
| Nodes.FlagsImplySameShape | src/ui.rs:137-150 | a tree whose flags only went up has the same shape as the original |
| Nodes.NodeCount | src/ui.rs:137-150 | a tree has at least one node |
| Layouts.Min | src/ui.rs:203-206 | the running minimum is at most each argument and equals one of them |
| Layouts.RatioOf | src/ui.rs:157 | the ratio times m00 is the viewport's ratio times m11, so a uniform scale keeps the viewport's ratio |
| Layouts.PaddingMatrix | src/ui.rs:261-267 | the padding matrix is axis-aligned and affine, maps the box [−1, 1]² onto [−1 + pl, 1 − pr] × [−1 + pb, 1 − pt], and is the identity without paddings |
| Layouts.ChildMatrix | src/ui.rs:249-271 | a child's slot matrix is affine and axis-aligned |
| Layouts.FirstPassPosition | src/ui.rs:247-258 | the first-pass slot of child i starts where the weights before it end: position − share = 2·Σ_{j<i} w_j/W − 1 |
| Layouts.Footprint | src/ui.rs:275-285 | a child that does not collapse keeps its whole share; a collapsing child whose paddings do not exceed its empty margins gets no more than its share (what collapsing packs is stated by `LayoutFacts.CollapsedContentSpan` and `LayoutFacts.CollapsedNeighboursTouch`) |
| Layouts.StartOffset | src/ui.rs:310-322 | the walk starts at −1 for Left and Bottom, ends at +1 for Right and Top, and is symmetric about 0 for Center |
| Layouts.CenterAt | src/ui.rs:324-327 | child i's near edge lies where the walk has covered twice the footprints before it |
| Layouts.Placed | src/ui.rs:324-333 | the second pass keeps every child node and its length, changing nothing but matrices |
| Layouts.CrossMargin | src/ui.rs:289-295 | a margin across the flow is never above 1 |
| Layouts.EndMargin | src/ui.rs:335-360 | a collapsed end child leaves the margin at 0; otherwise it is never negative when the child's margin covers its padding and its share is non-negative |
| Layouts.BarMargins | src/ui.rs:229-360 | the margins across the flow are at most 1, and an empty bar has margin 0 along the flow and 1 across it |
| Layouts.BarNode | src/ui.rs:362-372 | the bar node has the given matrix and widget, no shapes, a clear flag, and the first-pass children with only their matrices replaced |
| Layouts.LeafMargins | src/ui.rs:194-209 | every margin of a `Shapes` node is at most 1, and all four are 1 without shapes |
| Layouts.ChildMatrixIsProduct | src/ui.rs:250-271 | a child's slot matrix is translate(position)·scale_wh(share)·padding matrix |
| Layouts.Resolve | src/ui.rs:153-224 | a resolved node has the given matrix and widget, a clear flag, and refers only to widgets of the arena |
| Layouts.NodeFor | src/ui.rs:157-224 | the same, once the widget id is known to be in the arena |
| Layouts.ResolvePlacements | src/ui.rs:160-181 | `AbsolutePositionned` gives one child per entry, in order, with exactly the entry's matrix and widget |
| Layouts.ResolveBar | src/ui.rs:226-373 | a bar node has the given matrix and widget, a clear flag, no shapes, and one child per entry |
| Layouts.FirstPass | src/ui.rs:248-305 | the first pass over n children yields n nodes, each referring to widgets of the arena |
| LayoutFacts.WeightsFitPrefixes | src/ui.rs:235 | the `i8` fold does not overflow exactly when every running total of the weights stays in [−128, 127] |
| LayoutFacts.SharesBefore | src/ui.rs:247-258 | without collapsing, the footprints before child i sum to the weights before it times 1/W |
| LayoutFacts.FootprintsAt | src/ui.rs:275-285 | the footprint list holds, for every child, the footprint of that child and its node |
| LayoutFacts.NoCollapseShares | src/ui.rs:275-285 | a child that does not collapse has footprint w/W |
| LayoutFacts.FirstPassSlots | src/ui.rs:248-272 | the first pass builds child k from widget k at its first-pass slot matrix |
| LayoutFacts.FirstPassExtends | src/ui.rs:248-305 | the pass over n children extends the pass over n − 1 by the node of child n − 1 at its slot |
| LayoutFacts.BarChildren | src/ui.rs:269-272 | child k of a bar node was built from the widget of entry k |
| LayoutFacts.NoCollapseFills | src/ui.rs:307-322 | without collapsing, the footprints sum to 1, so every alignment starts the walk at −1 |
| LayoutFacts.CentersMatchFirstPass | src/ui.rs:250-327 | without collapsing, the second-pass centre of child i is the first-pass position (2·Σ_{j<i} w_j + w_i)/W − 1 |
| LayoutFacts.NoCollapseKeepsFirstPass | src/ui.rs:324-333 | without collapsing, the second pass gives every child its first-pass matrix again |
| LayoutFacts.ResolveBarNoCollapse | src/ui.rs:247-333 | a resolved bar without collapsing children places child i at translate(position_i)·scale_wh(w_i/W, 1)·padding |
| LayoutFacts.Contiguous | src/ui.rs:324-327 | consecutive children touch: each child's far edge is the next child's near edge |
| LayoutFacts.AlignedRun | src/ui.rs:307-327 | the walk covers 2·Σfootprints from its start; Left and Bottom start at −1, Right and Top end at +1, Center is symmetric about 0 |
| LayoutFacts.HorizontalSlot | src/ui.rs:250-271 | in a horizontal bar, a child's slot spans its share around its position along x, inset by its paddings, and the full height less the paddings |
| LayoutFacts.VerticalSlot | src/ui.rs:250-271 | the same for a vertical bar, with the axes exchanged |
| LayoutFacts.CollapsedContentSpan | src/ui.rs:275-285 | a collapsed child without flow paddings has content exactly as long as its footprint, offset from its slot's centre by share·(near − far)/2 of its two flow margins |
| LayoutFacts.PackedContent | src/ui.rs:275-285 | with equal flow margins that content spans exactly the footprint on each side of the centre |
| LayoutFacts.CollapsedNeighboursTouch | src/lib.rs:173-176 | after the second pass, two neighbouring collapsed children with equal flow margins and no flow paddings touch: the first one's content ends where the next one's begins |
| LayoutFacts.CollapsedPaddingGap | src/ui.rs:275-285 | with a padding p and a margin e on both flow sides, a collapsed child's content starts share·p·(2 − e) inside its footprint's edge |
| LayoutFacts.LeafMarginIsMinimum | src/ui.rs:194-209 | each margin of a `Shapes` node is at most 1 and at most every shape's gap on that side, and is 1 or one of those gaps |
| LayoutFacts.CrossMarginIsMinimum | src/ui.rs:229-295 | a margin across the flow is at most 1 and at most every child's margin less its padding, and is 1 or one of them |
| LayoutFacts.FlowMarginsFromEnds | src/ui.rs:335-360 | the margins along the flow depend only on the first and last child, and a collapsed end child leaves its margin at 0 |
| LayoutFacts.AbsoluteChildren | src/ui.rs:160-181 | an `AbsolutePositionned` node has one child per entry with that entry's matrix and widget, no shapes, and all margins 0 |
| Resolution.NewNode | src/ui.rs:153-224 | the loop version of `Node::new` returns exactly `Resolve` |
| Resolution.WithLayout | src/ui.rs:226-373 | the loop version of `with_layout` returns exactly `ResolveBar` |
| Resolution.TotalWeight | src/ui.rs:235 | the `i8` weight fold succeeds exactly when no running total overflows, and then returns the weight sum |
| Resolution.FirstPassLoop | src/ui.rs:247-308 | the first-pass loop builds exactly `FirstPass` and returns the footprints and cross margins of its children |
| Resolution.FoldChild | src/ui.rs:248-305 | one step of the first pass extends the pass, its footprints and its cross margins by one child, or stops with that child's error |
| Resolution.BuildChild | src/ui.rs:249-285 | a child is built at its slot matrix, or fails when its id is not below its parent's, and its footprint is computed |
| Resolution.FirstPassStops | src/ui.rs:248-305 | once a child fails, the whole pass fails with that error |
| Resolution.SlotMatrix | src/ui.rs:250-271 | the product the loop forms is the slot matrix |
| Resolution.FlowMargins | src/ui.rs:335-360 | the margin code after the second loop yields exactly the bar's margins |
| Resolution.RunLength | src/ui.rs:307-308 | the fold over the footprints yields their sum |
| Resolution.SecondPass | src/ui.rs:324-333 | the `iter_mut` loop overwrites each child's matrix by its placed slot and nothing else |
| DirtyTracking.NeedsRebuild | src/ui.rs:376-393 | the scan changes nothing but flags, and a scan that answers false leaves the tree as it was |
| DirtyTracking.ChildrenNeedRebuild | src/ui.rs:386-390 | the loop over the children changes nothing but flags, and leaves them as they were when it answers false |
| DirtyTracking.ScanTree | src/ui.rs:376-393 | the imperative scan returns exactly what `NeedsRebuild` describes |
| DirtyTracking.ScanFindsDirty | src/ui.rs:376-393 | the scan answers true exactly when some node has its flag set or a widget that asks for a rebuild |
| DirtyTracking.ScanLowersOneFlag | src/ui.rs:376-393 | a scan only clears flags, and at most one: the flag count drops by one or stays |
| DirtyTracking.ReplaceOneCount | src/ui.rs:386-390 | replacing one child changes the children's flag count by that child's change |
| DirtyTracking.NothingFoundNothingChanged | src/ui.rs:376-393 | on a clean tree, the scan answers false and changes nothing |
| Drawing.ApplyAll | src/ui.rs:399-404 | re-basing keeps the number and order of the shapes and each one's variant and payload |
| Drawing.Flatten | src/ui.rs:395-407 | the node's own shapes come last, re-based by its matrix, so they are drawn on top of its children's |
| Drawing.ApplyAllConcat | src/ui.rs:395-407 | re-basing a concatenation re-bases each part |
| Drawing.ApplyAllTwice | src/ui.rs:395-407 | re-basing by A and then by B equals re-basing by B·A |
| Drawing.ApplyAllIdentity | src/ui.rs:395-407 | re-basing by the identity changes nothing |
| Drawing.BuildShapes | src/ui.rs:395-407 | the push loops build exactly `Flatten`: children's shapes in child order, then the node's own, each re-based by the node's matrix |
| Drawing.FlattenPlaces | src/ui.rs:395-407 | flattening under an outer matrix places every shape by the product of the matrices on its path from the root |
| Drawing.DrawPlacesEveryShape | src/ui.rs:395-407 | the drawn list places every shape by the product of the matrices from the root down to its node |
| Drawing.IdentityLeafDrawsItsShapes | src/ui.rs:395-407 | a leaf at the identity draws its shapes unchanged |
| Drawing.FlattenIgnoresFlags | src/ui.rs:395-407 | drawing does not depend on the rebuild flags |
| Dispatch.ShapeHit | src/ui.rs:453 | re-basing a shape by the node's matrix and then the parent's hit-tests like re-basing it once by their product |
| Dispatch.Hit | src/ui.rs:452-456 | without a cursor, or on a node without shapes, nothing is hit |
| Dispatch.MouseUpdate | src/ui.rs:426-481 | a mouse update keeps the node's widget, matrix, shapes and number of children |
| Dispatch.SendEvent | src/ui.rs:410-422 | only the flag changes, raised exactly when it was set or the outcome asks for a refresh; the result is the outcome's events, followed by the event itself exactly when it propagates |
| Dispatch.DefaultHandlerPassesUp | src/ui.rs:410-422 | a widget with the default handler returns the event to its parent and changes nothing |
| Dispatch.OwnEvents | src/ui.rs:452-478 | the node's own events change nothing but its flag, and never lower it |
| Dispatch.ChildrenUpdate | src/ui.rs:435-443 | the child loop yields one updated node per child |
| Dispatch.Forward | src/ui.rs:445-449 | forwarding changes nothing in the node but its flag |
| Dispatch.DeliverMouse | src/ui.rs:426-481 | the imperative `mouse_update` returns exactly what `MouseUpdate` describes |
| Dispatch.VisitChildren | src/ui.rs:432-443 | the child loop returns exactly what `ChildrenUpdate` describes |
| Dispatch.ForwardEvents | src/ui.rs:445-449 | the forwarding loop returns exactly what `Forward` describes |
| Dispatch.FindHit | src/ui.rs:452-456 | the search over the shapes answers exactly `Hit` |
| Dispatch.SendOwnEvents | src/ui.rs:458-478 | the enter/leave/click code returns exactly what `OwnEvents` describes |
| Dispatch.ForwardDelivers | src/ui.rs:445-449 | the widget receives every forwarded event, in order, tagged with its source child |
| Dispatch.TagsInChildOrder | src/ui.rs:435-443 | forwarded events come in child order and name only children visited so far |
| Dispatch.DispatchRaisesFlags | src/ui.rs:426-481 | a mouse update changes nothing in the tree but flags, and only raises them |
| Dispatch.HoverCountConcat | src/ui.rs:426-481 | the number of enter/leave deliveries of two logs adds up |
| Dispatch.ForwardHasNoHover | src/ui.rs:445-449 | forwarding never delivers an enter or a leave of the node's own |
| Dispatch.OwnEventsHoverOnce | src/ui.rs:458-471 | a node delivers exactly one MouseEnter or MouseLeave of its own |
| Dispatch.OneHoverPerNode | src/ui.rs:426-481 | one sample delivers exactly as many own MouseEnter or MouseLeave events as the tree has nodes |
| Dispatch.NoCursorOnlyLeaves | src/ui.rs:452-471 | without a cursor, every own delivery is a MouseLeave |
| Dispatch.OwnEventsLast | src/ui.rs:452-478 | the last delivery is MouseClick exactly when hit && !new_mouse_down && old_mouse_down, preceded by the node's enter; otherwise it is the enter or the leave |
| Engine.RootNode | src/ui.rs:38-39 | the main node sits at the identity, is built from the main widget with a clear flag, and refers only to widgets of the arena |
| Engine.Ui.constructor | src/ui.rs:30-48 | a new UI holds the main widget's tree at the identity, centred, with hovering and mouse_down false |
| Engine.Ui.Rebuild | src/ui.rs:52-64 | the tree is resolved again from the current state and viewport |
| Engine.Ui.Draw | src/ui.rs:74-90 | the tree is rebuilt when the scan asks for it, and the result is the flattened tree |
| Engine.Ui.SetViewportHeightPerWidth | src/ui.rs:94-108 | the ratio is stored; the tree is rebuilt exactly when the ratio changed |
| Engine.Ui.SetCursor | src/ui.rs:114-120 | the button state is swapped for `down`, and the tree and state become the result of `mouse_update` with the swapped arguments |
| Engine.Ui.IsHovering | src/ui.rs:123-125 | always false, since nothing sets the flag |
| Engine.Redrawn | src/ui.rs:74-88 | the tree after `draw` is the old tree or a fresh resolution, fresh when the old one failed, and well-formed whenever it resolved |
| Engine.Drawn | src/ui.rs:74-90 | `draw` returns shapes exactly when the tree resolved, passes its error on otherwise, and puts the root's own shapes last |
| Engine.RedrawFresh | src/ui.rs:74-90 | a tree resolved from the current state and ratio is kept by the next `draw` |
| Engine.RedrawRebuildsWhenDirty | src/ui.rs:74-90 | `draw` rebuilds exactly when some node of the tree is dirty, and keeps the tree otherwise |
| Engine.RedrawKeepsCleanTree | src/ui.rs:74-90 | a clean tree survives `draw`, which returns its flattened shapes |
| Engine.DrawnPlacesShapes | src/ui.rs:395-407 | `draw` returns every shape placed by the product of the matrices from the root down to its node |
| Engine.ClickOnPress | src/ui.rs:114-120 | the root's last delivery is a click exactly when the cursor is on the root's shapes, the button was up and is now down |
| Engine.NoCursorNeverClicks | src/ui.rs:114-120 | a sample without a cursor makes exactly as many own enter/leave deliveries as the tree has nodes, and every own delivery is a MouseLeave: no node is entered or clicked |
| ImageWidget.FitScale | src/predefined/image.rs:39-59 | the shrink factor is k/r when the box is relatively taller than the image, r/k otherwise |
| ImageWidget.FitMatrix | src/predefined/image.rs:39-60 | the fitting matrix is an axis-aligned scale and translation |
| ImageWidget.FitTallBox | src/predefined/image.rs:39-48 | when r > k: width scale 1, height scale k/r, x = 0, and Top, Bottom and Center put the image flush with the top, flush with the bottom, or at y = 0 |
| ImageWidget.FitWideBox | src/predefined/image.rs:50-59 | otherwise: height scale 1, width scale r/k, y = 0, and Left, Right and Center put the image flush with the left, flush with the right, or at x = 0 |
| ImageWidget.RatioEnforced | src/predefined/image.rs:17-59 | for positive ratios, the drawn image keeps its own height per width ratio: r·(height scale)/(width scale) = k |
| ImageWidget.FitsInside | src/predefined/image.rs:39-59 | for positive ratios, the image stays inside the widget's box [−1, 1]² |
| ImageWidget.Image.constructor | src/predefined/image.rs:22-28 | a new image has the given name and ratio and no cached matrix |
| ImageWidget.Image.SetName | src/predefined/image.rs:31-33 | only the name changes |
| ImageWidget.Image.BuildLayout | src/predefined/image.rs:38-64 | the layout is `Shapes` holding exactly one image, named after the widget, at the fitting matrix |
| ImageWidget.ImageImpl | src/predefined/image.rs:36-64 | the widget form of an image: one image at the fitting matrix for every ratio and alignment, never asking for a rebuild, with the default handler |
| ImageWidget.ImageImplIsBuildLayout | src/predefined/image.rs:38-64 | the widget form lays out exactly what the `Image` object's `build_layout` returns |
| ImageWidget.ResolveImage | src/predefined/image.rs:38-64 | an image widget resolves to a leaf with its one image at the fitting matrix for its ratio, and draws it at its node's matrix times that fitting matrix |
| LayoutScenarios.Basic | tests/layout.rs:5-19 | a UI over one full-box image at ratio 1 draws that image unchanged |
| LayoutScenarios.SplitRoot | tests/layout.rs:21-49 | the split widget resolves to a bar whose two children sit on the left and right halves of the screen |
| LayoutScenarios.SplitClean | tests/layout.rs:21-49 | the freshly built split tree needs no rebuild |
| LayoutScenarios.SplitDraws | tests/layout.rs:49-53 | the split tree draws the left half's image, then the right half's |
| LayoutScenarios.HorizontalSplitTwo | tests/layout.rs:21-54 | a UI over the split widget at ratio 1 draws translate(−0.5, 0)·scale_wh(0.5, 1) and then translate(0.5, 0)·scale_wh(0.5, 1) |

## Left out

- Layouts.Footprint: its contract only says that a collapsed footprint does not exceed the share. What collapsing achieves is stated in LayoutFacts, and only for children without paddings along the flow and with the same empty margin on both flow sides. There the content spans exactly its footprint about the slot's centre (`PackedContent`), so neighbours touch (`CollapsedNeighboursTouch`). When the two flow margins differ, the source does not pack the content: it keeps the footprint's length but sits share·(near − far)/2 off the footprint's centre (`CollapsedContentSpan`), so gaps and overlaps remain. With paddings, the formula adds half of each padding to the share and subtracts the margins without scaling them by the padding inset. A padding p then leaves share·p·(2 − e) between the footprint's edge and the content, not the slot's share·p (`CollapsedPaddingGap`). The model follows the formula as written.
- Concurrency: the `Mutex` and `AtomicBool` fields of `Ui` and the locking in `Mutex<T>` are plain fields and plain calls. Locking serialises calls and changes no result.
- IEEE `f32` rounding, infinities and NaN. Reals are exact. A division by 0 in resolution becomes an error.
- Homogeneous divide in `hit_test`: Rust divides a corner whose z is 0 by 0. The model sends that corner to the origin instead. Every matrix the engine builds is affine, and an affine matrix puts every corner at z = 1 (`Primitives.Corner`), so only foreign matrices reach that case.
- `Box<Any>` events are the closed datatype `Event`: MouseEnter, MouseLeave, MouseClick, and `Custom(id)` for an application's own events.
- `Shape::get_bounding_box` is called but not defined in src/shape.rs. The model takes it as a parameter of the arena.
- Widgets that reappear in their own subtree: the model requires child ids below their parent's and reports `BadChild` otherwise. This includes a self-referencing widget whose recursion ends through the ratio, the alignment or the state it is given, which Rust resolves. Such a widget must be unrolled into copies with distinct ids.
- A node whose matrix has m00 = 0 (zero width or a quarter-turn rotation): Rust passes that one widget a NaN or infinite ratio and resolves the rest of the tree. In the model such a node makes the whole UI unresolvable (`ZeroWidth`): `draw` returns the error, draws nothing, and `set_cursor` delivers no mouse events.
- The `i8` weight sum of a bar wraps around silently in a release build. The model's `WeightOverflow` stands for the debug build's panic only.
- The `matrix` field of `Image` is kept but never read, as in the source.
- `Ui::widget` returns the state and carries no contract.
- Changes the application makes to a widget outside a handler, followed by a manual `rebuild`, appear only as a different `state` passed to `Rebuild`.
- The `hovering` flag is never written (the source marks this FIXME), so `is_hovering` is constant.
- `Engine.Ui.Draw`: the tree is a `Result`, and a tree that failed to resolve is resolved again at the next draw. In Rust, resolution cannot fail.
- `ImageWidget.FitMatrix`, `ImageWidget.FitScale`, `ImageWidget.Image.BuildLayout`, `ImageWidget.ImageImpl`: require the divisor of the branch taken to be non-zero. With a zero divisor Rust would compute an infinite scale. `ImageWidget.ImageImpl` asks for a positive ratio `k` for every viewport, although Rust's `Image::new` accepts any ratio.
- `Engine.NoCursorNeverClicks`: constrains only the nodes' own deliveries. Events a widget forwards to its parent are whatever its handler returns.
- src/predefined/transition.rs (wall clock and `exp`), nine_slice_image.rs (`unimplemented!()`), button.rs, label.rs, image_button.rs, empty.rs, src/layout/horizontal.rs and examples/test.rs are not part of this model. They are written against an older widget API, or not compiled, or not layout logic.
- tests/layout.rs sets a `vertical_align` field that `Layout::HorizontalBar` does not have. The scenarios leave it out.
