/**
  The two scenarios of tests/layout.rs, played on the engine object: a
  widget that fills the screen with one image, and a horizontal bar that
  splits the screen between two such widgets.

  The resolution of the bar is proved one step at a time: each lemma keeps
  to one level of the tree, so that the solver never has to unfold the
  whole resolution at once.
*/
module LayoutScenarios {
  import opened Matrices
  import opened Primitives
  import opened Widgets
  import opened Nodes
  import opened Layouts
  import opened LayoutFacts
  import opened DirtyTracking
  import opened Drawing
  import opened Engine

  /** The image both tests draw: an unnamed image covering its whole box. */
  const FullImage := Image(Identity(), "")

  /** `FullWidget`: one image, whatever the ratio and alignment. */
  function FullWidget<S(!new)>(): (w: WidgetImpl<S>)
    ensures forall s, r, al :: w.buildLayout(s, r, al) == Shapes([FullImage])
    ensures forall s :: !w.needsRebuild(s)
  {
    WithDefaults((s: S, r: real, al: Alignment) => Shapes([FullImage]))
  }

  /** A child of weight 1 on widget 0, not collapsed, default alignment, no padding. */
  const Half := Child(0, 1, DefaultAlignment(), false, 0.0, 0.0, 0.0, 0.0)

  /** `TestedWidget` of `horizontal_split_two`: a centred horizontal bar over two full widgets. */
  function SplitWidget<S(!new)>(): (w: WidgetImpl<S>)
    ensures forall s, r, al :: w.buildLayout(s, r, al) == HorizontalBar(HorizontalAlignment.Center, [Half, Half])
    ensures forall s :: !w.needsRebuild(s)
  {
    WithDefaults((s: S, r: real, al: Alignment) => HorizontalBar(HorizontalAlignment.Center, [Half, Half]))
  }

  /** `basic`: a UI over the full widget at ratio 1 draws the image unchanged. */
  method Basic<S(!new)>(bb: Shape -> Bounds, st: S) returns (shapes: Result<seq<Shape>>)
    ensures shapes == Ok([FullImage])
  {
    var a := Arena([FullWidget()], bb);
    var leaf := Node(Identity(), 0, [], [FullImage], false, LeafMargins(bb, [FullImage]));
    var ui := new Ui(a, 0, st, 1.0);
    assert ui.mainNode == Ok(leaf);
    assert !NeedsRebuild(a, st, leaf).found;
    shapes := ui.Draw();
    IdentityLeafDrawsItsShapes(leaf);
  }

  /** The left half of the screen: half the width, centred at -0.5. */
  const LeftHalf := Matrix(0.5, 0.0, 0.0, 0.0, 1.0, 0.0, -0.5, 0.0, 1.0)

  /** The right half of the screen: half the width, centred at 0.5. */
  const RightHalf := Matrix(0.5, 0.0, 0.0, 0.0, 1.0, 0.0, 0.5, 0.0, 1.0)

  /** A full widget resolved on one half of the bar, with its margins `e`. */
  function HalfNode(e: Margins, m: Matrix): Node {
    Node(m, 0, [], [FullImage], false, e)
  }

  /** The bar over the two halves. */
  function SplitNode(e: Margins): Node {
    BarNode(1, Identity(), [Half, Half], [HalfNode(e, LeftHalf), HalfNode(e, RightHalf)], 0.5, false,
            Alignment(HorizontalAlignment.Center, DefaultVertical()))
  }

  lemma HalfWeights()
    ensures WeightSum([Half]) == 1 && WeightSum([Half, Half]) == 2 && WeightsFit([Half, Half])
  {
    assert [Half, Half][..1] == [Half];
  }

  /** Widget 0 resolves to a one-image leaf at any matrix of non-zero width. */
  lemma HalfLeaf<S>(a: Arena<S>, st: S, m: Matrix)
    requires 0 < |a.widgets| && forall r, al :: a.widgets[0].buildLayout(st, r, al) == Shapes([FullImage])
    requires m.m00 != 0.0
    ensures Resolve(a, st, 0, m, 1.0, DefaultAlignment()) == Ok(HalfNode(LeafMargins(a.boundingBox, [FullImage]), m))
  {
  }

  lemma FirstOfTwo<S>(a: Arena<S>, s: S, id: WidgetId, cs: seq<Child>, el: real, vertical: bool, viewport: real, n0: Node)
    requires 0 < |cs| && cs[0].child < id
    requires Resolve(a, s, cs[0].child, ChildMatrix(cs[0], el, vertical, FirstPassPosition(cs, 0, el)), viewport, cs[0].alignment) == Ok(n0)
    ensures FirstPass(a, s, id, cs, el, vertical, viewport, 1) == Ok([n0])
  {
    FirstPassExtends(a, s, id, cs, el, vertical, viewport, 1, [], n0);
    assert [] + [n0] == [n0];
  }

  lemma SecondOfTwo<S>(a: Arena<S>, s: S, id: WidgetId, cs: seq<Child>, el: real, vertical: bool, viewport: real, n0: Node, n1: Node)
    requires |cs| == 2 && cs[1].child < id
    requires FirstPass(a, s, id, cs, el, vertical, viewport, 1) == Ok([n0])
    requires Resolve(a, s, cs[1].child, ChildMatrix(cs[1], el, vertical, FirstPassPosition(cs, 1, el)), viewport, cs[1].alignment) == Ok(n1)
    ensures FirstPass(a, s, id, cs, el, vertical, viewport, |cs|) == Ok([n0, n1])
  {
    FirstPassExtends(a, s, id, cs, el, vertical, viewport, 2, [n0], n1);
    assert [n0] + [n1] == [n0, n1];
  }

  lemma SplitFirstChild<S>(a: Arena<S>, st: S, cs: seq<Child>, n0: Node)
    requires cs == [Half, Half]
    requires Resolve(a, st, 0, ChildMatrix(cs[0], 0.5, false, FirstPassPosition(cs, 0, 0.5)), 1.0, DefaultAlignment()) == Ok(n0)
    ensures FirstPass(a, st, 1, cs, 0.5, false, 1.0, 1) == Ok([n0])
  {
    FirstOfTwo(a, st, 1, cs, 0.5, false, 1.0, n0);
  }

  lemma SplitSecondChild<S>(a: Arena<S>, st: S, cs: seq<Child>, n0: Node, n1: Node)
    requires cs == [Half, Half]
    requires FirstPass(a, st, 1, cs, 0.5, false, 1.0, 1) == Ok([n0])
    requires Resolve(a, st, 0, ChildMatrix(cs[1], 0.5, false, FirstPassPosition(cs, 1, 0.5)), 1.0, DefaultAlignment()) == Ok(n1)
    ensures FirstPass(a, st, 1, cs, 0.5, false, 1.0, |cs|) == Ok([n0, n1])
  {
    SecondOfTwo(a, st, 1, cs, 0.5, false, 1.0, n0, n1);
  }

  /** The first pass builds the two children on the two halves of the screen. */
  lemma SplitFirstPass<S>(a: Arena<S>, st: S, e: Margins)
    requires Resolve(a, st, 0, LeftHalf, 1.0, DefaultAlignment()) == Ok(HalfNode(e, LeftHalf))
    requires Resolve(a, st, 0, RightHalf, 1.0, DefaultAlignment()) == Ok(HalfNode(e, RightHalf))
    ensures FirstPass(a, st, 1, [Half, Half], 0.5, false, 1.0, |[Half, Half]|) == Ok([HalfNode(e, LeftHalf), HalfNode(e, RightHalf)])
  {
    SplitFirstChild(a, st, [Half, Half], HalfNode(e, LeftHalf));
    SplitSecondChild(a, st, [Half, Half], HalfNode(e, LeftHalf), HalfNode(e, RightHalf));
  }

  /** A bar whose weights fit and sum to a non-zero total resolves to its bar node once the first pass succeeds. */
  lemma BarFromPass<S>(a: Arena<S>, s: S, id: WidgetId, m: Matrix, cs: seq<Child>, al: Alignment, vertical: bool, viewport: real, el: real, ns: seq<Node>)
    requires WeightsFit(cs) && WeightSum(cs) != 0 && el == ElemsLen(WeightSum(cs))
    requires FirstPass(a, s, id, cs, el, vertical, viewport, |cs|) == Ok(ns)
    ensures |ns| == |cs|
    ensures ResolveBar(a, s, id, m, cs, al, vertical, viewport) == Ok(BarNode(id, m, cs, ns, el, vertical, al))
  {
  }

  /** Two halves of weight 1 share the bar equally. */
  lemma SplitShare()
    ensures WeightsFit([Half, Half]) && WeightSum([Half, Half]) != 0 && ElemsLen(WeightSum([Half, Half])) == 0.5
  {
    HalfWeights();
  }

  /** With the first pass done, the bar widget resolves to the bar node over its result. */
  lemma SplitBar<S>(a: Arena<S>, st: S, ns: seq<Node>)
    requires FirstPass(a, st, 1, [Half, Half], 0.5, false, 1.0, |[Half, Half]|) == Ok(ns)
    ensures |ns| == 2
    ensures var bar := Alignment(HorizontalAlignment.Center, DefaultVertical());
      ResolveBar(a, st, 1, Identity(), [Half, Half], bar, false, 1.0) == Ok(BarNode(1, Identity(), [Half, Half], ns, 0.5, false, bar))
  {
    SplitShare();
    BarFromPass(a, st, 1, Identity(), [Half, Half], Alignment(HorizontalAlignment.Center, DefaultVertical()), false, 1.0, 0.5, ns);
  }

  /** The root widget's layout is the bar, so the root resolves as that bar. */
  lemma SplitLayout<S>(a: Arena<S>, st: S)
    requires 1 < |a.widgets| && forall r, al :: a.widgets[1].buildLayout(st, r, al) == HorizontalBar(HorizontalAlignment.Center, [Half, Half])
    ensures RootNode(a, st, 1, 1.0) == ResolveBar(a, st, 1, Identity(), [Half, Half], Alignment(HorizontalAlignment.Center, DefaultVertical()), false, 1.0)
  {
    assert a.widgets[1].buildLayout(st, RatioOf(1.0, Identity()), Centered) == HorizontalBar(HorizontalAlignment.Center, [Half, Half]);
  }

  lemma SplitRootFromPass<S>(a: Arena<S>, st: S, ns: seq<Node>)
    requires 1 < |a.widgets| && forall r, al :: a.widgets[1].buildLayout(st, r, al) == HorizontalBar(HorizontalAlignment.Center, [Half, Half])
    requires FirstPass(a, st, 1, [Half, Half], 0.5, false, 1.0, |[Half, Half]|) == Ok(ns)
    ensures |ns| == 2
    ensures RootNode(a, st, 1, 1.0) == Ok(BarNode(1, Identity(), [Half, Half], ns, 0.5, false, Alignment(HorizontalAlignment.Center, DefaultVertical())))
  {
    SplitBar(a, st, ns);
    SplitLayout(a, st);
  }

  /** The tree of `horizontal_split_two`: the bar over the two halves. */
  lemma SplitRoot<S>(a: Arena<S>, st: S)
    requires |a.widgets| == 2
    requires forall r, al :: a.widgets[0].buildLayout(st, r, al) == Shapes([FullImage])
    requires forall r, al :: a.widgets[1].buildLayout(st, r, al) == HorizontalBar(HorizontalAlignment.Center, [Half, Half])
    ensures RootNode(a, st, 1, 1.0) == Ok(SplitNode(LeafMargins(a.boundingBox, [FullImage])))
  {
    HalfLeaf(a, st, LeftHalf);
    HalfLeaf(a, st, RightHalf);
    SplitRootFor(a, st, LeafMargins(a.boundingBox, [FullImage]));
  }

  /** The bar over two halves that resolve with the margins `e`. */
  lemma SplitRootFor<S>(a: Arena<S>, st: S, e: Margins)
    requires 1 < |a.widgets| && forall r, al :: a.widgets[1].buildLayout(st, r, al) == HorizontalBar(HorizontalAlignment.Center, [Half, Half])
    requires Resolve(a, st, 0, LeftHalf, 1.0, DefaultAlignment()) == Ok(HalfNode(e, LeftHalf))
    requires Resolve(a, st, 0, RightHalf, 1.0, DefaultAlignment()) == Ok(HalfNode(e, RightHalf))
    ensures RootNode(a, st, 1, 1.0) == Ok(SplitNode(e))
  {
    SplitFirstPass(a, st, e);
    SplitRootFromPass(a, st, [HalfNode(e, LeftHalf), HalfNode(e, RightHalf)]);
  }

  lemma HalfFootprints(e: Margins)
    ensures Footprints([Half, Half], [HalfNode(e, LeftHalf), HalfNode(e, RightHalf)], 0.5, false) == [0.5, 0.5]
  {
    var ns := [HalfNode(e, LeftHalf), HalfNode(e, RightHalf)];
    assert [Half, Half][..1] == [Half] && ns[..1] == [ns[0]];
    assert Footprints([Half], [ns[0]], 0.5, false) == [0.5];
  }

  /** The bar starts its walk at -1 and centres the halves at -0.5 and 0.5. */
  lemma HalfCenters()
    ensures StartOffset(Alignment(HorizontalAlignment.Center, DefaultVertical()), false, 2.0 * Sum([0.5, 0.5])) == -1.0
    ensures CenterAt([0.5, 0.5], -1.0, 0) == -0.5
    ensures CenterAt([0.5, 0.5], -1.0, 1) == 0.5
  {
    var fps := [0.5, 0.5];
    assert fps[..0] == [] && fps[..1] == [0.5];
    assert Sum([0.5]) == 0.5 by {
      assert [0.5][..0] == [];
    }
    assert Sum(fps) == 1.0;
  }

  /** The second pass leaves the two halves where the first pass put them; the bar has no shapes of its own. */
  lemma SplitPlaced(e: Margins)
    ensures var n := SplitNode(e);
      && n.children == [HalfNode(e, LeftHalf), HalfNode(e, RightHalf)]
      && n.matrix == Identity() && n.widget == 1 && n.shapes == [] && !n.needsRebuild
  {
    HalfFootprints(e);
    HalfCenters();
    assert ChildMatrix(Half, 0.5, false, -0.5) == LeftHalf;
    assert ChildMatrix(Half, 0.5, false, 0.5) == RightHalf;
  }

  /** A half draws its image at its own matrix. */
  lemma HalfDraws(e: Margins, m: Matrix)
    ensures Flatten(HalfNode(e, m)) == [Image(m, "")]
  {
    assert [] + [FullImage] == [FullImage];
    IdentityIsUnit(m);
  }

  /** A node at the identity with no shapes of its own draws its two children, the first one first. */
  lemma PairDraws(n: Node, x: Node, y: Node)
    requires n.matrix == Identity() && n.shapes == [] && n.children == [x, y]
    ensures Flatten(n) == Flatten(x) + Flatten(y)
  {
    assert ChildrenShapes(n.children, 1) == [] + Flatten(x);
    assert ChildrenShapes(n.children, 2) == Flatten(x) + Flatten(y);
    assert ChildrenShapes(n.children, |n.children|) + n.shapes == Flatten(x) + Flatten(y);
    ApplyAllIdentity(Flatten(x) + Flatten(y));
  }

  /** A node at the identity over the two halves draws the left half's image, then the right half's. */
  lemma HalvesDraw(e: Margins, n: Node)
    requires n.matrix == Identity() && n.shapes == [] && n.children == [HalfNode(e, LeftHalf), HalfNode(e, RightHalf)]
    ensures Flatten(n) == [Image(LeftHalf, ""), Image(RightHalf, "")]
  {
    HalfDraws(e, LeftHalf);
    HalfDraws(e, RightHalf);
    PairDraws(n, HalfNode(e, LeftHalf), HalfNode(e, RightHalf));
  }

  /** The bar draws the left half's image, then the right half's. */
  lemma SplitDraws(e: Margins)
    ensures Flatten(SplitNode(e)) == [Image(LeftHalf, ""), Image(RightHalf, "")]
  {
    SplitPlaced(e);
    HalvesDraw(e, SplitNode(e));
  }

  /** A half is clean when widget 0 asks for no rebuild. */
  lemma HalfClean<S>(a: Arena<S>, st: S, e: Margins, m: Matrix)
    requires 0 < |a.widgets| && !a.widgets[0].needsRebuild(st)
    ensures WellFormed(a, HalfNode(e, m)) && !NeedsRebuild(a, st, HalfNode(e, m)).found
  {
    assert ChildrenNeedRebuild(a, st, [], 0) == ScanAll(false, []);
  }

  /** A node with a clear flag and a quiet widget over two clean children is clean. */
  lemma PairClean<S>(a: Arena<S>, st: S, n: Node, x: Node, y: Node)
    requires WellFormed(a, x) && WellFormed(a, y) && n.children == [x, y] && n.widget < |a.widgets|
    requires !n.needsRebuild && !a.widgets[n.widget].needsRebuild(st)
    requires !NeedsRebuild(a, st, x).found && !NeedsRebuild(a, st, y).found
    ensures WellFormed(a, n) && !NeedsRebuild(a, st, n).found
  {
    assert ChildrenNeedRebuild(a, st, n.children, 2) == ScanAll(false, n.children);
    assert ChildrenNeedRebuild(a, st, n.children, 1) == ScanAll(false, n.children);
  }

  /** No flag is set in the bar and neither widget asks for a rebuild, so the scan finds nothing. */
  lemma SplitClean<S>(a: Arena<S>, st: S, e: Margins)
    requires |a.widgets| == 2 && !a.widgets[0].needsRebuild(st) && !a.widgets[1].needsRebuild(st)
    ensures WellFormed(a, SplitNode(e)) && !NeedsRebuild(a, st, SplitNode(e)).found
  {
    SplitPlaced(e);
    HalfClean(a, st, e, LeftHalf);
    HalfClean(a, st, e, RightHalf);
    PairClean(a, st, SplitNode(e), HalfNode(e, LeftHalf), HalfNode(e, RightHalf));
  }

  /** The arena of `horizontal_split_two`: the full widget is widget 0, the bar widget 1. */
  function SplitArena<S(!new)>(bb: Shape -> Bounds): Arena<S> {
    Arena([FullWidget(), SplitWidget()], bb)
  }

  /** Widget 0 draws the full image, widget 1 is the bar, and neither asks for a rebuild. */
  ghost predicate IsSplitArena<S>(a: Arena<S>, st: S) {
    && |a.widgets| == 2 && !a.widgets[0].needsRebuild(st) && !a.widgets[1].needsRebuild(st)
    && (forall r, al :: a.widgets[0].buildLayout(st, r, al) == Shapes([FullImage]))
    && (forall r, al :: a.widgets[1].buildLayout(st, r, al) == HorizontalBar(HorizontalAlignment.Center, [Half, Half]))
  }

  lemma SplitArenaIsSplit<S(!new)>(bb: Shape -> Bounds, st: S)
    ensures IsSplitArena(SplitArena(bb), st)
  {
  }

  /** The tree of the split resolves, is clean, and draws the two halves' images. */
  lemma SplitScenario<S>(a: Arena<S>, st: S)
    requires IsSplitArena(a, st)
    ensures var r := RootNode(a, st, 1, 1.0);
      && r.Ok? && !NeedsRebuild(a, st, r.value).found
      && Flatten(r.value) == [Image(LeftHalf, ""), Image(RightHalf, "")]
  {
    var e := LeafMargins(a.boundingBox, [FullImage]);
    SplitRoot(a, st);
    SplitClean(a, st, e);
    SplitDraws(e);
  }

  /** The halves, written as the test writes them: a translation after a scaling. */
  lemma HalvesAsTranslations()
    ensures Mul(Translate(-0.5, 0.0), ScaleWH(0.5, 1.0)) == LeftHalf
    ensures Mul(Translate(0.5, 0.0), ScaleWH(0.5, 1.0)) == RightHalf
  {
    TranslateScaleForm(-0.5, 0.0, 0.5, 1.0);
    TranslateScaleForm(0.5, 0.0, 0.5, 1.0);
  }

  /** A new UI whose first tree is clean draws that tree's shapes. */
  method DrawFresh<S>(a: Arena<S>, root: WidgetId, st: S, viewport: real) returns (shapes: Result<seq<Shape>>)
    requires var r := RootNode(a, st, root, viewport); r.Ok? && !NeedsRebuild(a, st, r.value).found
    ensures shapes == Ok(Flatten(RootNode(a, st, root, viewport).value))
  {
    RedrawKeepsCleanTree(a, st, root, viewport, RootNode(a, st, root, viewport).value);
    var ui := new Ui(a, root, st, viewport);
    shapes := ui.Draw();
  }

  /** A UI over the split arena at ratio 1 draws the left half's image, then the right half's. */
  method DrawSplit<S(!new)>(bb: Shape -> Bounds, st: S) returns (shapes: Result<seq<Shape>>)
    ensures shapes == Ok([Image(LeftHalf, ""), Image(RightHalf, "")])
  {
    var a := SplitArena(bb);
    SplitArenaIsSplit(bb, st);
    SplitScenario(a, st);
    shapes := DrawFresh(a, 1, st, 1.0);
  }

  /**
    `horizontal_split_two`: a UI over the bar at ratio 1 draws two images,
    the first at half the width centred at -0.5, the second centred at 0.5.
  */
  method HorizontalSplitTwo<S(!new)>(bb: Shape -> Bounds, st: S) returns (shapes: Result<seq<Shape>>)
    ensures shapes == Ok([Image(Mul(Translate(-0.5, 0.0), ScaleWH(0.5, 1.0)), ""),
                          Image(Mul(Translate(0.5, 0.0), ScaleWH(0.5, 1.0)), "")])
  {
    shapes := DrawSplit(bb, st);
    HalvesAsTranslations();
  }
}
