/**
  Layout resolution (`Node::new` and `Node::with_layout` in src/ui.rs) as
  specification functions: how a widget's `Layout` becomes a node, how a bar
  shares its box among weighted children, collapses them and aligns them,
  and how the empty margins of a node are derived.
*/
module Layouts {
  import opened Matrices
  import opened Primitives
  import opened Widgets
  import opened Nodes

  /** `if v < acc { acc = v }`: the running minimum as the source updates it. */
  function Min(acc: real, v: real): (r: real)
    ensures r <= acc && r <= v && (r == acc || r == v)
  {
    if v < acc then v else acc
  }

  function Sum(xs: seq<real>): real {
    if xs == [] then 0.0 else Sum(xs[..|xs| - 1]) + xs[|xs| - 1]
  }

  /** The weight sum `children.iter().fold(0, |a, b| a + b.weight)`, as an unbounded integer. */
  function WeightSum(cs: seq<Child>): int {
    if cs == [] then 0 else WeightSum(cs[..|cs| - 1]) + cs[|cs| - 1].weight as int
  }

  /** Every running total of the `i8` fold stays within `i8`, so no addition overflows. */
  predicate WeightsFit(cs: seq<Child>) {
    cs == [] || (WeightsFit(cs[..|cs| - 1]) && -128 <= WeightSum(cs) < 128)
  }

  /** `elems_len`, the reciprocal of the weight sum; an empty bar never reads it. */
  function ElemsLen(total: int): real {
    if total == 0 then 0.0 else 1.0 / total as real
  }

  /** The share `weight * elems_len` of the bar that a child gets along the flow axis. */
  function Share(c: Child, el: real): real {
    c.weight as real * el
  }

  /**
    The padding inset: a translation by half the padding difference after a
    shrink by half the padding sum. It maps the child's square onto the
    square inset by the paddings, `[-1 + left, 1 - right] x [-1 + bottom, 1 - top]`,
    and is the identity when there are no paddings.
  */
  function PaddingMatrix(c: Child): (p: Matrix)
    ensures Affine(p) && p.m01 == 0.0 && p.m10 == 0.0
    ensures p.m20 - p.m00 == -1.0 + c.paddingLeft && p.m20 + p.m00 == 1.0 - c.paddingRight
    ensures p.m21 - p.m11 == -1.0 + c.paddingBottom && p.m21 + p.m11 == 1.0 - c.paddingTop
    ensures c.paddingTop == 0.0 && c.paddingRight == 0.0 && c.paddingBottom == 0.0 && c.paddingLeft == 0.0 ==> p == Identity()
  {
    var tx, ty := (c.paddingLeft - c.paddingRight) * 0.5, (c.paddingBottom - c.paddingTop) * 0.5;
    var sx, sy := 1.0 - (c.paddingLeft + c.paddingRight) * 0.5, 1.0 - (c.paddingBottom + c.paddingTop) * 0.5;
    TranslateScaleForm(tx, ty, sx, sy);
    Mul(Translate(tx, ty), ScaleWH(sx, sy))
  }

  /**
    The matrix of a bar child centred at `pos` on the flow axis: the
    translation to `pos`, times the scale to the child's share, times the
    padding matrix, multiplied out (`ChildMatrixIsProduct`).
  */
  function ChildMatrix(c: Child, el: real, vertical: bool, pos: real): (m: Matrix)
    ensures Affine(m) && m.m01 == 0.0 && m.m10 == 0.0
  {
    var sh := Share(c, el);
    var px, py := 1.0 - (c.paddingLeft + c.paddingRight) * 0.5, 1.0 - (c.paddingBottom + c.paddingTop) * 0.5;
    var tx, ty := (c.paddingLeft - c.paddingRight) * 0.5, (c.paddingBottom - c.paddingTop) * 0.5;
    if vertical then Matrix(px, 0.0, 0.0, 0.0, sh * py, 0.0, tx, pos + sh * ty, 1.0)
    else Matrix(sh * px, 0.0, 0.0, 0.0, py, 0.0, pos + sh * tx, ty, 1.0)
  }

  lemma ChildMatrixIsProduct(c: Child, el: real, vertical: bool, pos: real)
    ensures ChildMatrix(c, el, vertical, pos) ==
      Mul(Mul(if vertical then Translate(0.0, pos) else Translate(pos, 0.0),
              if vertical then ScaleWH(1.0, Share(c, el)) else ScaleWH(Share(c, el), 1.0)),
          PaddingMatrix(c))
  {
    var sh := Share(c, el);
    var px, py := 1.0 - (c.paddingLeft + c.paddingRight) * 0.5, 1.0 - (c.paddingBottom + c.paddingTop) * 0.5;
    var tx, ty := (c.paddingLeft - c.paddingRight) * 0.5, (c.paddingBottom - c.paddingTop) * 0.5;
    TranslateScaleForm(tx, ty, px, py);
    if vertical {
      TranslateScaleForm(0.0, pos, 1.0, sh);
      DiagonalCompose(0.0, pos, 1.0, sh, tx, ty, px, py);
    } else {
      TranslateScaleForm(pos, 0.0, sh, 1.0);
      DiagonalCompose(pos, 0.0, sh, 1.0, tx, ty, px, py);
    }
  }

  /**
    The centre a child gets in the first pass, before collapsing: its slot
    of half-length `Share` starts where the weights before it end, each
    weight spanning `2 * el` from -1.
  */
  function FirstPassPosition(cs: seq<Child>, i: nat, el: real): (pos: real)
    requires i < |cs|
    ensures pos - Share(cs[i], el) == 2.0 * WeightSum(cs[..i]) as real * el - 1.0
  {
    (2.0 * WeightSum(cs[..i]) as real + cs[i].weight as real) * el - 1.0
  }

  /**
    `actual_content_percent`: the half-length a child occupies on the flow
    axis. A collapsed child gives up its empty margins on the two flow sides
    and keeps its paddings.
  */
  function Footprint(c: Child, n: Node, el: real, vertical: bool): (fp: real)
    ensures !c.collapse ==> fp == Share(c, el)
    ensures c.collapse && Share(c, el) >= 0.0 && FlowPaddings(c, vertical) <= FlowEmpty(n, vertical) ==> fp <= Share(c, el)
  {
    ShrinkShare(Share(c, el), 1.0 + FlowPaddings(c, vertical) * 0.5 - FlowEmpty(n, vertical) * 0.5);
    el * c.weight as real * if c.collapse then
      if vertical then
        1.0 + c.paddingTop * 0.5 + c.paddingBottom * 0.5 - n.empty.bottom * 0.5 - n.empty.top * 0.5
      else
        1.0 + c.paddingLeft * 0.5 + c.paddingRight * 0.5 - n.empty.left * 0.5 - n.empty.right * 0.5
    else
      1.0
  }

  /** The paddings of a child on the two sides along the flow. */
  function FlowPaddings(c: Child, vertical: bool): real {
    if vertical then c.paddingTop + c.paddingBottom else c.paddingLeft + c.paddingRight
  }

  /** The empty margins of a node on the two sides along the flow. */
  function FlowEmpty(n: Node, vertical: bool): real {
    if vertical then n.empty.bottom + n.empty.top else n.empty.left + n.empty.right
  }

  /** Scaling a share by a factor of at most 1 does not enlarge it. */
  lemma ShrinkShare(share: real, f: real)
    ensures share >= 0.0 && f <= 1.0 ==> share * f <= share
  {
    if share >= 0.0 && f <= 1.0 {
      assert share * f == share - share * (1.0 - f);
      assert share * (1.0 - f) >= 0.0;
    }
  }

  lemma NonNegativeProduct(d: real, w: real, el: real)
    ensures d >= 0.0 && w * el >= 0.0 ==> d * w * el >= 0.0
  {
    assert d * w * el == d * (w * el);
  }

  function Footprints(cs: seq<Child>, ns: seq<Node>, el: real, vertical: bool): (fps: seq<real>)
    requires |cs| == |ns|
    ensures |fps| == |cs|
  {
    if cs == [] then []
    else Footprints(cs[..|cs| - 1], ns[..|ns| - 1], el, vertical)
         + [Footprint(cs[|cs| - 1], ns[|ns| - 1], el, vertical)]
  }

  /**
    Where the walk along the flow axis starts, given the total length
    `real_len`: at -1 for Left and Bottom, so that it ends at +1 for Right
    and Top, and symmetrically about 0 for Center.
  */
  function StartOffset(al: Alignment, vertical: bool, realLen: real): (start: real)
    ensures vertical && al.vertical.Bottom? ==> start == -1.0
    ensures vertical && al.vertical.Top? ==> start + realLen == 1.0
    ensures !vertical && al.horizontal.Left? ==> start == -1.0
    ensures !vertical && al.horizontal.Right? ==> start + realLen == 1.0
    ensures (if vertical then al.vertical.Center? else al.horizontal.Center?) ==> start + realLen == -start
  {
    if vertical then
      match al.vertical
      case Bottom => -1.0
      case Center => -realLen * 0.5
      case Top => 1.0 - realLen
    else
      match al.horizontal
      case Left => -1.0
      case Center => -realLen * 0.5
      case Right => 1.0 - realLen
  }

  /**
    The centre of child `i` in the second pass: its near edge is where the
    walk has covered twice the footprints before it (`Contiguous` shows
    that its far edge is the next child's near edge).
  */
  function CenterAt(fps: seq<real>, start: real, i: nat): (c: real)
    requires i < |fps|
    ensures c - fps[i] == start + 2.0 * Sum(fps[..i])
  {
    start + 2.0 * Sum(fps[..i]) + fps[i]
  }

  /** The first-pass children with their matrices overwritten by the second pass. */
  function Placed(cs: seq<Child>, ns: seq<Node>, fps: seq<real>, el: real, vertical: bool, start: real): (r: seq<Node>)
    requires |cs| == |ns| == |fps|
    ensures |r| == |ns|
    ensures forall i | 0 <= i < |r| :: r[i].(matrix := ns[i].matrix) == ns[i]
  {
    seq(|ns|, i requires 0 <= i < |ns| => ns[i].(matrix := ChildMatrix(cs[i], el, vertical, CenterAt(fps, start, i))))
  }

  function PaddingOn(c: Child, side: Side): real {
    match side
    case TopSide => c.paddingTop
    case RightSide => c.paddingRight
    case BottomSide => c.paddingBottom
    case LeftSide => c.paddingLeft
  }

  /** A margin across the flow: the running minimum of the children's margins less their paddings, from 1. */
  function CrossMargin(cs: seq<Child>, ns: seq<Node>, side: Side): (e: real)
    requires |cs| == |ns|
    ensures e <= 1.0
  {
    if cs == [] then 1.0
    else Min(CrossMargin(cs[..|cs| - 1], ns[..|ns| - 1], side),
             MarginOn(ns[|ns| - 1].empty, side) - PaddingOn(cs[|cs| - 1], side))
  }

  /**
    A margin along the flow, taken from the child `c` at that end: none when
    it collapses, otherwise its own margin less its padding, at the scale of
    its share, so never negative when the margin covers the padding.
  */
  function EndMargin(c: Child, n: Node, side: Side, el: real): (e: real)
    ensures c.collapse ==> e == 0.0
    ensures !c.collapse && Share(c, el) >= 0.0 && MarginOn(n.empty, side) >= PaddingOn(c, side) ==> e >= 0.0
  {
    if c.collapse then 0.0
    else
      NonNegativeProduct(MarginOn(n.empty, side) - PaddingOn(c, side), c.weight as real, el);
      (MarginOn(n.empty, side) - PaddingOn(c, side)) * c.weight as real * el
  }

  /**
    The margins of a bar: along the flow from its end children, across it
    the running minimum from 1; an empty bar has no margin along the flow and
    the whole half-square across it.
  */
  function BarMargins(cs: seq<Child>, ns: seq<Node>, el: real, vertical: bool): (e: Margins)
    requires |cs| == |ns|
    ensures if vertical then e.right <= 1.0 && e.left <= 1.0 else e.top <= 1.0 && e.bottom <= 1.0
    ensures cs == [] ==> e == if vertical then Margins(0.0, 1.0, 0.0, 1.0) else Margins(1.0, 0.0, 1.0, 0.0)
  {
    var last := |cs| - 1;
    if vertical then
      Margins(
        if cs == [] then 0.0 else EndMargin(cs[last], ns[last], TopSide, el),
        CrossMargin(cs, ns, RightSide),
        if cs == [] then 0.0 else EndMargin(cs[0], ns[0], BottomSide, el),
        CrossMargin(cs, ns, LeftSide))
    else
      Margins(
        CrossMargin(cs, ns, TopSide),
        if cs == [] then 0.0 else EndMargin(cs[last], ns[last], RightSide, el),
        CrossMargin(cs, ns, BottomSide),
        if cs == [] then 0.0 else EndMargin(cs[0], ns[0], LeftSide, el))
  }

  /** The bar node built from its first-pass children `ns`, whose matrices alone it replaces. */
  function BarNode(id: WidgetId, m: Matrix, cs: seq<Child>, ns: seq<Node>, el: real, vertical: bool, al: Alignment): (n: Node)
    requires |cs| == |ns|
    ensures n.matrix == m && n.widget == id && n.shapes == [] && !n.needsRebuild
    ensures |n.children| == |ns| && forall k | 0 <= k < |ns| :: n.children[k].(matrix := ns[k].matrix) == ns[k]
  {
    var fps := Footprints(cs, ns, el, vertical);
    var start := StartOffset(al, vertical, 2.0 * Sum(fps));
    Node(m, id, Placed(cs, ns, fps, el, vertical, start), [], false, BarMargins(cs, ns, el, vertical))
  }

  /** The space a shape leaves on each side of the `[-1, 1]` box, from its bounding box. */
  function Gaps(b: Bounds): Margins {
    Margins(1.0 - b.top, 1.0 - b.right, b.bottom + 1.0, b.left + 1.0)
  }

  /** The margins of a `Shapes` node: the running minimum of the shapes' gaps, from 1 on every side. */
  function LeafMargins(bb: Shape -> Bounds, shapes: seq<Shape>): (e: Margins)
    ensures e.top <= 1.0 && e.right <= 1.0 && e.bottom <= 1.0 && e.left <= 1.0
    ensures shapes == [] ==> e == Margins(1.0, 1.0, 1.0, 1.0)
  {
    if shapes == [] then Margins(1.0, 1.0, 1.0, 1.0)
    else
      var acc := LeafMargins(bb, shapes[..|shapes| - 1]);
      var g := Gaps(bb(shapes[|shapes| - 1]));
      Margins(Min(acc.top, g.top), Min(acc.right, g.right), Min(acc.bottom, g.bottom), Min(acc.left, g.left))
  }

  /** `Ok(xs + ys)` when `r` is `Ok(ys)`; an error passes through. */
  function Prepend(xs: seq<Node>, r: Result<seq<Node>>): Result<seq<Node>> {
    match r
    case Ok(ys) => Ok(xs + ys)
    case Err(e) => Err(e)
  }

  lemma PrependNothing(r: Result<seq<Node>>)
    ensures Prepend([], r) == r
  {
    if r.Ok? {
      assert [] + r.value == r.value;
    }
  }

  lemma PrependTwice(xs: seq<Node>, ys: seq<Node>, r: Result<seq<Node>>)
    ensures Prepend(xs, Prepend(ys, r)) == Prepend(xs + ys, r)
  {
    if r.Ok? {
      assert xs + (ys + r.value) == (xs + ys) + r.value;
    }
  }

  /**
    The height per width ratio a widget is asked to lay itself out for: the
    viewport's ratio with the height scaled by m11 and the width by m00, so
    that a uniform scale keeps the viewport's ratio.
  */
  function RatioOf(viewport: real, m: Matrix): (r: real)
    requires m.m00 != 0.0
    ensures r * m.m00 == viewport * m.m11
    ensures m.m11 == m.m00 ==> r == viewport
  {
    viewport * m.m11 / m.m00
  }

  /**
    `Node::new`: ask widget `id` for its layout at the ratio its matrix gives
    it, and build the node the layout describes.
  */
  function Resolve<S>(a: Arena<S>, s: S, id: WidgetId, m: Matrix, viewport: real, al: Alignment): (r: Result<Node>)
    ensures r.Ok? ==> r.value.matrix == m && r.value.widget == id && !r.value.needsRebuild
    ensures r.Ok? ==> WellFormed(a, r.value)
    decreases id, 3, 0
  {
    if id >= |a.widgets| then Err(UnknownWidget(id))
    else NodeFor(a, s, id, m, viewport, al)
  }

  /** The node of widget `id`, built from the layout it returns for the ratio of `m`. */
  function NodeFor<S>(a: Arena<S>, s: S, id: WidgetId, m: Matrix, viewport: real, al: Alignment): (r: Result<Node>)
    requires id < |a.widgets|
    ensures r.Ok? ==> r.value.matrix == m && r.value.widget == id && !r.value.needsRebuild
    ensures r.Ok? ==> WellFormed(a, r.value)
    decreases id, 2, 0
  {
    if m.m00 == 0.0 then Err(ZeroWidth(id))
    else
      match a.widgets[id].buildLayout(s, RatioOf(viewport, m), al)
      case AbsolutePositionned(list) =>
        (match ResolvePlacements(a, s, id, list, viewport, 0)
         case Ok(ns) => Ok(Node(m, id, ns, [], false, Margins(0.0, 0.0, 0.0, 0.0)))
         case Err(e) => Err(e))
      case HorizontalBar(h, cs) =>
        ResolveBar(a, s, id, m, cs, Alignment(h, DefaultVertical()), false, viewport)
      case VerticalBar(v, cs) =>
        ResolveBar(a, s, id, m, cs, Alignment(DefaultHorizontal(), v), true, viewport)
      case Shapes(shapes) =>
        Ok(Node(m, id, [], shapes, false, LeafMargins(a.boundingBox, shapes)))
  }

  /** The children of an `AbsolutePositionned` layout from entry `i` on, centred, at their own matrices. */
  function ResolvePlacements<S>(a: Arena<S>, s: S, id: WidgetId, list: seq<Placement>, viewport: real, i: nat): (r: Result<seq<Node>>)
    requires i <= |list|
    ensures r.Ok? ==> |r.value| == |list| - i
    ensures r.Ok? ==> forall k | 0 <= k < |r.value| ::
      && r.value[k].matrix == list[i + k].matrix && r.value[k].widget == list[i + k].widget
      && WellFormed(a, r.value[k])
    decreases id, 1, |list| - i
  {
    if i == |list| then Ok([])
    else if list[i].widget >= id then Err(BadChild(id, list[i].widget))
    else
      match Resolve(a, s, list[i].widget, list[i].matrix, viewport, DefaultAlignment())
      case Err(e) => Err(e)
      case Ok(n) => Prepend([n], ResolvePlacements(a, s, id, list, viewport, i + 1))
  }

  /** `Node::with_layout`: a horizontal or vertical bar. */
  function ResolveBar<S>(a: Arena<S>, s: S, id: WidgetId, m: Matrix, cs: seq<Child>, al: Alignment, vertical: bool, viewport: real): (r: Result<Node>)
    ensures r.Ok? ==> r.value.matrix == m && r.value.widget == id && !r.value.needsRebuild && r.value.shapes == []
    ensures r.Ok? ==> |r.value.children| == |cs|
    ensures r.Ok? ==> forall k | 0 <= k < |cs| :: WellFormed(a, r.value.children[k])
    decreases id, 1, |cs| + 1
  {
    if !WeightsFit(cs) then Err(WeightOverflow(id))
    else if cs != [] && WeightSum(cs) == 0 then Err(ZeroTotalWeight(id))
    else
      var el := ElemsLen(WeightSum(cs));
      match FirstPass(a, s, id, cs, el, vertical, viewport, |cs|)
      case Err(e) => Err(e)
      case Ok(ns) => Ok(BarNode(id, m, cs, ns, el, vertical, al))
  }

  /**
    The first pass over the bar's first `n` children: each built at its
    first-pass matrix, in order; the first child that fails stops the pass.
  */
  function FirstPass<S>(a: Arena<S>, s: S, id: WidgetId, cs: seq<Child>, el: real, vertical: bool, viewport: real, n: nat): (r: Result<seq<Node>>)
    requires n <= |cs|
    ensures r.Ok? ==> |r.value| == n
    ensures r.Ok? ==> forall k | 0 <= k < n :: WellFormed(a, r.value[k])
    decreases id, 1, n
  {
    if n == 0 then Ok([])
    else
      match FirstPass(a, s, id, cs, el, vertical, viewport, n - 1)
      case Err(e) => Err(e)
      case Ok(ns) =>
        var i := n - 1;
        if cs[i].child >= id then Err(BadChild(id, cs[i].child))
        else
          match Resolve(a, s, cs[i].child, ChildMatrix(cs[i], el, vertical, FirstPassPosition(cs, i, el)), viewport, cs[i].alignment)
          case Err(e) => Err(e)
          case Ok(node) => Ok(ns + [node])
  }
}
