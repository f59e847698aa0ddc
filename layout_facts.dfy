/**
  What the bar layout of `Node::with_layout` guarantees: the weights share
  the bar, the children are laid end to end and flush with the aligned edge,
  paddings inset a child inside its slot, and the empty margins are the
  minima the running updates compute.
*/
module LayoutFacts {
  import opened Matrices
  import opened Primitives
  import opened Widgets
  import opened Nodes
  import opened Layouts

  lemma SumStep(xs: seq<real>, i: nat)
    requires i < |xs|
    ensures Sum(xs[..i + 1]) == Sum(xs[..i]) + xs[i]
  {
    assert xs[..i + 1][..i] == xs[..i];
  }

  lemma WeightSumStep(cs: seq<Child>, i: nat)
    requires i < |cs|
    ensures WeightSum(cs[..i + 1]) == WeightSum(cs[..i]) + cs[i].weight as int
  {
    assert cs[..i + 1][..i] == cs[..i];
  }

  /** `WeightsFit` holds exactly when no running total of the `i8` fold leaves the `i8` range. */
  lemma {:induction false} WeightsFitPrefixes(cs: seq<Child>)
    ensures WeightsFit(cs) <==> forall i | 0 < i <= |cs| :: -128 <= WeightSum(cs[..i]) < 128
  {
    if cs != [] {
      var init := cs[..|cs| - 1];
      WeightsFitPrefixes(init);
      assert cs[..|cs|] == cs;
      forall i | 0 < i < |cs|
        ensures cs[..i] == init[..i]
      {
      }
    }
  }

  /** When every footprint is the child's share, the footprints before child `i` add up to the weights before it. */
  lemma {:induction false} SharesBefore(cs: seq<Child>, fps: seq<real>, el: real, i: nat)
    requires |cs| == |fps| && i <= |cs|
    requires forall k | 0 <= k < |cs| :: fps[k] == Share(cs[k], el)
    ensures Sum(fps[..i]) == WeightSum(cs[..i]) as real * el
  {
    if i == 0 {
      assert fps[..0] == [] && cs[..0] == [];
    } else {
      SharesBefore(cs, fps, el, i - 1);
      SumStep(fps, i - 1);
      WeightSumStep(cs, i - 1);
    }
  }

  /** The footprints line up with the children: entry `i` is the footprint of child `i` and its node. */
  lemma {:induction false} FootprintsAt(cs: seq<Child>, ns: seq<Node>, el: real, vertical: bool)
    requires |cs| == |ns|
    ensures forall i | 0 <= i < |cs| :: Footprints(cs, ns, el, vertical)[i] == Footprint(cs[i], ns[i], el, vertical)
  {
    if cs != [] {
      FootprintsAt(cs[..|cs| - 1], ns[..|ns| - 1], el, vertical);
    }
  }

  /** A child that does not collapse has its whole share as footprint. */
  lemma NoCollapseShares(cs: seq<Child>, ns: seq<Node>, el: real, vertical: bool)
    requires |cs| == |ns|
    requires forall k | 0 <= k < |cs| :: !cs[k].collapse
    ensures forall k | 0 <= k < |cs| :: Footprints(cs, ns, el, vertical)[k] == Share(cs[k], el)
  {
    FootprintsAt(cs, ns, el, vertical);
  }

  /**
    The first pass builds child `k` from the widget `cs[k].child`, at its
    slot: the translation to its centre, the scaling by its share and its
    padding (`ChildMatrix`).
  */
  lemma {:induction false} FirstPassSlots<S>(a: Arena<S>, s: S, id: WidgetId, cs: seq<Child>, el: real, vertical: bool, viewport: real, n: nat)
    requires n <= |cs|
    ensures var r := FirstPass(a, s, id, cs, el, vertical, viewport, n);
      r.Ok? ==> forall k | 0 <= k < n ::
        && r.value[k].widget == cs[k].child
        && r.value[k].matrix == ChildMatrix(cs[k], el, vertical, FirstPassPosition(cs, k, el))
  {
    var r := FirstPass(a, s, id, cs, el, vertical, viewport, n);
    if n > 0 && r.Ok? {
      var i := n - 1;
      FirstPassSlots(a, s, id, cs, el, vertical, viewport, i);
      var prev := FirstPass(a, s, id, cs, el, vertical, viewport, i);
      var last := Resolve(a, s, cs[i].child, ChildMatrix(cs[i], el, vertical, FirstPassPosition(cs, i, el)), viewport, cs[i].alignment);
      assert prev.Ok? && last.Ok? && r.value == prev.value + [last.value];
      forall k | 0 <= k < n
        ensures r.value[k].widget == cs[k].child
        ensures r.value[k].matrix == ChildMatrix(cs[k], el, vertical, FirstPassPosition(cs, k, el))
      {
        if k < i {
          assert r.value[k] == prev.value[k];
        }
      }
    }
  }

  /**
    The first pass over `n` children extends the pass over `n - 1` by the
    node of child `n - 1`, built at its slot, once that child resolves.
  */
  lemma FirstPassExtends<S>(a: Arena<S>, s: S, id: WidgetId, cs: seq<Child>, el: real, vertical: bool, viewport: real, n: nat, ns: seq<Node>, node: Node)
    requires 0 < n <= |cs| && cs[n - 1].child < id
    requires FirstPass(a, s, id, cs, el, vertical, viewport, n - 1) == Ok(ns)
    requires Resolve(a, s, cs[n - 1].child, ChildMatrix(cs[n - 1], el, vertical, FirstPassPosition(cs, n - 1, el)), viewport, cs[n - 1].alignment) == Ok(node)
    ensures FirstPass(a, s, id, cs, el, vertical, viewport, n) == Ok(ns + [node])
  {
  }

  /** A bar's node has one child per entry of the bar, built from that entry's widget, in order. */
  lemma BarChildren<S>(a: Arena<S>, s: S, id: WidgetId, m: Matrix, cs: seq<Child>, al: Alignment, vertical: bool, viewport: real)
    requires ResolveBar(a, s, id, m, cs, al, vertical, viewport).Ok?
    ensures var n := ResolveBar(a, s, id, m, cs, al, vertical, viewport).value;
      forall k | 0 <= k < |cs| :: n.children[k].widget == cs[k].child
  {
    FirstPassSlots(a, s, id, cs, ElemsLen(WeightSum(cs)), vertical, viewport, |cs|);
  }

  /**
    A bar whose children do not collapse covers its whole length: the
    footprints add up to 1, so `real_len` is 2 and every alignment starts
    the walk at -1.
  */
  lemma NoCollapseFills(cs: seq<Child>, ns: seq<Node>, vertical: bool, al: Alignment)
    requires |cs| == |ns| && WeightSum(cs) != 0
    requires forall k | 0 <= k < |cs| :: !cs[k].collapse
    ensures var fps := Footprints(cs, ns, ElemsLen(WeightSum(cs)), vertical);
      Sum(fps) == 1.0 && StartOffset(al, vertical, 2.0 * Sum(fps)) == -1.0
  {
    var el := ElemsLen(WeightSum(cs));
    var fps := Footprints(cs, ns, el, vertical);
    NoCollapseShares(cs, ns, el, vertical);
    SharesBefore(cs, fps, el, |cs|);
    assert fps[..|cs|] == fps && cs[..|cs|] == cs;
  }

  /** With shares as footprints and the walk starting at -1, every centre is the first-pass position. */
  lemma CentersMatchFirstPass(cs: seq<Child>, fps: seq<real>, el: real)
    requires |cs| == |fps|
    requires forall k | 0 <= k < |cs| :: fps[k] == Share(cs[k], el)
    ensures forall i | 0 <= i < |cs| :: CenterAt(fps, -1.0, i) == FirstPassPosition(cs, i, el)
  {
    forall i | 0 <= i < |cs|
      ensures CenterAt(fps, -1.0, i) == FirstPassPosition(cs, i, el)
    {
      SharesBefore(cs, fps, el, i);
      SameCenter(Sum(fps[..i]), WeightSum(cs[..i]) as real, cs[i].weight as real, el, fps[i]);
    }
  }

  lemma SameCenter(before: real, weights: real, w: real, el: real, fp: real)
    requires before == weights * el && fp == w * el
    ensures -1.0 + 2.0 * before + fp == (2.0 * weights + w) * el - 1.0
  {
  }

  /**
    Without collapsing children the second pass puts every child back where
    the first pass built it.
  */
  lemma NoCollapseKeepsFirstPass(cs: seq<Child>, ns: seq<Node>, vertical: bool, al: Alignment, id: WidgetId, m: Matrix)
    requires |cs| == |ns| && WeightSum(cs) != 0
    requires forall k | 0 <= k < |cs| :: !cs[k].collapse
    ensures var el := ElemsLen(WeightSum(cs));
      forall i | 0 <= i < |cs| ::
        BarNode(id, m, cs, ns, el, vertical, al).children[i]
          == ns[i].(matrix := ChildMatrix(cs[i], el, vertical, FirstPassPosition(cs, i, el)))
  {
    var el := ElemsLen(WeightSum(cs));
    var fps := Footprints(cs, ns, el, vertical);
    var start := StartOffset(al, vertical, 2.0 * Sum(fps));
    NoCollapseFills(cs, ns, vertical, al);
    NoCollapseShares(cs, ns, el, vertical);
    CentersMatchFirstPass(cs, fps, el);
    var placed := BarNode(id, m, cs, ns, el, vertical, al).children;
    assert placed == Placed(cs, ns, fps, el, vertical, start);
    forall i | 0 <= i < |cs|
      ensures placed[i] == ns[i].(matrix := ChildMatrix(cs[i], el, vertical, FirstPassPosition(cs, i, el)))
    {
      assert CenterAt(fps, start, i) == FirstPassPosition(cs, i, el);
    }
  }

  lemma ResolveBarNoCollapse<S>(a: Arena<S>, s: S, id: WidgetId, m: Matrix, cs: seq<Child>, al: Alignment, vertical: bool, viewport: real)
    requires forall k | 0 <= k < |cs| :: !cs[k].collapse
    requires ResolveBar(a, s, id, m, cs, al, vertical, viewport).Ok?
    ensures var n := ResolveBar(a, s, id, m, cs, al, vertical, viewport).value;
      var el := ElemsLen(WeightSum(cs));
      forall i | 0 <= i < |cs| :: n.children[i].matrix == ChildMatrix(cs[i], el, vertical, FirstPassPosition(cs, i, el))
  {
    if cs != [] {
      var el := ElemsLen(WeightSum(cs));
      var ns := FirstPass(a, s, id, cs, el, vertical, viewport, |cs|).value;
      NoCollapseKeepsFirstPass(cs, ns, vertical, al, id, m);
    }
  }

  /** Consecutive children touch: each one ends where the next one starts. */
  lemma Contiguous(fps: seq<real>, start: real, i: nat)
    requires i + 1 < |fps|
    ensures CenterAt(fps, start, i) + fps[i] == CenterAt(fps, start, i + 1) - fps[i + 1]
  {
    SumStep(fps, i);
  }

  /**
    The run of children spans `real_len` and sits flush with the bottom or
    left edge, flush with the top or right edge, or centred, as aligned.
  */
  lemma AlignedRun(fps: seq<real>, al: Alignment, vertical: bool)
    requires fps != []
    ensures var start := StartOffset(al, vertical, 2.0 * Sum(fps));
      var lo := CenterAt(fps, start, 0) - fps[0];
      var hi := CenterAt(fps, start, |fps| - 1) + fps[|fps| - 1];
      && lo == start && hi - lo == 2.0 * Sum(fps)
      && (if vertical then
            match al.vertical
            case Bottom => lo == -1.0
            case Top => hi == 1.0
            case Center => lo == -hi
          else
            match al.horizontal
            case Left => lo == -1.0
            case Right => hi == 1.0
            case Center => lo == -hi)
  {
    var start := StartOffset(al, vertical, 2.0 * Sum(fps));
    assert fps[..0] == [];
    assert CenterAt(fps, start, 0) - fps[0] == start;
    SumStep(fps, |fps| - 1);
    assert fps[..|fps|] == fps;
  }

  /**
    A child of a horizontal bar centred at `pos` spans `share` on each side
    of `pos`, less its paddings scaled by the share, and the full height less
    its top and bottom paddings.
  */
  lemma HorizontalSlot(c: Child, el: real, pos: real)
    ensures var m := ChildMatrix(c, el, false, pos);
      var sh := Share(c, el);
      && Affine(m) && m.m01 == 0.0 && m.m10 == 0.0
      && m.m20 - m.m00 == pos + sh * (c.paddingLeft - 1.0) && m.m20 + m.m00 == pos + sh * (1.0 - c.paddingRight)
      && m.m21 - m.m11 == -1.0 + c.paddingBottom && m.m21 + m.m11 == 1.0 - c.paddingTop
  {
    SlotEdges(pos, Share(c, el), (c.paddingLeft - c.paddingRight) * 0.5, 1.0 - (c.paddingLeft + c.paddingRight) * 0.5,
              c.paddingLeft, c.paddingRight);
  }

  /** The vertical counterpart of `HorizontalSlot`. */
  lemma VerticalSlot(c: Child, el: real, pos: real)
    ensures var m := ChildMatrix(c, el, true, pos);
      var sh := Share(c, el);
      && Affine(m) && m.m01 == 0.0 && m.m10 == 0.0
      && m.m21 - m.m11 == pos + sh * (c.paddingBottom - 1.0) && m.m21 + m.m11 == pos + sh * (1.0 - c.paddingTop)
      && m.m20 - m.m00 == -1.0 + c.paddingLeft && m.m20 + m.m00 == 1.0 - c.paddingRight
  {
    SlotEdges(pos, Share(c, el), (c.paddingBottom - c.paddingTop) * 0.5, 1.0 - (c.paddingBottom + c.paddingTop) * 0.5,
              c.paddingBottom, c.paddingTop);
  }

  lemma SlotEdges(pos: real, sh: real, t: real, d: real, lo: real, hi: real)
    requires t - d == -1.0 + lo && t + d == 1.0 - hi
    ensures (pos + sh * t) - sh * d == pos + sh * (lo - 1.0)
    ensures (pos + sh * t) + sh * d == pos + sh * (1.0 - hi)
  {
  }

  /** A node's empty margin on the near (left or bottom) side of the flow. */
  function NearEmpty(e: Margins, vertical: bool): real {
    if vertical then e.bottom else e.left
  }

  /** A node's empty margin on the far (right or top) side of the flow. */
  function FarEmpty(e: Margins, vertical: bool): real {
    if vertical then e.top else e.right
  }

  /** Where the content of a node placed by `m` starts along the flow, in its parent's coordinates. */
  function ContentLo(m: Matrix, e: Margins, vertical: bool): real {
    if vertical then m.m21 + m.m11 * (-1.0 + e.bottom) else m.m20 + m.m00 * (-1.0 + e.left)
  }

  /** Where the content of a node placed by `m` ends along the flow, in its parent's coordinates. */
  function ContentHi(m: Matrix, e: Margins, vertical: bool): real {
    if vertical then m.m21 + m.m11 * (1.0 - e.top) else m.m20 + m.m00 * (1.0 - e.right)
  }

  predicate NoFlowPaddings(c: Child, vertical: bool) {
    if vertical then c.paddingBottom == 0.0 && c.paddingTop == 0.0 else c.paddingLeft == 0.0 && c.paddingRight == 0.0
  }

  /**
    A collapsed child without paddings along the flow: its content is exactly
    as long as its footprint, and sits `share * (near - far) / 2` off the
    centre of its slot, where near and far are its empty margins on the two
    flow sides. The content is centred on the slot only when they are equal.
  */
  lemma CollapsedContentSpan(c: Child, n: Node, el: real, vertical: bool, pos: real)
    requires c.collapse && NoFlowPaddings(c, vertical)
    ensures var m := ChildMatrix(c, el, vertical, pos);
      var fp := Footprint(c, n, el, vertical);
      var off := Share(c, el) * (NearEmpty(n.empty, vertical) - FarEmpty(n.empty, vertical)) * 0.5;
      && ContentLo(m, n.empty, vertical) == pos + off - fp
      && ContentHi(m, n.empty, vertical) == pos + off + fp
  {
    var sh, near, far := Share(c, el), NearEmpty(n.empty, vertical), FarEmpty(n.empty, vertical);
    assert Footprint(c, n, el, vertical) == sh * (1.0 - near * 0.5 - far * 0.5);
  }

  /** Collapsed content is packed: the footprint is the content's own half-length about the slot's centre. */
  predicate Packs(c: Child, n: Node, vertical: bool) {
    c.collapse && NoFlowPaddings(c, vertical) && NearEmpty(n.empty, vertical) == FarEmpty(n.empty, vertical)
  }

  /** A packed child's content spans its footprint on each side of the slot's centre. */
  lemma PackedContent(c: Child, n: Node, el: real, vertical: bool, pos: real)
    requires Packs(c, n, vertical)
    ensures var m := ChildMatrix(c, el, vertical, pos);
      var fp := Footprint(c, n, el, vertical);
      ContentLo(m, n.empty, vertical) == pos - fp && ContentHi(m, n.empty, vertical) == pos + fp
  {
    CollapsedContentSpan(c, n, el, vertical, pos);
  }

  /**
    Collapsing removes the white space between children: when two neighbours
    collapse without paddings along the flow and with the same empty margin
    on both flow sides, the second pass places the first one's content so
    that it ends exactly where the second one's content begins.
  */
  lemma CollapsedNeighboursTouch(cs: seq<Child>, ns: seq<Node>, el: real, vertical: bool, start: real, i: nat)
    requires |cs| == |ns| && i + 1 < |cs|
    requires Packs(cs[i], ns[i], vertical) && Packs(cs[i + 1], ns[i + 1], vertical)
    ensures var r := Placed(cs, ns, Footprints(cs, ns, el, vertical), el, vertical, start);
      ContentHi(r[i].matrix, ns[i].empty, vertical) == ContentLo(r[i + 1].matrix, ns[i + 1].empty, vertical)
  {
    var fps := Footprints(cs, ns, el, vertical);
    var r := Placed(cs, ns, fps, el, vertical, start);
    var c0, c1 := CenterAt(fps, start, i), CenterAt(fps, start, i + 1);
    FootprintsAt(cs, ns, el, vertical);
    assert fps[i] == Footprint(cs[i], ns[i], el, vertical);
    assert fps[i + 1] == Footprint(cs[i + 1], ns[i + 1], el, vertical);
    Contiguous(fps, start, i);
    assert r[i].matrix == ChildMatrix(cs[i], el, vertical, c0);
    assert r[i + 1].matrix == ChildMatrix(cs[i + 1], el, vertical, c1);
    PackedContent(cs[i], ns[i], el, vertical, c0);
    PackedContent(cs[i + 1], ns[i + 1], el, vertical, c1);
  }

  /**
    With paddings a collapsed footprint adds half of each padding to the
    share and subtracts the empty margins without scaling them by the padding
    inset. For a padding `p` and an empty margin `e` on both flow sides the
    content then starts `share * p * (2 - e)` inside the footprint's edge,
    while the slot keeps `share * p` of padding (`HorizontalSlot`).
  */
  lemma CollapsedPaddingGap(c: Child, n: Node, el: real, vertical: bool, pos: real)
    requires c.collapse
    requires if vertical then c.paddingBottom == c.paddingTop else c.paddingLeft == c.paddingRight
    requires NearEmpty(n.empty, vertical) == FarEmpty(n.empty, vertical)
    ensures var m := ChildMatrix(c, el, vertical, pos);
      var fp := Footprint(c, n, el, vertical);
      var p, e := if vertical then c.paddingBottom else c.paddingLeft, NearEmpty(n.empty, vertical);
      && ContentLo(m, n.empty, vertical) - (pos - fp) == Share(c, el) * p * (2.0 - e)
      && (pos + fp) - ContentHi(m, n.empty, vertical) == Share(c, el) * p * (2.0 - e)
  {
    var sh, e := Share(c, el), NearEmpty(n.empty, vertical);
    var p := if vertical then c.paddingBottom else c.paddingLeft;
    assert Footprint(c, n, el, vertical) == sh * (1.0 + p - e);
  }

  /**
    The margin of a `Shapes` node on one side is the smallest gap any of its
    shapes leaves there, and 1 (the whole half-square) when no shape is
    closer.
  */
  lemma {:induction false} LeafMarginIsMinimum(bb: Shape -> Bounds, shapes: seq<Shape>, side: Side)
    ensures var e := MarginOn(LeafMargins(bb, shapes), side);
      && e <= 1.0
      && (forall i | 0 <= i < |shapes| :: e <= MarginOn(Gaps(bb(shapes[i])), side))
      && (e == 1.0 || exists i | 0 <= i < |shapes| :: e == MarginOn(Gaps(bb(shapes[i])), side))
  {
    if shapes != [] {
      var init := shapes[..|shapes| - 1];
      LeafMarginIsMinimum(bb, init, side);
      assert forall i | 0 <= i < |init| :: init[i] == shapes[i];
    }
  }

  /**
    A margin across a bar is the smallest margin less padding of its
    children on that side, and at most 1.
  */
  lemma {:induction false} CrossMarginIsMinimum(cs: seq<Child>, ns: seq<Node>, side: Side)
    requires |cs| == |ns|
    ensures var e := CrossMargin(cs, ns, side);
      && e <= 1.0
      && (forall i | 0 <= i < |cs| :: e <= MarginOn(ns[i].empty, side) - PaddingOn(cs[i], side))
      && (e == 1.0 || exists i | 0 <= i < |cs| :: e == MarginOn(ns[i].empty, side) - PaddingOn(cs[i], side))
  {
    if cs != [] {
      var n := |cs| - 1;
      CrossMarginIsMinimum(cs[..n], ns[..n], side);
      assert forall i | 0 <= i < n :: cs[..n][i] == cs[i] && ns[..n][i] == ns[i];
    }
  }

  /**
    The children of an `AbsolutePositionned` layout keep the matrices and
    widgets of its list, in order, and the node has no shapes and no margins.
  */
  lemma AbsoluteChildren<S>(a: Arena<S>, s: S, id: WidgetId, m: Matrix, viewport: real, al: Alignment, list: seq<Placement>)
    requires id < |a.widgets| && m.m00 != 0.0
    requires a.widgets[id].buildLayout(s, RatioOf(viewport, m), al) == AbsolutePositionned(list)
    requires Resolve(a, s, id, m, viewport, al).Ok?
    ensures var n := Resolve(a, s, id, m, viewport, al).value;
      && |n.children| == |list| && n.shapes == [] && n.empty == Margins(0.0, 0.0, 0.0, 0.0)
      && forall k | 0 <= k < |list| :: n.children[k].matrix == list[k].matrix && n.children[k].widget == list[k].widget
  {
  }

  /**
    The margins along the flow come from the end children alone: two bars
    whose first and last entries agree have the same flow margins, and a
    collapsed end child leaves its margin at 0.
  */
  lemma FlowMarginsFromEnds(cs: seq<Child>, ns: seq<Node>, cs': seq<Child>, ns': seq<Node>, el: real, vertical: bool)
    requires |cs| == |ns| && |cs'| == |ns'| && cs != [] && cs' != []
    requires cs[0] == cs'[0] && ns[0].empty == ns'[0].empty
    requires cs[|cs| - 1] == cs'[|cs'| - 1] && ns[|ns| - 1].empty == ns'[|ns'| - 1].empty
    ensures var m, m' := BarMargins(cs, ns, el, vertical), BarMargins(cs', ns', el, vertical);
      && (vertical ==> m.top == m'.top && m.bottom == m'.bottom)
      && (!vertical ==> m.left == m'.left && m.right == m'.right)
      && (cs[0].collapse ==> (if vertical then m.bottom else m.left) == 0.0)
      && (cs[|cs| - 1].collapse ==> (if vertical then m.top else m.right) == 0.0)
  {
  }
}
