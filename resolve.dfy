/**
  `Node::new` and `Node::with_layout` as the loops src/ui.rs runs, each
  proved to build exactly the node the specification functions of `Layouts`
  describe.
*/
module Resolution {
  import opened Matrices
  import opened Primitives
  import opened Widgets
  import opened Nodes
  import opened Layouts
  import opened LayoutFacts

  /** `Node::new`. */
  method NewNode<S>(a: Arena<S>, s: S, id: WidgetId, m: Matrix, viewport: real, al: Alignment) returns (r: Result<Node>)
    ensures r == Resolve(a, s, id, m, viewport, al)
    decreases id, 2
  {
    if id >= |a.widgets| {
      return Err(UnknownWidget(id));
    }
    if m.m00 == 0.0 {
      return Err(ZeroWidth(id));
    }
    var ratio := viewport * m.m11 / m.m00;
    assert ratio == RatioOf(viewport, m);
    match a.widgets[id].buildLayout(s, ratio, al)
    case AbsolutePositionned(list) =>
      var children: seq<Node> := [];
      var i := 0;
      PrependNothing(ResolvePlacements(a, s, id, list, viewport, 0));
      while i < |list|
        invariant 0 <= i <= |list|
        invariant ResolvePlacements(a, s, id, list, viewport, 0) == Prepend(children, ResolvePlacements(a, s, id, list, viewport, i))
      {
        if list[i].widget >= id {
          return Err(BadChild(id, list[i].widget));
        }
        var c := NewNode(a, s, list[i].widget, list[i].matrix, viewport, DefaultAlignment());
        if c.Err? {
          return Err(c.error);
        }
        PrependTwice(children, [c.value], ResolvePlacements(a, s, id, list, viewport, i + 1));
        children := children + [c.value];
        i := i + 1;
      }
      assert children + [] == children;
      return Ok(Node(m, id, children, [], false, Margins(0.0, 0.0, 0.0, 0.0)));
    case HorizontalBar(h, cs) =>
      r := WithLayout(a, s, id, cs, Alignment(h, DefaultVertical()), false, viewport, m);
    case VerticalBar(v, cs) =>
      r := WithLayout(a, s, id, cs, Alignment(DefaultHorizontal(), v), true, viewport, m);
    case Shapes(shapes) =>
      var emptyTop, emptyRight, emptyBottom, emptyLeft := 1.0, 1.0, 1.0, 1.0;
      var i := 0;
      while i < |shapes|
        invariant 0 <= i <= |shapes|
        invariant Margins(emptyTop, emptyRight, emptyBottom, emptyLeft) == LeafMargins(a.boundingBox, shapes[..i])
      {
        var b := a.boundingBox(shapes[i]);
        var t, rt, bt, l := 1.0 - b.top, 1.0 - b.right, b.bottom + 1.0, b.left + 1.0;
        if t < emptyTop { emptyTop := t; }
        if rt < emptyRight { emptyRight := rt; }
        if bt < emptyBottom { emptyBottom := bt; }
        if l < emptyLeft { emptyLeft := l; }
        assert shapes[..i + 1][..i] == shapes[..i];
        i := i + 1;
      }
      assert shapes[..i] == shapes;
      return Ok(Node(m, id, [], shapes, false, Margins(emptyTop, emptyRight, emptyBottom, emptyLeft)));
  }

  /**
    `Node::with_layout`: fold the weights, build the children at their
    shares, measure the run, move the children into it, and take the margins
    along the flow from the first and the last child.
  */
  method WithLayout<S>(a: Arena<S>, s: S, id: WidgetId, cs: seq<Child>, al: Alignment, vertical: bool, viewport: real, m: Matrix)
    returns (r: Result<Node>)
    ensures r == ResolveBar(a, s, id, m, cs, al, vertical, viewport)
    decreases id, 1, 3
  {
    var total := TotalWeight(cs);
    if total.None? {
      return Err(WeightOverflow(id));
    }
    if cs != [] && total.value == 0 {
      return Err(ZeroTotalWeight(id));
    }
    var el := if total.value == 0 then 0.0 else 1.0 / total.value as real;
    var children, fps, empty := FirstPassLoop(a, s, id, cs, el, vertical, viewport);
    if children.Err? {
      return Err(children.error);
    }
    var nodes := children.value;
    var realLen := RunLength(fps);
    realLen := 2.0 * realLen;
    var start := if vertical then
      match al.vertical
      case Bottom => -1.0
      case Center => -realLen * 0.5
      case Top => 1.0 - realLen
    else
      match al.horizontal
      case Left => -1.0
      case Center => -realLen * 0.5
      case Right => 1.0 - realLen;
    var placed := SecondPass(cs, nodes, fps, el, vertical, start);
    empty := FlowMargins(cs, nodes, el, vertical, empty);
    return Ok(Node(m, id, placed, [], false, empty));
  }

  /** The margins along the flow, taken from the first and the last child unless they collapse. */
  method FlowMargins(cs: seq<Child>, nodes: seq<Node>, el: real, vertical: bool, cross: Margins) returns (empty: Margins)
    requires |cs| == |nodes| && cross == CrossMargins(cs, nodes, vertical)
    ensures empty == BarMargins(cs, nodes, el, vertical)
  {
    var emptyTop, emptyRight, emptyBottom, emptyLeft := cross.top, cross.right, cross.bottom, cross.left;
    if |cs| > 0 {
      var first, last := 0, |cs| - 1;
      if vertical {
        if !cs[first].collapse {
          emptyBottom := (nodes[first].empty.bottom - cs[first].paddingBottom) * cs[first].weight as real * el;
        }
        if !cs[last].collapse {
          emptyTop := (nodes[last].empty.top - cs[last].paddingTop) * cs[last].weight as real * el;
        }
      } else {
        if !cs[first].collapse {
          emptyLeft := (nodes[first].empty.left - cs[first].paddingLeft) * cs[first].weight as real * el;
        }
        if !cs[last].collapse {
          emptyRight := (nodes[last].empty.right - cs[last].paddingRight) * cs[last].weight as real * el;
        }
      }
    }
    return Margins(emptyTop, emptyRight, emptyBottom, emptyLeft);
  }

  /** The `i8` fold of the weights: `None` where a running total overflows. */
  method TotalWeight(cs: seq<Child>) returns (total: Option<int>)
    ensures total.Some? <==> WeightsFit(cs)
    ensures total.Some? ==> total.value == WeightSum(cs) && -128 <= total.value < 128
  {
    var sum := 0;
    var i := 0;
    while i < |cs|
      invariant 0 <= i <= |cs|
      invariant sum == WeightSum(cs[..i])
      invariant forall j | 0 < j <= i :: -128 <= WeightSum(cs[..j]) < 128
    {
      sum := sum + cs[i].weight as int;
      WeightSumStep(cs, i);
      if sum < -128 || 128 <= sum {
        WeightsFitPrefixes(cs);
        return None;
      }
      i := i + 1;
    }
    assert cs[..i] == cs;
    WeightsFitPrefixes(cs);
    return Some(sum);
  }

  /**
    The margins a bar has after its first pass: the running minima across
    the flow, and 0 along it.
  */
  function CrossMargins(cs: seq<Child>, ns: seq<Node>, vertical: bool): Margins
    requires |cs| == |ns|
  {
    if vertical then Margins(0.0, CrossMargin(cs, ns, RightSide), 0.0, CrossMargin(cs, ns, LeftSide))
    else Margins(CrossMargin(cs, ns, TopSide), 0.0, CrossMargin(cs, ns, BottomSide), 0.0)
  }

  /**
    The first pass of `with_layout`: every child built at its slot among the
    weights, with its footprint and the running minima across the flow.
  */
  method FirstPassLoop<S>(a: Arena<S>, s: S, id: WidgetId, cs: seq<Child>, el: real, vertical: bool, viewport: real)
    returns (r: Result<seq<Node>>, fps: seq<real>, empty: Margins)
    ensures r == FirstPass(a, s, id, cs, el, vertical, viewport, |cs|)
    ensures r.Ok? ==> fps == Footprints(cs, r.value, el, vertical) && empty == CrossMargins(cs, r.value, vertical)
    decreases id, 1, 2
  {
    empty := if vertical then Margins(0.0, 1.0, 0.0, 1.0) else Margins(1.0, 0.0, 1.0, 0.0);
    var offset := 0;
    var nodes: seq<Node> := [];
    fps := [];
    var i := 0;
    while i < |cs|
      invariant 0 <= i <= |cs|
      invariant FirstPass(a, s, id, cs, el, vertical, viewport, i) == Ok(nodes)
      invariant offset == WeightSum(cs[..i])
      invariant fps == Footprints(cs[..i], nodes, el, vertical)
      invariant empty == CrossMargins(cs[..i], nodes, vertical)
    {
      var node, fp, next, after := FoldChild(a, s, id, cs, el, vertical, viewport, i, nodes, offset, fps, empty);
      if node.Err? {
        FirstPassStops(a, s, id, cs, el, vertical, viewport, i + 1, node.error);
        return Err(node.error), fps, empty;
      }
      offset := after;
      nodes := nodes + [node.value];
      fps := fps + [fp];
      empty := next;
      i := i + 1;
    }
    assert cs[..i] == cs;
    return Ok(nodes), fps, empty;
  }

  /**
    One application of the closure the first pass folds over the children:
    the next child built, its footprint, and the minima across the flow
    lowered by its margins less its paddings.
  */
  method FoldChild<S>(a: Arena<S>, s: S, id: WidgetId, cs: seq<Child>, el: real, vertical: bool, viewport: real,
                      i: nat, nodes: seq<Node>, offset: int, fps: seq<real>, cross: Margins)
    returns (node: Result<Node>, fp: real, next: Margins, after: int)
    requires i < |cs| && offset == WeightSum(cs[..i])
    requires FirstPass(a, s, id, cs, el, vertical, viewport, i) == Ok(nodes)
    requires fps == Footprints(cs[..i], nodes, el, vertical) && cross == CrossMargins(cs[..i], nodes, vertical)
    ensures node.Err? ==> FirstPass(a, s, id, cs, el, vertical, viewport, i + 1) == Err(node.error)
    ensures node.Ok? ==> FirstPass(a, s, id, cs, el, vertical, viewport, i + 1) == Ok(nodes + [node.value])
    ensures node.Ok? ==> fps + [fp] == Footprints(cs[..i + 1], nodes + [node.value], el, vertical)
    ensures node.Ok? ==> next == CrossMargins(cs[..i + 1], nodes + [node.value], vertical)
    ensures after == WeightSum(cs[..i + 1])
    decreases id, 1, 1
  {
    var c := cs[i];
    node, fp := BuildChild(a, s, id, cs, i, offset, el, vertical, viewport);
    after := offset + c.weight as int;
    WeightSumStep(cs, i);
    if node.Err? {
      return node, fp, cross, after;
    }
    var n := node.value;
    next := cross;
    if vertical {
      next := next.(left := Min(next.left, n.empty.left - c.paddingLeft));
      next := next.(right := Min(next.right, n.empty.right - c.paddingRight));
    } else {
      next := next.(top := Min(next.top, n.empty.top - c.paddingTop));
      next := next.(bottom := Min(next.bottom, n.empty.bottom - c.paddingBottom));
    }
    FootprintsSnoc(cs, nodes, el, vertical, i, n);
    CrossMarginsSnoc(cs, nodes, vertical, i, n, cross, next);
  }

  /**
    The closure the first pass maps over the children: child `i` built at
    its slot, whose centre the weights before it (`offset`) give, and the
    footprint it occupies.
  */
  method BuildChild<S>(a: Arena<S>, s: S, id: WidgetId, cs: seq<Child>, i: nat, offset: int, el: real, vertical: bool, viewport: real)
    returns (node: Result<Node>, fp: real)
    requires i < |cs| && offset == WeightSum(cs[..i])
    ensures cs[i].child >= id ==> node == Err(BadChild(id, cs[i].child))
    ensures cs[i].child < id ==>
      node == Resolve(a, s, cs[i].child, ChildMatrix(cs[i], el, vertical, FirstPassPosition(cs, i, el)), viewport, cs[i].alignment)
    ensures node.Ok? ==> fp == Footprint(cs[i], node.value, el, vertical)
    decreases id, 1, 0
  {
    var c := cs[i];
    var position := (2.0 * offset as real + c.weight as real) * el - 1.0;
    SamePosition(cs, i, el, offset, position);
    var translate := if vertical then Translate(0.0, position) else Translate(position, 0.0);
    var scale := if vertical then ScaleWH(1.0, c.weight as real * el) else ScaleWH(c.weight as real * el, 1.0);
    var padding := Mul(Translate((c.paddingLeft - c.paddingRight) * 0.5, (c.paddingBottom - c.paddingTop) * 0.5),
                       ScaleWH(1.0 - (c.paddingLeft + c.paddingRight) * 0.5, 1.0 - (c.paddingBottom + c.paddingTop) * 0.5));
    if c.child >= id {
      return Err(BadChild(id, c.child)), 0.0;
    }
    SlotMatrix(c, el, vertical, position, translate, scale, padding);
    node := NewNode(a, s, c.child, Mul(Mul(translate, scale), padding), viewport, c.alignment);
    if node.Err? {
      return node, 0.0;
    }
    var n := node.value;
    fp := el * c.weight as real * if c.collapse then
      if vertical then
        1.0 + c.paddingTop * 0.5 + c.paddingBottom * 0.5 - n.empty.bottom * 0.5 - n.empty.top * 0.5
      else
        1.0 + c.paddingLeft * 0.5 + c.paddingRight * 0.5 - n.empty.left * 0.5 - n.empty.right * 0.5
    else
      1.0;
    FootprintIs(c, n, el, vertical, fp);
  }

  lemma FootprintIs(c: Child, n: Node, el: real, vertical: bool, fp: real)
    requires fp == el * c.weight as real * if c.collapse then
      if vertical then
        1.0 + c.paddingTop * 0.5 + c.paddingBottom * 0.5 - n.empty.bottom * 0.5 - n.empty.top * 0.5
      else
        1.0 + c.paddingLeft * 0.5 + c.paddingRight * 0.5 - n.empty.left * 0.5 - n.empty.right * 0.5
    else
      1.0
    ensures fp == Footprint(c, n, el, vertical)
  {
  }

  /** A first pass that fails on its first `n` children fails with the same error on all of them. */
  lemma {:induction false} FirstPassStops<S>(a: Arena<S>, s: S, id: WidgetId, cs: seq<Child>, el: real, vertical: bool, viewport: real, n: nat, e: LayoutError)
    requires n <= |cs| && FirstPass(a, s, id, cs, el, vertical, viewport, n) == Err(e)
    ensures FirstPass(a, s, id, cs, el, vertical, viewport, |cs|) == Err(e)
    decreases |cs| - n
  {
    if n < |cs| {
      FirstPassStops(a, s, id, cs, el, vertical, viewport, n + 1, e);
    }
  }

  lemma SamePosition(cs: seq<Child>, i: nat, el: real, offset: int, position: real)
    requires i < |cs| && offset == WeightSum(cs[..i])
    requires position == (2.0 * offset as real + cs[i].weight as real) * el - 1.0
    ensures position == FirstPassPosition(cs, i, el)
  {
  }

  /** The product the loops build is the matrix `ChildMatrix` names. */
  lemma SlotMatrix(c: Child, el: real, vertical: bool, pos: real, translate: Matrix, scale: Matrix, padding: Matrix)
    requires translate == if vertical then Translate(0.0, pos) else Translate(pos, 0.0)
    requires scale == if vertical then ScaleWH(1.0, c.weight as real * el) else ScaleWH(c.weight as real * el, 1.0)
    requires padding == Mul(Translate((c.paddingLeft - c.paddingRight) * 0.5, (c.paddingBottom - c.paddingTop) * 0.5),
                            ScaleWH(1.0 - (c.paddingLeft + c.paddingRight) * 0.5, 1.0 - (c.paddingBottom + c.paddingTop) * 0.5))
    ensures Mul(Mul(translate, scale), padding) == ChildMatrix(c, el, vertical, pos)
  {
    assert scale == if vertical then ScaleWH(1.0, Share(c, el)) else ScaleWH(Share(c, el), 1.0);
    assert padding == PaddingMatrix(c);
    ChildMatrixIsProduct(c, el, vertical, pos);
  }

  lemma FootprintsSnoc(cs: seq<Child>, ns: seq<Node>, el: real, vertical: bool, i: nat, n: Node)
    requires i < |cs| && |ns| == i
    ensures Footprints(cs[..i + 1], ns + [n], el, vertical) == Footprints(cs[..i], ns, el, vertical) + [Footprint(cs[i], n, el, vertical)]
  {
    assert cs[..i + 1][..i] == cs[..i] && (ns + [n])[..i] == ns;
  }

  lemma CrossMarginsSnoc(cs: seq<Child>, ns: seq<Node>, vertical: bool, i: nat, n: Node, before: Margins, after: Margins)
    requires i < |cs| && |ns| == i && before == CrossMargins(cs[..i], ns, vertical)
    requires var c := cs[i];
      after == if vertical then
        before.(right := Min(before.right, n.empty.right - c.paddingRight), left := Min(before.left, n.empty.left - c.paddingLeft))
      else
        before.(top := Min(before.top, n.empty.top - c.paddingTop), bottom := Min(before.bottom, n.empty.bottom - c.paddingBottom))
    ensures after == CrossMargins(cs[..i + 1], ns + [n], vertical)
  {
    assert cs[..i + 1][..i] == cs[..i] && (ns + [n])[..i] == ns;
  }

  /** Half of `real_len`: the sum of the footprints. */
  method RunLength(fps: seq<real>) returns (sum: real)
    ensures sum == Sum(fps)
  {
    sum := 0.0;
    var i := 0;
    while i < |fps|
      invariant 0 <= i <= |fps|
      invariant sum == Sum(fps[..i])
    {
      SumStep(fps, i);
      sum := sum + fps[i];
      i := i + 1;
    }
    assert fps[..i] == fps;
  }

  /** The second pass of `with_layout`: each child's matrix is rebuilt at its centre in the run. */
  method SecondPass(cs: seq<Child>, nodes: seq<Node>, fps: seq<real>, el: real, vertical: bool, start: real)
    returns (placed: seq<Node>)
    requires |cs| == |nodes| == |fps|
    ensures placed == Placed(cs, nodes, fps, el, vertical, start)
  {
    placed := nodes;
    var walk := start;
    var i := 0;
    while i < |placed|
      invariant 0 <= i <= |placed| == |nodes|
      invariant walk == start + 2.0 * Sum(fps[..i])
      invariant forall k | 0 <= k < i :: placed[k] == nodes[k].(matrix := ChildMatrix(cs[k], el, vertical, CenterAt(fps, start, k)))
      invariant forall k | i <= k < |placed| :: placed[k] == nodes[k]
    {
      var c := cs[i];
      var position := walk + fps[i];
      SumStep(fps, i);
      walk := walk + fps[i] * 2.0;
      var translate := if vertical then Translate(0.0, position) else Translate(position, 0.0);
      var scale := if vertical then ScaleWH(1.0, c.weight as real * el) else ScaleWH(c.weight as real * el, 1.0);
      var padding := Mul(Translate((c.paddingLeft - c.paddingRight) * 0.5, (c.paddingBottom - c.paddingTop) * 0.5),
                         ScaleWH(1.0 - (c.paddingLeft + c.paddingRight) * 0.5, 1.0 - (c.paddingBottom + c.paddingTop) * 0.5));
      SlotMatrix(c, el, vertical, position, translate, scale, padding);
      placed := placed[i := placed[i].(matrix := Mul(Mul(translate, scale), padding))];
      i := i + 1;
    }
  }
}
