/**
  The retained tree the engine builds from the widgets (`struct Node` in
  src/ui.rs), and the widget arena the model resolves widget references in.

  A Rust `Node` owns its children (`Vec<Node>`), so a node is a value: an
  operation that updates a node in place is modelled as one that returns the
  updated node.
*/
module Nodes {
  import opened Matrices
  import opened Primitives
  import opened Widgets

  /**
    The empty space on each side of a widget's content, in the widget's own
    local coordinates (`empty_top`, `empty_right`, `empty_bottom`, `empty_left`).
  */
  datatype Margins = Margins(top: real, right: real, bottom: real, left: real)

  datatype Side = TopSide | RightSide | BottomSide | LeftSide

  function MarginOn(m: Margins, side: Side): real {
    match side
    case TopSide => m.top
    case RightSide => m.right
    case BottomSide => m.bottom
    case LeftSide => m.left
  }

  /**
    A node: its matrix relative to its parent, the widget it was built from,
    the nodes of the widget's children, the widget's own shapes, the flag an
    event handler sets to ask for a rebuild, and its empty margins.
  */
  datatype Node = Node(
    matrix: Matrix,
    widget: WidgetId,
    children: seq<Node>,
    shapes: seq<Shape>,
    needsRebuild: bool,
    empty: Margins)

  /**
    The widgets of an application, addressed by `WidgetId`, and the bounding
    box every shape reports (`Shape::get_bounding_box`, which the engine calls
    and src/shape.rs does not define; the model leaves it a parameter).
  */
  datatype Arena<!S> = Arena(widgets: seq<WidgetImpl<S>>, boundingBox: Shape -> Bounds)

  /**
    The ways resolving a widget can fail in the model. In Rust these are an
    `Arc` that cannot dangle (UnknownWidget); a child whose id is not below
    its parent's (BadChild: the model needs the widgets numbered so that
    every child comes before its parent, which a widget that reappears in its
    own subtree cannot be, however its recursion ends); an `i8` overflow in
    the weight sum, where a debug build panics (WeightOverflow); a bar whose
    weights sum to zero so that `1.0 / 0` is infinite (ZeroTotalWeight); and
    a matrix whose entry m00 is 0, a zero width or a quarter-turn rotation,
    so that the height per width ratio is not a number (ZeroWidth).
  */
  datatype LayoutError =
    | UnknownWidget(id: WidgetId)
    | BadChild(parent: WidgetId, child: WidgetId)
    | WeightOverflow(id: WidgetId)
    | ZeroTotalWeight(id: WidgetId)
    | ZeroWidth(id: WidgetId)

  datatype Result<T> = Ok(value: T) | Err(error: LayoutError)

  /** Every node of the tree refers to a widget of the arena. */
  predicate WellFormed<S>(a: Arena<S>, n: Node) {
    && n.widget < |a.widgets|
    && forall k | 0 <= k < |n.children| :: WellFormed(a, n.children[k])
  }

  /**
    Two trees that differ at most in their `needsRebuild` flags: same
    matrices, widgets, shapes and margins, and children of the same shape.
  */
  predicate SameShape(x: Node, y: Node) {
    && x.matrix == y.matrix && x.widget == y.widget && x.shapes == y.shapes && x.empty == y.empty
    && |x.children| == |y.children|
    && forall k | 0 <= k < |x.children| :: SameShape(x.children[k], y.children[k])
  }

  lemma {:induction false} SameShapeWellFormed<S>(a: Arena<S>, x: Node, y: Node)
    requires SameShape(x, y) && WellFormed(a, x)
    ensures WellFormed(a, y)
  {
    forall k | 0 <= k < |y.children|
      ensures WellFormed(a, y.children[k])
    {
      SameShapeWellFormed(a, x.children[k], y.children[k]);
    }
  }

  lemma {:induction false} SameShapeReflexive(x: Node)
    ensures SameShape(x, x)
  {
    forall k | 0 <= k < |x.children|
      ensures SameShape(x.children[k], x.children[k])
    {
      SameShapeReflexive(x.children[k]);
    }
  }

  /**
    Two trees of the same shape where every `needsRebuild` flag set in `x` is
    also set in `y`.
  */
  predicate FlagsImply(x: Node, y: Node) {
    && x.matrix == y.matrix && x.widget == y.widget && x.shapes == y.shapes && x.empty == y.empty
    && (x.needsRebuild ==> y.needsRebuild)
    && |x.children| == |y.children|
    && forall k | 0 <= k < |x.children| :: FlagsImply(x.children[k], y.children[k])
  }

  lemma {:induction false} FlagsImplyReflexive(x: Node)
    ensures FlagsImply(x, x)
  {
    forall k | 0 <= k < |x.children|
      ensures FlagsImply(x.children[k], x.children[k])
    {
      FlagsImplyReflexive(x.children[k]);
    }
  }

  /** Every tree of a list carries at least its own flags. */
  lemma FlagsImplyAll(cs: seq<Node>)
    ensures forall k | 0 <= k < |cs| :: FlagsImply(cs[k], cs[k])
  {
    forall k | 0 <= k < |cs|
      ensures FlagsImply(cs[k], cs[k])
    {
      FlagsImplyReflexive(cs[k]);
    }
  }

  lemma {:induction false} FlagsImplySameShape(x: Node, y: Node)
    requires FlagsImply(x, y)
    ensures SameShape(x, y)
  {
    forall k | 0 <= k < |x.children|
      ensures SameShape(x.children[k], y.children[k])
    {
      FlagsImplySameShape(x.children[k], y.children[k]);
    }
  }

  /** The number of nodes in the tree. */
  function NodeCount(n: Node): (c: nat)
    ensures c >= 1
  {
    1 + ChildrenCount(n.children)
  }

  function ChildrenCount(cs: seq<Node>): nat {
    if cs == [] then 0 else ChildrenCount(cs[..|cs| - 1]) + NodeCount(cs[|cs| - 1])
  }
}
