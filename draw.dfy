/**
  Shape flattening (`Node::build_shapes`, src/ui.rs:395-407): the shapes of
  the children in child order, then the node's own shapes, each re-based by
  the node's matrix.
*/
module Drawing {
  import opened Matrices
  import opened Primitives
  import opened Nodes

  /** Every shape of `ss`, in order, keeping its variant and payload, with `m` applied after its own matrix (`ApplyAllTwice`). */
  function ApplyAll(ss: seq<Shape>, m: Matrix): (r: seq<Shape>)
    ensures |r| == |ss|
    ensures forall k | 0 <= k < |ss| :: r[k].(matrix := ss[k].matrix) == ss[k]
  {
    seq(|ss|, k requires 0 <= k < |ss| => ApplyMatrix(ss[k], m))
  }

  /**
    `Node::build_shapes`: the children's shapes first, so that the node's
    own shapes, re-based by its matrix, come last and are drawn on top.
  */
  function Flatten(n: Node): (r: seq<Shape>)
    ensures |r| >= |n.shapes| && r[|r| - |n.shapes|..] == ApplyAll(n.shapes, n.matrix)
    decreases n
  {
    var kids := ChildrenShapes(n.children, |n.children|);
    ApplyAllConcat(kids, n.shapes, n.matrix);
    ApplyAll(kids + n.shapes, n.matrix)
  }

  /** The flattened shapes of the first `i` children, one child after the other. */
  function ChildrenShapes(cs: seq<Node>, i: nat): seq<Shape>
    requires i <= |cs|
    decreases cs, i
  {
    if i == 0 then [] else ChildrenShapes(cs, i - 1) + Flatten(cs[i - 1])
  }

  lemma ApplyAllSnoc(ss: seq<Shape>, s: Shape, m: Matrix)
    ensures ApplyAll(ss + [s], m) == ApplyAll(ss, m) + [ApplyMatrix(s, m)]
  {
  }

  lemma ApplyAllConcat(xs: seq<Shape>, ys: seq<Shape>, m: Matrix)
    ensures ApplyAll(xs + ys, m) == ApplyAll(xs, m) + ApplyAll(ys, m)
  {
  }

  lemma ApplyAllTwice(ss: seq<Shape>, inner: Matrix, outer: Matrix)
    ensures ApplyAll(ApplyAll(ss, inner), outer) == ApplyAll(ss, Mul(outer, inner))
  {
    forall k | 0 <= k < |ss|
      ensures ApplyAll(ApplyAll(ss, inner), outer)[k] == ApplyAll(ss, Mul(outer, inner))[k]
    {
      ApplyTwice(ss[k], inner, outer);
    }
  }

  lemma ApplyAllIdentity(ss: seq<Shape>)
    ensures ApplyAll(ss, Identity()) == ss
  {
    forall k | 0 <= k < |ss|
      ensures ApplyAll(ss, Identity())[k] == ss[k]
    {
      ApplyIdentity(ss[k]);
    }
  }

  /**
    The flattening as the source performs it: one loop over the children
    that pushes each shape a child returns, re-based, then one loop over the
    node's own shapes.
  */
  method BuildShapes(n: Node) returns (result: seq<Shape>)
    ensures result == Flatten(n)
    decreases n
  {
    result := [];
    for k := 0 to |n.children|
      invariant result == ApplyAll(ChildrenShapes(n.children, k), n.matrix)
    {
      var sub := BuildShapes(n.children[k]);
      for j := 0 to |sub|
        invariant result == ApplyAll(ChildrenShapes(n.children, k) + sub[..j], n.matrix)
      {
        assert ChildrenShapes(n.children, k) + sub[..j + 1] == (ChildrenShapes(n.children, k) + sub[..j]) + [sub[j]];
        ApplyAllSnoc(ChildrenShapes(n.children, k) + sub[..j], sub[j], n.matrix);
        result := result + [ApplyMatrix(sub[j], n.matrix)];
      }
      assert sub[..|sub|] == sub;
    }
    var before := ChildrenShapes(n.children, |n.children|);
    for j := 0 to |n.shapes|
      invariant result == ApplyAll(before + n.shapes[..j], n.matrix)
    {
      assert before + n.shapes[..j + 1] == (before + n.shapes[..j]) + [n.shapes[j]];
      ApplyAllSnoc(before + n.shapes[..j], n.shapes[j], n.matrix);
      result := result + [ApplyMatrix(n.shapes[j], n.matrix)];
    }
    assert n.shapes[..|n.shapes|] == n.shapes;
  }

  /**
    The shapes of the tree under `outer`, each placed by `outer` times the
    matrices on the path from the root down to its own node: a reference for
    what drawing is meant to produce.
  */
  function PlacedShapes(n: Node, outer: Matrix): seq<Shape>
    decreases n
  {
    var world := Mul(outer, n.matrix);
    PlacedChildren(n.children, |n.children|, world) + ApplyAll(n.shapes, world)
  }

  function PlacedChildren(cs: seq<Node>, i: nat, outer: Matrix): seq<Shape>
    requires i <= |cs|
    decreases cs, i
  {
    if i == 0 then [] else PlacedChildren(cs, i - 1, outer) + PlacedShapes(cs[i - 1], outer)
  }

  /** Re-basing a drawn tree by `outer` places every shape by its whole matrix path. */
  lemma {:induction false} FlattenPlaces(n: Node, outer: Matrix)
    ensures ApplyAll(Flatten(n), outer) == PlacedShapes(n, outer)
    decreases n, 1
  {
    var world := Mul(outer, n.matrix);
    var kids := ChildrenShapes(n.children, |n.children|);
    ApplyAllTwice(kids + n.shapes, n.matrix, outer);
    ApplyAllConcat(kids, n.shapes, world);
    ChildrenPlaces(n.children, |n.children|, world);
  }

  lemma {:induction false} ChildrenPlaces(cs: seq<Node>, i: nat, outer: Matrix)
    requires i <= |cs|
    ensures ApplyAll(ChildrenShapes(cs, i), outer) == PlacedChildren(cs, i, outer)
    decreases cs, i
  {
    if i > 0 {
      ChildrenPlaces(cs, i - 1, outer);
      FlattenPlaces(cs[i - 1], outer);
      ApplyAllConcat(ChildrenShapes(cs, i - 1), Flatten(cs[i - 1]), outer);
    }
  }

  /** Drawing from the root places every shape by the product of the matrices from the root down. */
  lemma DrawPlacesEveryShape(n: Node)
    ensures Flatten(n) == PlacedShapes(n, Identity())
  {
    FlattenPlaces(n, Identity());
    ApplyAllIdentity(Flatten(n));
  }

  /** A leaf at the identity matrix draws its own shapes unchanged. */
  lemma IdentityLeafDrawsItsShapes(n: Node)
    requires n.children == [] && n.matrix == Identity()
    ensures Flatten(n) == n.shapes
  {
    assert [] + n.shapes == n.shapes;
    ApplyAllIdentity(n.shapes);
  }

  /** The rebuild flags play no part in drawing. */
  lemma {:induction false} FlattenIgnoresFlags(x: Node, y: Node)
    requires SameShape(x, y)
    ensures Flatten(x) == Flatten(y)
    decreases x, 1
  {
    ChildrenIgnoreFlags(x.children, y.children, |x.children|);
  }

  lemma {:induction false} ChildrenIgnoreFlags(xs: seq<Node>, ys: seq<Node>, i: nat)
    requires i <= |xs| == |ys| && forall k | 0 <= k < |xs| :: SameShape(xs[k], ys[k])
    ensures ChildrenShapes(xs, i) == ChildrenShapes(ys, i)
    decreases xs, i
  {
    if i > 0 {
      ChildrenIgnoreFlags(xs, ys, i - 1);
      FlattenIgnoresFlags(xs[i - 1], ys[i - 1]);
    }
  }
}
