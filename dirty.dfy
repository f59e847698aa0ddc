/**
  Dirty tracking (`Node::needs_rebuild`, src/ui.rs:376-393): a pre-order scan
  of the tree that stops at the first node whose own flag is set, whose
  widget asks for a rebuild, or one of whose children reports a rebuild.
  Only a flag that stops the scan is cleared.
*/
module DirtyTracking {
  import opened Matrices
  import opened Primitives
  import opened Widgets
  import opened Nodes

  /** The answer of a scan and the node it leaves behind. */
  datatype Scan = Scan(found: bool, node: Node)

  /** The answer of a scan over children and the children it leaves behind. */
  datatype ScanAll = ScanAll(found: bool, nodes: seq<Node>)

  /** Every node of the list refers to a widget of the arena. */
  predicate AllWellFormed<S>(a: Arena<S>, ns: seq<Node>) {
    forall k | 0 <= k < |ns| :: WellFormed(a, ns[k])
  }

  /** `Node::needs_rebuild` in the application state `st`. */
  function NeedsRebuild<S>(a: Arena<S>, st: S, n: Node): (r: Scan)
    requires WellFormed(a, n)
    ensures SameShape(n, r.node)
    ensures !r.found ==> r.node == n
    decreases n
  {
    if n.needsRebuild then
      SameShapeAll(n.children);
      Scan(true, n.(needsRebuild := false))
    else if a.widgets[n.widget].needsRebuild(st) then
      SameShapeReflexive(n);
      Scan(true, n)
    else
      var r := ChildrenNeedRebuild(a, st, n.children, 0);
      Scan(r.found, n.(children := r.nodes))
  }

  /**
    The loop over the children from child `i` on: the first child that
    reports a rebuild is replaced by the node its scan leaves, and the scan
    stops there.
  */
  function ChildrenNeedRebuild<S>(a: Arena<S>, st: S, cs: seq<Node>, i: nat): (r: ScanAll)
    requires i <= |cs| && AllWellFormed(a, cs)
    ensures |r.nodes| == |cs|
    ensures forall k | 0 <= k < |cs| :: SameShape(cs[k], r.nodes[k])
    ensures !r.found ==> r.nodes == cs
    decreases cs, |cs| - i
  {
    if i == |cs| then
      SameShapeAll(cs);
      ScanAll(false, cs)
    else
      var first := NeedsRebuild(a, st, cs[i]);
      if first.found then
        SameShapeAll(cs);
        ScanAll(true, cs[i := first.node])
      else
        ChildrenNeedRebuild(a, st, cs, i + 1)
  }

  lemma SameShapeAll(cs: seq<Node>)
    ensures forall k | 0 <= k < |cs| :: SameShape(cs[k], cs[k])
  {
    forall k | 0 <= k < |cs|
      ensures SameShape(cs[k], cs[k])
    {
      SameShapeReflexive(cs[k]);
    }
  }

  /**
    The scan as an imperative pass: the node's own flag, then the widget's
    poll, then the children in order, returning at the first that answers.
  */
  method ScanTree<S>(a: Arena<S>, st: S, n: Node) returns (found: bool, after: Node)
    requires WellFormed(a, n)
    ensures Scan(found, after) == NeedsRebuild(a, st, n)
    decreases n
  {
    if n.needsRebuild {
      return true, n.(needsRebuild := false);
    }
    if a.widgets[n.widget].needsRebuild(st) {
      return true, n;
    }
    var i := 0;
    while i < |n.children|
      invariant 0 <= i <= |n.children|
      invariant ChildrenNeedRebuild(a, st, n.children, i) == ChildrenNeedRebuild(a, st, n.children, 0)
    {
      var childFound, child := ScanTree(a, st, n.children[i]);
      if childFound {
        return true, n.(children := n.children[i := child]);
      }
      i := i + 1;
    }
    return false, n;
  }

  /** Some node of the tree has its flag set or a widget that asks for a rebuild. */
  predicate AnyDirty<S>(a: Arena<S>, st: S, n: Node)
    requires WellFormed(a, n)
    decreases n
  {
    || n.needsRebuild
    || a.widgets[n.widget].needsRebuild(st)
    || exists k | 0 <= k < |n.children| :: AnyDirty(a, st, n.children[k])
  }

  /** The scan answers true exactly when some node of the tree is dirty. */
  lemma {:induction false} ScanFindsDirty<S>(a: Arena<S>, st: S, n: Node)
    requires WellFormed(a, n)
    ensures NeedsRebuild(a, st, n).found <==> AnyDirty(a, st, n)
    decreases n, 1
  {
    if !n.needsRebuild && !a.widgets[n.widget].needsRebuild(st) {
      ChildrenScanFindsDirty(a, st, n.children, 0);
    }
  }

  lemma {:induction false} ChildrenScanFindsDirty<S>(a: Arena<S>, st: S, cs: seq<Node>, i: nat)
    requires i <= |cs| && AllWellFormed(a, cs)
    ensures ChildrenNeedRebuild(a, st, cs, i).found <==> exists k | i <= k < |cs| :: AnyDirty(a, st, cs[k])
    decreases cs, |cs| - i
  {
    if i < |cs| {
      ScanFindsDirty(a, st, cs[i]);
      ChildrenScanFindsDirty(a, st, cs, i + 1);
    }
  }

  /** The number of nodes whose flag is set. */
  function FlagCount(n: Node): nat {
    (if n.needsRebuild then 1 else 0) + ChildrenFlagCount(n.children)
  }

  function ChildrenFlagCount(cs: seq<Node>): nat {
    if cs == [] then 0 else ChildrenFlagCount(cs[..|cs| - 1]) + FlagCount(cs[|cs| - 1])
  }

  /**
    A scan only clears flags, and at most one: the flag count drops by one
    or stays.
  */
  lemma {:induction false} ScanLowersOneFlag<S>(a: Arena<S>, st: S, n: Node)
    requires WellFormed(a, n)
    ensures var r := NeedsRebuild(a, st, n).node;
      FlagsImply(r, n) && FlagCount(n) - 1 <= FlagCount(r) <= FlagCount(n)
    decreases n, 1
  {
    var r := NeedsRebuild(a, st, n).node;
    if n.needsRebuild {
      FlagsImplyAll(n.children);
    } else if a.widgets[n.widget].needsRebuild(st) {
      FlagsImplyReflexive(n);
    } else {
      ChildrenScanLowersOneFlag(a, st, n.children, 0);
    }
  }

  lemma {:induction false} ChildrenScanLowersOneFlag<S>(a: Arena<S>, st: S, cs: seq<Node>, i: nat)
    requires i <= |cs| && AllWellFormed(a, cs)
    ensures var r := ChildrenNeedRebuild(a, st, cs, i).nodes;
      && (forall k | 0 <= k < |cs| :: FlagsImply(r[k], cs[k]))
      && ChildrenFlagCount(cs) - 1 <= ChildrenFlagCount(r) <= ChildrenFlagCount(cs)
    decreases cs, |cs| - i
  {
    var r := ChildrenNeedRebuild(a, st, cs, i);
    if i == |cs| {
      FlagsImplyAll(cs);
    } else {
      var first := NeedsRebuild(a, st, cs[i]);
      if first.found {
        ScanLowersOneFlag(a, st, cs[i]);
        FlagsImplyAll(cs);
        ReplaceOneCount(cs, i, first.node);
      } else {
        ChildrenScanLowersOneFlag(a, st, cs, i + 1);
      }
    }
  }

  /** Replacing one child changes the flag count of the children by the change in that child's count. */
  lemma {:induction false} ReplaceOneCount(cs: seq<Node>, i: nat, x: Node)
    requires i < |cs|
    ensures ChildrenFlagCount(cs[i := x]) + FlagCount(cs[i]) == ChildrenFlagCount(cs) + FlagCount(x)
    decreases |cs|
  {
    var last := |cs| - 1;
    var ys := cs[i := x];
    assert ys[..last] == if i == last then cs[..last] else cs[..last][i := x];
    if i < last {
      ReplaceOneCount(cs[..last], i, x);
    }
  }

  /** A scan that answers false leaves every flag as it was. */
  lemma NothingFoundNothingChanged<S>(a: Arena<S>, st: S, n: Node)
    requires WellFormed(a, n) && !AnyDirty(a, st, n)
    ensures NeedsRebuild(a, st, n) == Scan(false, n)
  {
    ScanFindsDirty(a, st, n);
  }
}
