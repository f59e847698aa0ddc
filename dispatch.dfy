/**
  Event dispatch (`Node::send_event` and `Node::mouse_update`, src/ui.rs:410-481).

  A mouse sample reaches the children first, each with the parent's matrix
  times the node's own. The events the children return are then delivered to
  the node's widget with the index of the child they came from. The node
  itself then gets MouseEnter or MouseLeave, and MouseClick when the button
  flags say so. Every delivery is recorded in a log, so that the contracts
  can speak about which widget saw which event in which order.
*/
module Dispatch {
  import opened Matrices
  import opened Primitives
  import opened Widgets
  import opened Nodes

  /** One call of a widget's `handle_event`: the widget, the event, and the child it came from. */
  datatype Delivery = Delivery(widget: WidgetId, event: Event, child: Option<nat>)

  /** A node after `send_event`: the application state, the node, and the events it returns to its parent. */
  datatype Sent<S> = Sent(state: S, node: Node, forParent: seq<Event>)

  /** `send_event`: the widget handles the event; a refresh request sets the node's flag. */
  function SendEvent<S>(a: Arena<S>, st: S, n: Node, ev: Event, child: Option<nat>): (r: Sent<S>)
    requires n.widget < |a.widgets|
    ensures r.node == n.(needsRebuild := r.node.needsRebuild)
    ensures r.node.needsRebuild <==> n.needsRebuild || a.widgets[n.widget].handleEvent(st, ev, child).1.refreshLayout
    ensures var o := a.widgets[n.widget].handleEvent(st, ev, child).1;
      && (o.propagateToParent <==> |r.forParent| == |o.eventsForParent| + 1)
      && (!o.propagateToParent <==> |r.forParent| == |o.eventsForParent|)
      && r.forParent[..|o.eventsForParent|] == o.eventsForParent
      && (o.propagateToParent ==> r.forParent[|r.forParent| - 1] == ev)
  {
    var handled := a.widgets[n.widget].handleEvent(st, ev, child);
    var o := handled.1;
    Sent(handled.0,
         if o.refreshLayout then n.(needsRebuild := true) else n,
         o.eventsForParent + if o.propagateToParent then [ev] else [])
  }

  /** A widget that keeps the default handler passes every event up unchanged and asks for no rebuild. */
  lemma DefaultHandlerPassesUp<S>(a: Arena<S>, st: S, n: Node, ev: Event, child: Option<nat>)
    requires n.widget < |a.widgets|
    requires a.widgets[n.widget].handleEvent(st, ev, child) == (st, DefaultOutcome())
    ensures SendEvent(a, st, n, ev, child) == Sent(st, n, [ev])
  {
  }

  /** An event a child returned, with the index of that child. */
  datatype Tagged = Tagged(event: Event, child: nat)

  function Tag(evs: seq<Event>, child: nat): (r: seq<Tagged>)
    ensures |r| == |evs|
    ensures forall k | 0 <= k < |r| :: r[k].event == evs[k] && r[k].child == child
  {
    seq(|evs|, k requires 0 <= k < |evs| => Tagged(evs[k], child))
  }

  /** A node after `mouse_update`, with the deliveries made in the whole subtree, in order. */
  datatype Update<S> = Update(state: S, node: Node, forParent: seq<Event>, log: seq<Delivery>)

  /** The children after the first `i` of them have received the mouse sample. */
  datatype Kids<S> = Kids(state: S, nodes: seq<Node>, tagged: seq<Tagged>, log: seq<Delivery>)

  /**
    The cursor lies on shape `s` of a node with matrix `local` under a parent
    with matrix `parent`: re-basing the shape twice tests the same as
    re-basing it once by the product.
  */
  function ShapeHit(s: Shape, local: Matrix, parent: Matrix, p: Point): (hit: bool)
    ensures hit == HitTest(ApplyMatrix(s, Mul(parent, local)), p)
  {
    HitTestNested(s, local, parent, p);
    HitTest(ApplyMatrix(ApplyMatrix(s, local), parent), p)
  }

  /** The cursor is present and lies on one of the node's own shapes; without a cursor or shapes nothing is hit. */
  function Hit(n: Node, mouse: Option<Point>, parent: Matrix): (hit: bool)
    ensures hit ==> mouse.Some? && n.shapes != []
  {
    mouse.Some? && exists k | 0 <= k < |n.shapes| :: ShapeHit(n.shapes[k], n.matrix, parent, mouse.value)
  }

  /**
    `mouse_update` on node `n` whose parent sits at `parent` in viewport
    coordinates. The node keeps its widget, matrix, shapes and number of
    children (`OwnEventsLast` says how its log ends).
  */
  function MouseUpdate<S>(a: Arena<S>, st: S, n: Node, mouse: Option<Point>, parent: Matrix, newDown: bool, oldDown: bool): (r: Update<S>)
    requires WellFormed(a, n)
    ensures r.node.widget == n.widget && r.node.matrix == n.matrix && r.node.shapes == n.shapes
    ensures |r.node.children| == |n.children|
    decreases n
  {
    var kids := ChildrenUpdate(a, st, n.children, mouse, Mul(parent, n.matrix), newDown, oldDown, |n.children|);
    var fwd := Forward(a, kids.state, n.(children := kids.nodes), kids.tagged, |kids.tagged|);
    var own := OwnEvents(a, fwd.state, fwd.node, Hit(n, mouse, parent), newDown, oldDown);
    Update(own.state, own.node, fwd.forParent + own.forParent, kids.log + fwd.log + own.log)
  }

  /**
    The node's own events: MouseEnter when hit and MouseLeave otherwise, then
    MouseClick when it is hit, `newDown` is false and `oldDown` is true.
  */
  function OwnEvents<S>(a: Arena<S>, st: S, n: Node, hit: bool, newDown: bool, oldDown: bool): (r: Update<S>)
    requires n.widget < |a.widgets|
    ensures r.node == n.(needsRebuild := r.node.needsRebuild)
    ensures n.needsRebuild ==> r.node.needsRebuild
  {
    var hover := if hit then MouseEnter else MouseLeave;
    var first := SendEvent(a, st, n, hover, None);
    if hit && !newDown && oldDown then
      var click := SendEvent(a, first.state, first.node, MouseClick, None);
      Update(click.state, click.node, first.forParent + click.forParent,
             [Delivery(n.widget, hover, None), Delivery(n.widget, MouseClick, None)])
    else
      Update(first.state, first.node, first.forParent, [Delivery(n.widget, hover, None)])
  }

  /**
    The loop over the children: child `i - 1` gets the sample after the
    children before it, in the state they left, and the events it returns
    are tagged with its index.
  */
  function ChildrenUpdate<S>(a: Arena<S>, st: S, cs: seq<Node>, mouse: Option<Point>, parent: Matrix, newDown: bool, oldDown: bool, i: nat): (r: Kids<S>)
    requires i <= |cs| && forall k | 0 <= k < |cs| :: WellFormed(a, cs[k])
    ensures |r.nodes| == |cs|
    decreases cs, i
  {
    if i == 0 then Kids(st, cs, [], [])
    else
      var prev := ChildrenUpdate(a, st, cs, mouse, parent, newDown, oldDown, i - 1);
      var u := MouseUpdate(a, prev.state, cs[i - 1], mouse, parent, newDown, oldDown);
      Kids(u.state, prev.nodes[i - 1 := u.node], prev.tagged + Tag(u.forParent, i - 1), prev.log + u.log)
  }

  /** The first `j` collected events, each delivered to the node with the index of its child. */
  function Forward<S>(a: Arena<S>, st: S, n: Node, tagged: seq<Tagged>, j: nat): (r: Update<S>)
    requires n.widget < |a.widgets| && j <= |tagged|
    ensures r.node == n.(needsRebuild := r.node.needsRebuild)
    decreases j
  {
    if j == 0 then Update(st, n, [], [])
    else
      var prev := Forward(a, st, n, tagged, j - 1);
      var t := tagged[j - 1];
      var sent := SendEvent(a, prev.state, prev.node, t.event, Some(t.child));
      Update(sent.state, sent.node, prev.forParent + sent.forParent, prev.log + [Delivery(n.widget, t.event, Some(t.child))])
  }

  /**
    `mouse_update` as the source performs it: the loop over the children, the
    loop delivering what they returned, the search for a hit shape, and the
    node's own events.
  */
  method DeliverMouse<S>(a: Arena<S>, st: S, n: Node, mouse: Option<Point>, parent: Matrix, newDown: bool, oldDown: bool)
    returns (state: S, node: Node, result: seq<Event>, log: seq<Delivery>)
    requires WellFormed(a, n)
    ensures Update(state, node, result, log) == MouseUpdate(a, st, n, mouse, parent, newDown, oldDown)
    decreases n, 1
  {
    var kidsState, children, eventsForSelf, kidsLog := VisitChildren(a, st, n.children, mouse, Mul(parent, n.matrix), newDown, oldDown);
    var forwardedUp, forwarded;
    state, node, forwardedUp, forwarded := ForwardEvents(a, kidsState, n.(children := children), eventsForSelf);
    var hit := FindHit(n, mouse, parent);
    var own, ownLog;
    state, node, own, ownLog := SendOwnEvents(a, state, node, hit, newDown, oldDown);
    result := forwardedUp + own;
    log := kidsLog + forwarded + ownLog;
  }

  /** The loop over the children, collecting the events each returns with its index. */
  method VisitChildren<S>(a: Arena<S>, st: S, cs: seq<Node>, mouse: Option<Point>, parent: Matrix, newDown: bool, oldDown: bool)
    returns (state: S, nodes: seq<Node>, eventsForSelf: seq<Tagged>, log: seq<Delivery>)
    requires forall k | 0 <= k < |cs| :: WellFormed(a, cs[k])
    ensures Kids(state, nodes, eventsForSelf, log) == ChildrenUpdate(a, st, cs, mouse, parent, newDown, oldDown, |cs|)
    decreases cs, 0
  {
    state, nodes, eventsForSelf, log := st, cs, [], [];
    for num := 0 to |cs|
      invariant ChildrenUpdate(a, st, cs, mouse, parent, newDown, oldDown, num) == Kids(state, nodes, eventsForSelf, log)
    {
      var childState, child, evs, childLog := DeliverMouse(a, state, cs[num], mouse, parent, newDown, oldDown);
      ghost var prev := ChildrenUpdate(a, st, cs, mouse, parent, newDown, oldDown, num);
      assert ChildrenUpdate(a, st, cs, mouse, parent, newDown, oldDown, num + 1)
          == Kids(childState, prev.nodes[num := child], prev.tagged + Tag(evs, num), prev.log + childLog);
      state := childState;
      nodes := nodes[num := child];
      eventsForSelf := eventsForSelf + Tag(evs, num);
      log := log + childLog;
    }
  }

  /** The loop delivering each collected event to the node with its child's index. */
  method ForwardEvents<S>(a: Arena<S>, st: S, n: Node, eventsForSelf: seq<Tagged>)
    returns (state: S, node: Node, result: seq<Event>, log: seq<Delivery>)
    requires n.widget < |a.widgets|
    ensures Update(state, node, result, log) == Forward(a, st, n, eventsForSelf, |eventsForSelf|)
  {
    state, node, result, log := st, n, [], [];
    for j := 0 to |eventsForSelf|
      invariant Forward(a, st, n, eventsForSelf, j) == Update(state, node, result, log)
    {
      var t := eventsForSelf[j];
      var sent := SendEvent(a, state, node, t.event, Some(t.child));
      state, node := sent.state, sent.node;
      result := result + sent.forParent;
      log := log + [Delivery(n.widget, t.event, Some(t.child))];
    }
  }

  /** The search for a shape of the node under the cursor, stopping at the first. */
  method FindHit(n: Node, mouse: Option<Point>, parent: Matrix) returns (hit: bool)
    ensures hit == Hit(n, mouse, parent)
  {
    hit := false;
    if mouse.Some? {
      var k := 0;
      while k < |n.shapes| && !hit
        invariant 0 <= k <= |n.shapes|
        invariant hit <==> exists j | 0 <= j < k :: ShapeHit(n.shapes[j], n.matrix, parent, mouse.value)
      {
        hit := ShapeHit(n.shapes[k], n.matrix, parent, mouse.value);
        k := k + 1;
      }
    }
  }

  /** The node's own `send_event` calls, each pushing what it returns. */
  method SendOwnEvents<S>(a: Arena<S>, st: S, n: Node, hit: bool, newDown: bool, oldDown: bool)
    returns (state: S, node: Node, result: seq<Event>, log: seq<Delivery>)
    requires n.widget < |a.widgets|
    ensures Update(state, node, result, log) == OwnEvents(a, st, n, hit, newDown, oldDown)
  {
    var hover := if hit then MouseEnter else MouseLeave;
    var sent := SendEvent(a, st, n, hover, None);
    state, node, result := sent.state, sent.node, sent.forParent;
    log := [Delivery(n.widget, hover, None)];
    if hit && !newDown && oldDown {
      var click := SendEvent(a, state, node, MouseClick, None);
      state, node := click.state, click.node;
      result := result + click.forParent;
      log := log + [Delivery(n.widget, MouseClick, None)];
    }
  }

  /** The forwarding loop delivers the collected events in order, each with its child's index. */
  lemma {:induction false} ForwardDelivers<S>(a: Arena<S>, st: S, n: Node, tagged: seq<Tagged>, j: nat)
    requires n.widget < |a.widgets| && j <= |tagged|
    ensures var log := Forward(a, st, n, tagged, j).log;
      && |log| == j
      && forall k | 0 <= k < j :: log[k] == Delivery(n.widget, tagged[k].event, Some(tagged[k].child))
    decreases j
  {
    if j > 0 {
      ForwardDelivers(a, st, n, tagged, j - 1);
    }
  }

  /** Tags whose child indices are all below `bound` and never decrease along the list. */
  predicate TagsOrdered(t: seq<Tagged>, bound: nat) {
    && (forall k | 0 <= k < |t| :: t[k].child < bound)
    && forall k, l | 0 <= k < l < |t| :: t[k].child <= t[l].child
  }

  /** Appending the tags of the next child keeps the list ordered. */
  lemma TagsAppend(t: seq<Tagged>, evs: seq<Event>, c: nat)
    requires TagsOrdered(t, c)
    ensures TagsOrdered(t + Tag(evs, c), c + 1)
  {
    var added := Tag(evs, c);
    var u := t + added;
    forall k | 0 <= k < |u|
      ensures u[k].child <= c
    {
      if k < |t| {
        assert u[k] == t[k];
      } else {
        assert u[k] == added[k - |t|];
      }
    }
    forall k, l | 0 <= k < l < |u|
      ensures u[k].child <= u[l].child
    {
      if l < |t| {
        assert u[k] == t[k] && u[l] == t[l];
      } else if k < |t| {
        assert u[k] == t[k] && u[l] == added[l - |t|];
      } else {
        assert u[k] == added[k - |t|] && u[l] == added[l - |t|];
      }
    }
  }

  /**
    Events returned by the children are tagged with the child's index, in
    child order.
  */
  lemma {:induction false} TagsInChildOrder<S>(a: Arena<S>, st: S, cs: seq<Node>, mouse: Option<Point>, parent: Matrix, newDown: bool, oldDown: bool, i: nat)
    requires i <= |cs| && forall k | 0 <= k < |cs| :: WellFormed(a, cs[k])
    ensures TagsOrdered(ChildrenUpdate(a, st, cs, mouse, parent, newDown, oldDown, i).tagged, i)
    decreases i
  {
    if i > 0 {
      TagsInChildOrder(a, st, cs, mouse, parent, newDown, oldDown, i - 1);
      var prev := ChildrenUpdate(a, st, cs, mouse, parent, newDown, oldDown, i - 1);
      TagsAppend(prev.tagged, MouseUpdate(a, prev.state, cs[i - 1], mouse, parent, newDown, oldDown).forParent, i - 1);
    }
  }

  /**
    Dispatch never changes the shape of the tree and never clears a flag:
    every flag set before is still set after.
  */
  lemma {:induction false} DispatchRaisesFlags<S>(a: Arena<S>, st: S, n: Node, mouse: Option<Point>, parent: Matrix, newDown: bool, oldDown: bool)
    requires WellFormed(a, n)
    ensures FlagsImply(n, MouseUpdate(a, st, n, mouse, parent, newDown, oldDown).node)
    decreases n, 2
  {
    var kids := ChildrenUpdate(a, st, n.children, mouse, Mul(parent, n.matrix), newDown, oldDown, |n.children|);
    ChildrenRaiseFlags(a, st, n.children, mouse, Mul(parent, n.matrix), newDown, oldDown, |n.children|);
    ForwardRaisesFlag(a, kids.state, n.(children := kids.nodes), kids.tagged, |kids.tagged|);
  }

  lemma {:induction false} ChildrenRaiseFlags<S>(a: Arena<S>, st: S, cs: seq<Node>, mouse: Option<Point>, parent: Matrix, newDown: bool, oldDown: bool, i: nat)
    requires i <= |cs| && forall k | 0 <= k < |cs| :: WellFormed(a, cs[k])
    ensures var r := ChildrenUpdate(a, st, cs, mouse, parent, newDown, oldDown, i).nodes;
      forall k | 0 <= k < |cs| :: FlagsImply(cs[k], r[k])
    decreases cs, i, 1
  {
    if i == 0 {
      FlagsImplyAll(cs);
    } else {
      ChildrenRaiseFlags(a, st, cs, mouse, parent, newDown, oldDown, i - 1);
      ChildRaisesFlags(a, st, cs, mouse, parent, newDown, oldDown, i);
    }
  }

  lemma {:induction false} ChildRaisesFlags<S>(a: Arena<S>, st: S, cs: seq<Node>, mouse: Option<Point>, parent: Matrix, newDown: bool, oldDown: bool, i: nat)
    requires 0 < i <= |cs| && forall k | 0 <= k < |cs| :: WellFormed(a, cs[k])
    requires var r := ChildrenUpdate(a, st, cs, mouse, parent, newDown, oldDown, i - 1).nodes;
      forall k | 0 <= k < |cs| :: FlagsImply(cs[k], r[k])
    ensures var r := ChildrenUpdate(a, st, cs, mouse, parent, newDown, oldDown, i).nodes;
      forall k | 0 <= k < |cs| :: FlagsImply(cs[k], r[k])
    decreases cs, i, 0
  {
    var prev := ChildrenUpdate(a, st, cs, mouse, parent, newDown, oldDown, i - 1);
    DispatchRaisesFlags(a, prev.state, cs[i - 1], mouse, parent, newDown, oldDown);
    ReplaceRaised(cs, prev.nodes, MouseUpdate(a, prev.state, cs[i - 1], mouse, parent, newDown, oldDown).node, i - 1);
  }

  lemma ReplaceRaised(cs: seq<Node>, ns: seq<Node>, x: Node, i: nat)
    requires i < |cs| == |ns| && forall k | 0 <= k < |cs| :: FlagsImply(cs[k], ns[k])
    requires FlagsImply(cs[i], x)
    ensures forall k | 0 <= k < |cs| :: FlagsImply(cs[k], ns[i := x][k])
  {
  }

  lemma {:induction false} ForwardRaisesFlag<S>(a: Arena<S>, st: S, n: Node, tagged: seq<Tagged>, j: nat)
    requires n.widget < |a.widgets| && j <= |tagged|
    ensures n.needsRebuild ==> Forward(a, st, n, tagged, j).node.needsRebuild
    decreases j
  {
    if j > 0 {
      ForwardRaisesFlag(a, st, n, tagged, j - 1);
    }
  }

  /** A delivery of MouseEnter or MouseLeave that is not a forwarded event. */
  predicate IsHover(d: Delivery) {
    d.child.None? && (d.event == MouseEnter || d.event == MouseLeave)
  }

  function HoverCount(log: seq<Delivery>): nat {
    if log == [] then 0 else HoverCount(log[..|log| - 1]) + if IsHover(log[|log| - 1]) then 1 else 0
  }

  lemma {:induction false} HoverCountConcat(xs: seq<Delivery>, ys: seq<Delivery>)
    ensures HoverCount(xs + ys) == HoverCount(xs) + HoverCount(ys)
    decreases |ys|
  {
    if ys == [] {
      assert xs + ys == xs;
    } else {
      var last := |ys| - 1;
      var zs := xs + ys;
      assert zs[..|zs| - 1] == xs + ys[..last];
      assert zs[|zs| - 1] == ys[last];
      HoverCountConcat(xs, ys[..last]);
    }
  }

  lemma {:induction false} ForwardHasNoHover<S>(a: Arena<S>, st: S, n: Node, tagged: seq<Tagged>, j: nat)
    requires n.widget < |a.widgets| && j <= |tagged|
    ensures HoverCount(Forward(a, st, n, tagged, j).log) == 0
    decreases j
  {
    if j > 0 {
      ForwardHasNoHover(a, st, n, tagged, j - 1);
      var prev := Forward(a, st, n, tagged, j - 1);
      var d := Delivery(n.widget, tagged[j - 1].event, Some(tagged[j - 1].child));
      assert (prev.log + [d])[..|prev.log|] == prev.log;
    }
  }

  lemma OwnEventsHoverOnce<S>(a: Arena<S>, st: S, n: Node, hit: bool, newDown: bool, oldDown: bool)
    requires n.widget < |a.widgets|
    ensures HoverCount(OwnEvents(a, st, n, hit, newDown, oldDown).log) == 1
  {
    var d := Delivery(n.widget, if hit then MouseEnter else MouseLeave, None);
    assert [d][..0] == [];
    assert HoverCount([d]) == 1;
    if hit && !newDown && oldDown {
      var log := [d, Delivery(n.widget, MouseClick, None)];
      assert OwnEvents(a, st, n, hit, newDown, oldDown).log == log;
      assert log[..|log| - 1] == [d] && !IsHover(log[|log| - 1]);
    } else {
      assert OwnEvents(a, st, n, hit, newDown, oldDown).log == [d];
    }
  }

  /** Every node of the tree receives exactly one MouseEnter or MouseLeave per sample. */
  lemma {:induction false} OneHoverPerNode<S>(a: Arena<S>, st: S, n: Node, mouse: Option<Point>, parent: Matrix, newDown: bool, oldDown: bool)
    requires WellFormed(a, n)
    ensures HoverCount(MouseUpdate(a, st, n, mouse, parent, newDown, oldDown).log) == NodeCount(n)
    decreases n, 2
  {
    var kids := ChildrenUpdate(a, st, n.children, mouse, Mul(parent, n.matrix), newDown, oldDown, |n.children|);
    ChildrenHovers(a, st, n.children, mouse, Mul(parent, n.matrix), newDown, oldDown, |n.children|);
    assert n.children[..|n.children|] == n.children;
    var fwd := Forward(a, kids.state, n.(children := kids.nodes), kids.tagged, |kids.tagged|);
    ForwardHasNoHover(a, kids.state, n.(children := kids.nodes), kids.tagged, |kids.tagged|);
    var own := OwnEvents(a, fwd.state, fwd.node, Hit(n, mouse, parent), newDown, oldDown);
    OwnEventsHoverOnce(a, fwd.state, fwd.node, Hit(n, mouse, parent), newDown, oldDown);
    HoverCountConcat(kids.log, fwd.log);
    HoverCountConcat(kids.log + fwd.log, own.log);
  }

  lemma {:induction false} ChildrenHovers<S>(a: Arena<S>, st: S, cs: seq<Node>, mouse: Option<Point>, parent: Matrix, newDown: bool, oldDown: bool, i: nat)
    requires i <= |cs| && forall k | 0 <= k < |cs| :: WellFormed(a, cs[k])
    ensures HoverCount(ChildrenUpdate(a, st, cs, mouse, parent, newDown, oldDown, i).log) == ChildrenCount(cs[..i])
    decreases cs, i, 1
  {
    if i > 0 {
      ChildrenHovers(a, st, cs, mouse, parent, newDown, oldDown, i - 1);
      ChildHovers(a, st, cs, mouse, parent, newDown, oldDown, i);
    }
  }

  lemma {:induction false} ChildHovers<S>(a: Arena<S>, st: S, cs: seq<Node>, mouse: Option<Point>, parent: Matrix, newDown: bool, oldDown: bool, i: nat)
    requires 0 < i <= |cs| && forall k | 0 <= k < |cs| :: WellFormed(a, cs[k])
    requires HoverCount(ChildrenUpdate(a, st, cs, mouse, parent, newDown, oldDown, i - 1).log) == ChildrenCount(cs[..i - 1])
    ensures HoverCount(ChildrenUpdate(a, st, cs, mouse, parent, newDown, oldDown, i).log) == ChildrenCount(cs[..i])
    decreases cs, i, 0
  {
    var prev := ChildrenUpdate(a, st, cs, mouse, parent, newDown, oldDown, i - 1);
    OneHoverPerNode(a, prev.state, cs[i - 1], mouse, parent, newDown, oldDown);
    HoverCountConcat(prev.log, MouseUpdate(a, prev.state, cs[i - 1], mouse, parent, newDown, oldDown).log);
    ChildrenCountStep(cs, i);
  }

  lemma ChildrenCountStep(cs: seq<Node>, i: nat)
    requires 0 < i <= |cs|
    ensures ChildrenCount(cs[..i]) == ChildrenCount(cs[..i - 1]) + NodeCount(cs[i - 1])
  {
    assert cs[..i][..i - 1] == cs[..i - 1];
  }

  /** Every event in `log` that the engine sent on its own (not forwarded from a child) is MouseLeave. */
  predicate OnlyLeaves(log: seq<Delivery>) {
    forall k | 0 <= k < |log| && log[k].child.None? :: log[k].event == MouseLeave
  }

  lemma OnlyLeavesConcat(xs: seq<Delivery>, ys: seq<Delivery>)
    requires OnlyLeaves(xs) && OnlyLeaves(ys)
    ensures OnlyLeaves(xs + ys)
  {
    forall k | 0 <= k < |xs + ys| && (xs + ys)[k].child.None?
      ensures (xs + ys)[k].event == MouseLeave
    {
      if k >= |xs| {
        assert (xs + ys)[k] == ys[k - |xs|];
      }
    }
  }

  /** Without a cursor, every event a widget gets from the engine itself is MouseLeave. */
  lemma {:induction false} NoCursorOnlyLeaves<S>(a: Arena<S>, st: S, n: Node, parent: Matrix, newDown: bool, oldDown: bool)
    requires WellFormed(a, n)
    ensures OnlyLeaves(MouseUpdate(a, st, n, None, parent, newDown, oldDown).log)
    decreases n, 1
  {
    var kids := ChildrenUpdate(a, st, n.children, None, Mul(parent, n.matrix), newDown, oldDown, |n.children|);
    ChildrenOnlyLeave(a, st, n.children, Mul(parent, n.matrix), newDown, oldDown, |n.children|);
    var fwd := Forward(a, kids.state, n.(children := kids.nodes), kids.tagged, |kids.tagged|);
    ForwardDelivers(a, kids.state, n.(children := kids.nodes), kids.tagged, |kids.tagged|);
    var own := OwnEvents(a, fwd.state, fwd.node, Hit(n, None, parent), newDown, oldDown);
    assert own.log == [Delivery(n.widget, MouseLeave, None)];
    OnlyLeavesConcat(kids.log, fwd.log);
    OnlyLeavesConcat(kids.log + fwd.log, own.log);
  }

  lemma {:induction false} ChildrenOnlyLeave<S>(a: Arena<S>, st: S, cs: seq<Node>, parent: Matrix, newDown: bool, oldDown: bool, i: nat)
    requires i <= |cs| && forall k | 0 <= k < |cs| :: WellFormed(a, cs[k])
    ensures OnlyLeaves(ChildrenUpdate(a, st, cs, None, parent, newDown, oldDown, i).log)
    decreases cs, i
  {
    if i > 0 {
      var prev := ChildrenUpdate(a, st, cs, None, parent, newDown, oldDown, i - 1);
      ChildrenOnlyLeave(a, st, cs, parent, newDown, oldDown, i - 1);
      NoCursorOnlyLeaves(a, prev.state, cs[i - 1], parent, newDown, oldDown);
      OnlyLeavesConcat(prev.log, MouseUpdate(a, prev.state, cs[i - 1], None, parent, newDown, oldDown).log);
    }
  }

  /**
    The node's own deliveries close its log: MouseEnter when the cursor is
    on one of its shapes and MouseLeave otherwise, followed by MouseClick
    exactly when it is hit, `newDown` is false and `oldDown` is true.
  */
  lemma OwnEventsLast<S>(a: Arena<S>, st: S, n: Node, mouse: Option<Point>, parent: Matrix, newDown: bool, oldDown: bool)
    requires WellFormed(a, n)
    ensures var log := MouseUpdate(a, st, n, mouse, parent, newDown, oldDown).log;
      var hit := Hit(n, mouse, parent);
      var hover := Delivery(n.widget, if hit then MouseEnter else MouseLeave, None);
      && |log| >= 1
      && (log[|log| - 1].event == MouseClick <==> hit && !newDown && oldDown)
      && (hit && !newDown && oldDown ==> |log| >= 2 && log[|log| - 2] == hover && log[|log| - 1] == Delivery(n.widget, MouseClick, None))
      && (!(hit && !newDown && oldDown) ==> log[|log| - 1] == hover)
  {
  }
}
