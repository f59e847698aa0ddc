/**
  The engine object `Ui` (src/ui.rs:20-135): it owns the application's main
  widget, the viewport's height per width ratio, the node tree built from the
  widget, and the cursor's last button state. Its methods rebuild the tree,
  draw it, change the viewport and feed it mouse samples.

  The widget and its state are the arena `arena`, the root widget `root` and
  the application state `state`; the tree is a `Result`, since resolving a
  widget can fail in the model: where the widgets are not numbered children
  before parents, where an `i8` weight sum overflows, and where the Rust
  code would compute with infinities or NaN.
*/
module Engine {
  import opened Matrices
  import opened Primitives
  import opened Widgets
  import opened Nodes
  import opened Layouts
  import opened DirtyTracking
  import opened Drawing
  import opened Dispatch

  /** The alignment the root widget is always laid out with. */
  const Centered := Alignment(HorizontalAlignment.Center, VerticalAlignment.Center)

  /** `Node::new` on the main widget, at the identity matrix and centred. */
  function RootNode<S>(a: Arena<S>, st: S, root: WidgetId, viewport: real): (r: Result<Node>)
    ensures r.Ok? ==> r.value.matrix == Identity() && r.value.widget == root && !r.value.needsRebuild
    ensures r.Ok? ==> WellFormed(a, r.value)
  {
    Resolve(a, st, root, Identity(), viewport, Centered)
  }

  /**
    The tree `draw` leaves behind: a fresh tree when the scan reports a
    rebuild, the tree as it was otherwise. A tree that failed to resolve is
    resolved again.
  */
  function Redrawn<S>(a: Arena<S>, st: S, root: WidgetId, viewport: real, main: Result<Node>): (r: Result<Node>)
    requires main.Ok? ==> WellFormed(a, main.value)
    ensures r == main || r == RootNode(a, st, root, viewport)
    ensures main.Err? ==> r == RootNode(a, st, root, viewport)
    ensures r.Ok? ==> WellFormed(a, r.value)
  {
    match main
    case Err(_) => RootNode(a, st, root, viewport)
    case Ok(n) => if NeedsRebuild(a, st, n).found then RootNode(a, st, root, viewport) else main
  }

  /**
    The shapes `draw` returns for a tree, the root's own shapes last so that
    they are drawn on top (`DrawnPlacesShapes` places the rest), or the error
    the tree failed with.
  */
  function Drawn(main: Result<Node>): (r: Result<seq<Shape>>)
    ensures r.Ok? <==> main.Ok?
    ensures main.Err? ==> r == Err(main.error)
    ensures main.Ok? ==> var own := main.value.shapes;
      |r.value| >= |own| && r.value[|r.value| - |own|..] == ApplyAll(own, main.value.matrix)
  {
    match main
    case Ok(n) => Ok(Flatten(n))
    case Err(e) => Err(e)
  }

  class Ui<S> {
    const arena: Arena<S>
    const root: WidgetId
    /** The main widget's state; event handlers update it. */
    var state: S
    var viewport: real
    var mainNode: Result<Node>
    var hovering: bool
    var mouseDown: bool

    /**
      The tree refers only to widgets of the arena, and `hovering` keeps the
      value it starts with, since no method of the engine writes it.
    */
    ghost predicate Valid()
      reads this
    {
      && (mainNode.Ok? ==> WellFormed(arena, mainNode.value))
      && !hovering
    }

    /** `Ui::new`: the tree of the main widget at the identity matrix, centred. */
    constructor(arena: Arena<S>, root: WidgetId, st: S, viewport: real)
      ensures this.arena == arena && this.root == root && state == st && this.viewport == viewport
      ensures mainNode == RootNode(arena, st, root, viewport)
      ensures !hovering && !mouseDown
      ensures Valid()
    {
      this.arena := arena;
      this.root := root;
      state := st;
      this.viewport := viewport;
      mainNode := RootNode(arena, st, root, viewport);
      hovering := false;
      mouseDown := false;
    }

    /** `Ui::rebuild`: the tree is built again from the current state and viewport. */
    method Rebuild()
      requires Valid()
      modifies this`mainNode
      ensures mainNode == RootNode(arena, state, root, viewport)
      ensures Valid()
    {
      mainNode := RootNode(arena, state, root, viewport);
    }

    /**
      `Ui::draw`: rebuild the tree when the scan asks for it, then flatten
      it into the list of shapes, bottom to top.
    */
    method Draw() returns (shapes: Result<seq<Shape>>)
      requires Valid()
      modifies this`mainNode
      ensures mainNode == Redrawn(arena, state, root, viewport, old(mainNode))
      ensures shapes == Drawn(mainNode)
      ensures Valid()
    {
      match mainNode {
        case Err(_) =>
          Rebuild();
        case Ok(n) =>
          var found, after := ScanTree(arena, state, n);
          if found {
            Rebuild();
          }
      }
      match mainNode {
        case Ok(n) =>
          var flat := BuildShapes(n);
          shapes := Ok(flat);
        case Err(e) =>
          shapes := Err(e);
      }
    }

    /** `Ui::set_viewport_height_per_width`: a new ratio is stored and rebuilds the tree; the same ratio does nothing. */
    method SetViewportHeightPerWidth(value: real)
      requires Valid()
      modifies this`viewport, this`mainNode
      ensures viewport == value
      ensures mainNode == if old(viewport) != value then RootNode(arena, state, root, value) else old(mainNode)
      ensures Valid()
    {
      if viewport != value {
        viewport := value;
        Rebuild();
      }
    }

    /**
      `Ui::set_cursor`: the button state is swapped for `down`, and the tree
      receives the sample at the identity matrix with the previous button
      state in the place of `new_mouse_down` and `down` in the place of
      `old_mouse_down`, the order of the source's arguments.
    */
    method SetCursor(cursor: Option<Point>, down: bool)
      requires Valid()
      modifies this`state, this`mainNode, this`mouseDown
      ensures mouseDown == down
      ensures old(mainNode).Ok? ==>
        var u := MouseUpdate(arena, old(state), old(mainNode).value, cursor, Identity(), old(mouseDown), down);
        state == u.state && mainNode == Ok(u.node)
      ensures old(mainNode).Err? ==> state == old(state) && mainNode == old(mainNode)
      ensures Valid()
    {
      var previous := mouseDown;
      mouseDown := down;
      if mainNode.Ok? {
        var n := mainNode.value;
        var st, after, forParent, log := DeliverMouse(arena, state, n, cursor, Identity(), previous, down);
        DispatchRaisesFlags(arena, state, n, cursor, Identity(), previous, down);
        FlagsImplySameShape(n, after);
        SameShapeWellFormed(arena, n, after);
        state := st;
        mainNode := Ok(after);
      }
    }

    /** `Ui::is_hovering`: the flag is never raised, so the answer is always false. */
    function IsHovering(): (h: bool)
      reads this
      requires Valid()
      ensures !h
    {
      hovering
    }

    /** `Ui::widget`: the main widget's current state. */
    function Widget(): S
      reads this
    {
      state
    }
  }

  /** A fresh tree drawn at once is kept: a second resolution would build the same tree. */
  lemma RedrawFresh<S>(a: Arena<S>, st: S, root: WidgetId, viewport: real)
    ensures Redrawn(a, st, root, viewport, RootNode(a, st, root, viewport)) == RootNode(a, st, root, viewport)
  {
  }

  /** What `draw` returns places every shape by the product of the matrices from the root down to its node. */
  lemma DrawnPlacesShapes(n: Node)
    ensures Drawn(Ok(n)) == Ok(PlacedShapes(n, Identity()))
  {
    DrawPlacesEveryShape(n);
  }

  /** `draw` rebuilds exactly when some node of the tree is dirty, and keeps the tree otherwise. */
  lemma RedrawRebuildsWhenDirty<S>(a: Arena<S>, st: S, root: WidgetId, viewport: real, n: Node)
    requires WellFormed(a, n)
    ensures Redrawn(a, st, root, viewport, Ok(n)) ==
      if AnyDirty(a, st, n) then RootNode(a, st, root, viewport) else Ok(n)
  {
    ScanFindsDirty(a, st, n);
  }

  /** A clean tree survives `draw`, which returns its flattened shapes. */
  lemma RedrawKeepsCleanTree<S>(a: Arena<S>, st: S, root: WidgetId, viewport: real, n: Node)
    requires WellFormed(a, n) && !NeedsRebuild(a, st, n).found
    ensures Redrawn(a, st, root, viewport, Ok(n)) == Ok(n)
    ensures Drawn(Redrawn(a, st, root, viewport, Ok(n))) == Ok(Flatten(n))
  {
  }

  /**
    Because `set_cursor` passes the previous button state first, the root's
    last delivery is a MouseClick exactly when the cursor is on one of its
    shapes, the button was up and is now down: a click fires on the press.
  */
  lemma ClickOnPress<S>(a: Arena<S>, st: S, n: Node, cursor: Option<Point>, previous: bool, down: bool)
    requires WellFormed(a, n)
    ensures var log := MouseUpdate(a, st, n, cursor, Identity(), previous, down).log;
      |log| >= 1 && (log[|log| - 1].event == MouseClick <==> Hit(n, cursor, Identity()) && !previous && down)
  {
    OwnEventsLast(a, st, n, cursor, Identity(), previous, down);
  }

  /**
    A sample without a cursor gives every node a MouseLeave of its own and
    nothing else: there are as many own deliveries as nodes, and each is a
    MouseLeave, so no node is entered or clicked.
  */
  lemma NoCursorNeverClicks<S>(a: Arena<S>, st: S, n: Node, previous: bool, down: bool)
    requires WellFormed(a, n)
    ensures var log := MouseUpdate(a, st, n, None, Identity(), previous, down).log;
      && HoverCount(log) == NodeCount(n)
      && forall k | 0 <= k < |log| && log[k].child.None? :: log[k].event == MouseLeave
  {
    OneHoverPerNode(a, st, n, None, Identity(), previous, down);
    NoCursorOnlyLeaves(a, st, n, Identity(), previous, down);
  }
}
