/**
  The widget contract and the values it exchanges with the engine (src/lib.rs).

  A widget is modelled by the three functions of the `Widget` trait over an
  application state `S`: `build_layout` is pure, `needs_rebuild` polls the
  state, and `handle_event` returns its outcome together with the state the
  handler leaves behind (the Rust widget mutates itself through `&self`).
*/
module Widgets {
  import opened Matrices
  import opened Primitives

  datatype Option<T> = None | Some(value: T)

  /** Rust's `i8`. */
  newtype Int8 = x: int | -128 <= x < 128

  /** Widgets are addressed by their index in the application's widget arena. */
  type WidgetId = nat

  /**
    The events a widget can receive: the three predefined mouse events, and
    any other event some widget produced, identified by a number.
  */
  datatype Event = MouseEnter | MouseLeave | MouseClick | Custom(id: nat)

  /**
    What `handle_event` tells the engine. `eventsForParent` is read by the
    engine (src/ui.rs:417) but missing from the struct in src/lib.rs; it is
    the list of extra events to forward to the parent, before the event itself.
  */
  datatype EventOutcome = EventOutcome(refreshLayout: bool, propagateToParent: bool, eventsForParent: seq<Event>)

  /** `EventOutcome::default()`. */
  function DefaultOutcome(): (o: EventOutcome)
    ensures !o.refreshLayout && o.propagateToParent && o.eventsForParent == []
  {
    EventOutcome(false, true, [])
  }

  datatype HorizontalAlignment = Center | Left | Right

  datatype VerticalAlignment = Center | Top | Bottom

  datatype Alignment = Alignment(horizontal: HorizontalAlignment, vertical: VerticalAlignment)

  /** `Default` for `HorizontalAlignment`. */
  function DefaultHorizontal(): (h: HorizontalAlignment)
    ensures h == HorizontalAlignment.Center
  {
    HorizontalAlignment.Center
  }

  /** `Default` for `VerticalAlignment`. */
  function DefaultVertical(): (v: VerticalAlignment)
    ensures v == VerticalAlignment.Center
  {
    VerticalAlignment.Center
  }

  /** The derived `Default` for `Alignment`: both components take their defaults. */
  function DefaultAlignment(): (a: Alignment)
    ensures a == Alignment(HorizontalAlignment.Center, VerticalAlignment.Center)
  {
    Alignment(DefaultHorizontal(), DefaultVertical())
  }

  /** One entry of `AbsolutePositionned`: a matrix relative to the parent, and a widget. */
  datatype Placement = Placement(matrix: Matrix, widget: WidgetId)

  /** A child of a bar, with its weight, alignment hint, collapse flag and paddings. */
  datatype Child = Child(
    child: WidgetId,
    weight: Int8,
    alignment: Alignment,
    collapse: bool,
    paddingTop: real,
    paddingRight: real,
    paddingBottom: real,
    paddingLeft: real)

  datatype Layout =
    | AbsolutePositionned(list: seq<Placement>)
    | HorizontalBar(horizontal: HorizontalAlignment, children: seq<Child>)
    | VerticalBar(vertical: VerticalAlignment, children: seq<Child>)
    | Shapes(shapes: seq<Shape>)

  /** An implementation of the `Widget` trait. */
  datatype WidgetImpl<!S> = WidgetImpl(
    buildLayout: (S, real, Alignment) -> Layout,
    needsRebuild: S -> bool,
    handleEvent: (S, Event, Option<nat>) -> (S, EventOutcome))

  /**
    A widget that implements only `build_layout` and keeps the trait's default
    `needs_rebuild` and `handle_event`.
  */
  function WithDefaults<S(!new)>(buildLayout: (S, real, Alignment) -> Layout): (w: WidgetImpl<S>)
    ensures w.buildLayout == buildLayout
    ensures forall s :: !w.needsRebuild(s)
    ensures forall s, e, c :: w.handleEvent(s, e, c) == (s, DefaultOutcome())
  {
    WidgetImpl(buildLayout, s => false, (s, e, c) => (s, DefaultOutcome()))
  }

  /**
    `impl Widget for Mutex<T>`: every method takes the lock and forwards to
    the inner widget. Locking itself is not modelled.
  */
  function Locked<S(!new)>(inner: WidgetImpl<S>): (w: WidgetImpl<S>)
    ensures forall s, r, a :: w.buildLayout(s, r, a) == inner.buildLayout(s, r, a)
    ensures forall s :: w.needsRebuild(s) == inner.needsRebuild(s)
    ensures forall s, e, c :: w.handleEvent(s, e, c) == inner.handleEvent(s, e, c)
  {
    WidgetImpl((s, r, a) => inner.buildLayout(s, r, a),
               s => inner.needsRebuild(s),
               (s, e, c) => inner.handleEvent(s, e, c))
  }
}
