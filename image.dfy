/**
  The predefined `Image` widget (src/predefined/image.rs): one image shape
  fitted inside the widget's box so that the image keeps its own height per
  width ratio, placed according to the alignment hint.
*/
module ImageWidget {
  import opened Matrices
  import opened Primitives
  import opened Widgets
  import opened Nodes
  import opened Layouts
  import opened Drawing

  /** The factor by which the image shrinks along the one axis it does not fill. */
  function FitScale(k: real, r: real): (s: real)
    requires if r > k then r != 0.0 else k != 0.0
    ensures r > k ==> s * r == k
    ensures r <= k ==> s * k == r
  {
    if r > k then QuotientTimesDivisor(k, r); k / r
    else QuotientTimesDivisor(r, k); r / k
  }

  /**
    The fitting matrix for an image of ratio `k` in a widget of ratio `r`.
    A box that is relatively taller than the image (r > k) keeps the full
    width and shrinks the height by k / r; otherwise the full height is kept
    and the width shrinks by r / k. The divisor of the branch taken must not
    be zero.
  */
  function FitMatrix(k: real, r: real, al: Alignment): (m: Matrix)
    requires if r > k then r != 0.0 else k != 0.0
    ensures Affine(m) && m.m01 == 0.0 && m.m10 == 0.0
  {
    if r > k then
      var y := match al.vertical
        case Center => 0.0
        case Top => 1.0 - k / r
        case Bottom => -1.0 + k / r;
      TranslateScaleForm(0.0, y, 1.0, k / r);
      Mul(Translate(0.0, y), ScaleWH(1.0, k / r))
    else
      var x := match al.horizontal
        case Center => 0.0
        case Left => -1.0 + r / k
        case Right => 1.0 - r / k;
      TranslateScaleForm(x, 0.0, r / k, 1.0);
      Mul(Translate(x, 0.0), ScaleWH(r / k, 1.0))
  }

  /**
    A box taller than the image: full width, height scaled to k / r, centred
    horizontally, and flush with the top or bottom edge as aligned.
  */
  lemma FitTallBox(k: real, r: real, al: Alignment)
    requires r > k && r != 0.0
    ensures FitMatrix(k, r, al).m11 * r == k
    ensures var m := FitMatrix(k, r, al);
      && m.m00 == 1.0 && m.m20 == 0.0 && m.m11 == FitScale(k, r)
      && match al.vertical
        case Center => m.m21 == 0.0
        case Top => m.m21 + m.m11 == 1.0
        case Bottom => m.m21 - m.m11 == -1.0
  {
    var y := match al.vertical
      case Center => 0.0
      case Top => 1.0 - k / r
      case Bottom => -1.0 + k / r;
    TranslateScaleForm(0.0, y, 1.0, k / r);
    QuotientTimesDivisor(k, r);
  }

  /**
    A box no taller than the image: full height, width scaled to r / k,
    centred vertically, and flush with the left or right edge as aligned.
  */
  lemma FitWideBox(k: real, r: real, al: Alignment)
    requires r <= k && k != 0.0
    ensures FitMatrix(k, r, al).m00 * k == r
    ensures var m := FitMatrix(k, r, al);
      && m.m11 == 1.0 && m.m21 == 0.0 && m.m00 == FitScale(k, r)
      && match al.horizontal
        case Center => m.m20 == 0.0
        case Left => m.m20 - m.m00 == -1.0
        case Right => m.m20 + m.m00 == 1.0
  {
    var x := match al.horizontal
      case Center => 0.0
      case Left => -1.0 + r / k
      case Right => 1.0 - r / k;
    TranslateScaleForm(x, 0.0, r / k, 1.0);
    QuotientTimesDivisor(r, k);
  }

  lemma QuotientTimesDivisor(a: real, b: real)
    requires b != 0.0
    ensures (a / b) * b == a
  {
  }

  /**
    For positive ratios the image is drawn with exactly its own ratio: the
    widget's ratio times the height scale over the width scale gives `k`.
  */
  lemma RatioEnforced(k: real, r: real, al: Alignment)
    requires k > 0.0 && r > 0.0
    ensures FitMatrix(k, r, al).m00 > 0.0 && r * FitMatrix(k, r, al).m11 / FitMatrix(k, r, al).m00 == k
  {
    if r > k {
      FitTallBox(k, r, al);
      RatioOfScales(k, r, FitMatrix(k, r, al).m00, FitMatrix(k, r, al).m11);
    } else {
      RatioEnforcedWide(k, r, al);
    }
  }

  lemma RatioEnforcedWide(k: real, r: real, al: Alignment)
    requires k > 0.0 && 0.0 < r <= k
    ensures FitMatrix(k, r, al).m00 > 0.0 && r * FitMatrix(k, r, al).m11 / FitMatrix(k, r, al).m00 == k
  {
    FitWideBox(k, r, al);
    WideRatio(k, r, FitMatrix(k, r, al).m00, FitMatrix(k, r, al).m11);
  }

  lemma WideRatio(k: real, r: real, sx: real, sy: real)
    requires k > 0.0 && 0.0 < r <= k
    requires sy == 1.0 && sx * k == r
    ensures sx > 0.0 && r * sy / sx == k
  {
    assert sx == r / k;
    ShrinkFactor(r, k);
    RatioOfScales(k, r, sx, sy);
  }

  lemma RatioOfScales(k: real, r: real, sx: real, sy: real)
    requires (sx == 1.0 && sy * r == k) || (sy == 1.0 && sx > 0.0 && sx * k == r)
    ensures sx > 0.0 && r * sy / sx == k
  {
    if sy == 1.0 && sx != 1.0 {
      QuotientOfProduct(r, sx, k);
    }
  }

  /** `a / b` is a proper shrink factor when `0 < a <= b`. */
  lemma ShrinkFactor(a: real, b: real)
    requires 0.0 < a <= b
    ensures 0.0 < a / b <= 1.0
    ensures a < b ==> a / b < 1.0
  {
  }

  lemma QuotientOfProduct(r: real, s: real, k: real)
    requires s != 0.0 && s * k == r
    ensures r / s == k
  {
  }

  /**
    For positive ratios the image shrinks on one axis only, and its box
    `[m20 - m00, m20 + m00] x [m21 - m11, m21 + m11]` stays inside the
    widget's `[-1, 1]` square whatever the alignment.
  */
  lemma FitsInside(k: real, r: real, al: Alignment)
    requires k > 0.0 && r > 0.0
    ensures var m := FitMatrix(k, r, al);
      && 0.0 < m.m00 <= 1.0 && 0.0 < m.m11 <= 1.0
      && -1.0 <= m.m20 - m.m00 && m.m20 + m.m00 <= 1.0
      && -1.0 <= m.m21 - m.m11 && m.m21 + m.m11 <= 1.0
  {
    if r > k {
      FitTallBox(k, r, al);
      ShrinkFactor(k, r);
    } else {
      FitWideBox(k, r, al);
      ShrinkFactor(r, k);
    }
  }

  /**
    The widget the engine sees for an image named `name` of ratio `k`: the
    fitted image as its layout, and the trait's defaults for the rest. A
    positive `k` makes every divisor of `FitMatrix` non-zero.
  */
  function ImageImpl<S(!new)>(name: string, k: real): (w: WidgetImpl<S>)
    requires k > 0.0
    ensures forall s, r, al :: var l := w.buildLayout(s, r, al);
      && l.Shapes? && |l.shapes| == 1
      && l.shapes[0] == Shape.Image(FitMatrix(k, r, al), name)
    ensures forall s :: !w.needsRebuild(s)
    ensures forall s, e, c :: w.handleEvent(s, e, c) == (s, DefaultOutcome())
  {
    WithDefaults((s: S, r: real, al: Alignment) => Shapes([Shape.Image(FitMatrix(k, r, al), name)]))
  }

  /** The engine's image widget lays itself out exactly as the object's `build_layout` does. */
  lemma ImageImplIsBuildLayout<S(!new)>(img: Image, s: S, r: real, al: Alignment)
    requires img.heightPerWidth > 0.0
    ensures ImageImpl<S>(img.name, img.heightPerWidth).buildLayout(s, r, al) == img.BuildLayout(r, al)
  {
  }

  /**
    An image widget resolves to a leaf holding one image at the fitting
    matrix for the ratio its matrix gives it, and that leaf draws the image
    at its matrix times the fitting matrix.
  */
  lemma ResolveImage<S(!new)>(a: Arena<S>, s: S, id: WidgetId, m: Matrix, viewport: real, al: Alignment, name: string, k: real)
    requires k > 0.0 && id < |a.widgets| && a.widgets[id] == ImageImpl(name, k) && m.m00 != 0.0
    ensures var img := Shape.Image(FitMatrix(k, RatioOf(viewport, m), al), name);
      Resolve(a, s, id, m, viewport, al) == Ok(Node(m, id, [], [img], false, LeafMargins(a.boundingBox, [img])))
    ensures Resolve(a, s, id, m, viewport, al).Ok?
    ensures Flatten(Resolve(a, s, id, m, viewport, al).value) == [Shape.Image(Mul(m, FitMatrix(k, RatioOf(viewport, m), al)), name)]
  {
    var img := Shape.Image(FitMatrix(k, RatioOf(viewport, m), al), name);
    var n := Node(m, id, [], [img], false, LeafMargins(a.boundingBox, [img]));
    assert a.widgets[id].buildLayout(s, RatioOf(viewport, m), al) == Shapes([img]);
    assert Resolve(a, s, id, m, viewport, al) == Ok(n);
    assert ChildrenShapes(n.children, 0) + n.shapes == [img];
  }

  /** The widget's state: an image name, the image's ratio, and an unused cached matrix. */
  class Image {
    var name: string
    var heightPerWidth: real
    var matrix: Option<Matrix>

    /** `Image::new`. */
    constructor (name: string, heightPerWidth: real)
      ensures this.name == name && this.heightPerWidth == heightPerWidth && matrix == None
    {
      this.name := name;
      this.heightPerWidth := heightPerWidth;
      matrix := None;
    }

    /** `Image::set_name`: only the name changes. */
    method SetName(name: string)
      modifies this`name
      ensures this.name == name
    {
      this.name := name;
    }

    /** `build_layout`: a single image shape named after the widget, fitted by `FitMatrix`. */
    function BuildLayout(ratio: real, al: Alignment): (l: Layout)
      reads this
      requires if ratio > heightPerWidth then ratio != 0.0 else heightPerWidth != 0.0
      ensures l.Shapes? && |l.shapes| == 1
      ensures l.shapes[0].Image? && l.shapes[0].name == name
      ensures l.shapes[0].matrix == FitMatrix(heightPerWidth, ratio, al)
    {
      Shapes([Shape.Image(FitMatrix(heightPerWidth, ratio, al), name)])
    }
  }
}
