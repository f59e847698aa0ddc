/**
  Drawable primitives and their hit test (src/shape.rs). A shape covers the
  square [-1, 1] x [-1, 1] of its own local space, mapped by its matrix.
*/
module Primitives {
  import opened Matrices

  datatype Shape =
    | Text(matrix: Matrix, text: string)
    | Image(matrix: Matrix, name: string)

  /**
    The box `(top, right, bottom, left)` a shape reports about itself in its
    own [-1, 1] local space (`get_bounding_box`).
  */
  datatype Bounds = Bounds(top: real, right: real, bottom: real, left: real)

  /** A cursor position `[f32; 2]` in viewport coordinates. */
  datatype Point = Point(x: real, y: real)

  /** `apply_matrix`: the same variant and payload, with `outer` applied after the shape's matrix. */
  function ApplyMatrix(s: Shape, outer: Matrix): (r: Shape)
    ensures r == s.(matrix := Mul(outer, s.matrix))
  {
    match s
    case Text(matrix, text) => Text(Mul(outer, matrix), text)
    case Image(matrix, name) => Image(Mul(outer, matrix), name)
  }

  /**
    The homogeneous divide `[v[0] / v[2], v[1] / v[2]]`. A zero `v[2]` has no
    real quotient; the model sends that corner to the origin.
  */
  function Project(v: Vec3): (r: Point)
    ensures v.z != 0.0 ==> r.x * v.z == v.x && r.y * v.z == v.y
    ensures v.z == 1.0 ==> r == Point(v.x, v.y)
    ensures v.z == 0.0 ==> r == Point(0.0, 0.0)
  {
    if v.z == 0.0 then Point(0.0, 0.0) else Point(v.x / v.z, v.y / v.z)
  }

  /**
    A corner `(cx, cy)` of the unit square, in viewport coordinates. For an
    affine matrix the homogeneous coordinate stays 1 and the divide changes
    nothing.
  */
  function Corner(m: Matrix, cx: real, cy: real): (r: Point)
    ensures Affine(m) ==> r == Point(m.m00 * cx + m.m10 * cy + m.m20, m.m01 * cx + m.m11 * cy + m.m21)
  {
    Project(MulVec(m, Vec3(cx, cy, 1.0)))
  }

  /**
    The dot product of `point - from` with `to - from`: zero at the edge's
    start, the squared length of the edge at its end.
  */
  function EdgeDot(p: Point, from: Point, to: Point): (r: real)
    ensures p == from ==> r == 0.0
    ensures p == to ==> r >= 0.0
  {
    (p.x - from.x) * (to.x - from.x) + (p.y - from.y) * (to.y - from.y)
  }

  /**
    The inner `test`: the point lies on the inward side of all four edges, in
    turn. For a matrix that scales by positive factors along the axes and
    translates, that is the closed box it maps the unit square to.
  */
  function Test(m: Matrix, p: Point): (hit: bool)
    ensures AxisBox(m) ==> (hit <==> InBox(p, m.m20, m.m21, m.m00, m.m11))
  {
    if AxisBox(m) then EdgesOfBox(m, p); AllEdgesPass(m, p)
    else AllEdgesPass(m, p)
  }

  /** The cascade of the four edge tests, in the source's order: true when no edge test fails. */
  function AllEdgesPass(m: Matrix, p: Point): bool {
    var topLeft := Corner(m, -1.0, 1.0);
    var topRight := Corner(m, 1.0, 1.0);
    var botLeft := Corner(m, -1.0, -1.0);
    var botRight := Corner(m, 1.0, -1.0);
    if EdgeDot(p, topLeft, topRight) < 0.0 then false
    else if EdgeDot(p, topRight, botRight) < 0.0 then false
    else if EdgeDot(p, botRight, botLeft) < 0.0 then false
    else if EdgeDot(p, botLeft, topLeft) < 0.0 then false
    else true
  }

  /** `hit_test`: both variants test their matrix; for an axis-aligned box that is the closed box. */
  function HitTest(s: Shape, p: Point): (hit: bool)
    ensures AxisBox(s.matrix) ==> (hit <==> InBox(p, s.matrix.m20, s.matrix.m21, s.matrix.m00, s.matrix.m11))
  {
    match s
    case Text(matrix, _) => Test(matrix, p)
    case Image(matrix, _) => Test(matrix, p)
  }

  /** A positive scale along each axis followed by a translation. */
  predicate AxisBox(m: Matrix) {
    m.m00 > 0.0 && m.m11 > 0.0 && m.m01 == 0.0 && m.m10 == 0.0 && Affine(m)
  }

  /** A matrix that leaves the homogeneous coordinate alone. */
  predicate Affine(m: Matrix) {
    m.m02 == 0.0 && m.m12 == 0.0 && m.m22 == 1.0
  }

  lemma AffineClosed(a: Matrix, b: Matrix)
    requires Affine(a) && Affine(b)
    ensures Affine(Mul(a, b))
  {
  }

  lemma LayoutMatricesAreAffine(x: real, y: real, w: real, h: real)
    ensures Affine(Identity()) && Affine(Translate(x, y)) && Affine(ScaleWH(w, h))
  {
  }

  lemma ApplyIdentity(s: Shape)
    ensures ApplyMatrix(s, Identity()) == s
  {
    IdentityIsUnit(s.matrix);
  }

  lemma ApplyTwice(s: Shape, inner: Matrix, outer: Matrix)
    ensures ApplyMatrix(ApplyMatrix(s, inner), outer) == ApplyMatrix(s, Mul(outer, inner))
  {
    MulAssociative(outer, inner, s.matrix);
  }

  /** Hit testing through a chain of two transforms equals hit testing through their product. */
  lemma HitTestNested(s: Shape, local: Matrix, parent: Matrix, p: Point)
    ensures HitTest(ApplyMatrix(ApplyMatrix(s, local), parent), p) == HitTest(ApplyMatrix(s, Mul(parent, local)), p)
  {
    ApplyTwice(s, local, parent);
  }

  lemma HitTestIgnoresPayload(m: Matrix, text: string, name: string, p: Point)
    ensures HitTest(Text(m, text), p) == HitTest(Image(m, name), p)
  {
  }

  /** The sign of a dot product with an axis-aligned edge `(v1, 0)` or `(0, v2)`. */
  lemma AxisDotSign(u1: real, v1: real, u2: real, v2: real)
    requires (v1 != 0.0 && v2 == 0.0) || (v1 == 0.0 && v2 != 0.0)
    ensures u1 * v1 + u2 * v2 >= 0.0 <==>
      if v2 == 0.0 then (if v1 > 0.0 then u1 >= 0.0 else u1 <= 0.0)
      else (if v2 > 0.0 then u2 >= 0.0 else u2 <= 0.0)
  {
    if v2 == 0.0 {
      assert u2 * v2 == 0.0;
      if v1 > 0.0 {
        if u1 >= 0.0 { assert u1 * v1 >= 0.0; } else { assert u1 * v1 < 0.0; }
      } else {
        if u1 <= 0.0 { assert u1 * v1 >= 0.0; } else { assert u1 * v1 < 0.0; }
      }
    } else {
      assert u1 * v1 == 0.0;
      if v2 > 0.0 {
        if u2 >= 0.0 { assert u2 * v2 >= 0.0; } else { assert u2 * v2 < 0.0; }
      } else {
        if u2 <= 0.0 { assert u2 * v2 >= 0.0; } else { assert u2 * v2 < 0.0; }
      }
    }
  }

  /** The sign of `EdgeDot` along an axis-aligned edge. */
  lemma EdgeDotSign(p: Point, from: Point, to: Point)
    requires (from.x != to.x && from.y == to.y) || (from.x == to.x && from.y != to.y)
    ensures EdgeDot(p, from, to) >= 0.0 <==>
      if from.y == to.y then (if to.x > from.x then p.x >= from.x else p.x <= from.x)
      else (if to.y > from.y then p.y >= from.y else p.y <= from.y)
  {
    AxisDotSign(p.x - from.x, to.x - from.x, p.y - from.y, to.y - from.y);
  }

  /** The closed axis-aligned box centred on (tx, ty) with half-sides w and h. */
  predicate InBox(p: Point, tx: real, ty: real, w: real, h: real) {
    tx - w <= p.x <= tx + w && ty - h <= p.y <= ty + h
  }

  /**
    A shape placed by `translate(tx, ty) * scale_wh(w, h)` with positive scales
    is hit exactly inside the closed box centred on (tx, ty) with half-sides w
    and h: each edge test rejects only strictly outside points.
  */
  lemma HitTestPlacedBox(s: Shape, tx: real, ty: real, w: real, h: real, p: Point)
    requires w > 0.0 && h > 0.0
    requires s.matrix == Mul(Translate(tx, ty), ScaleWH(w, h))
    ensures HitTest(s, p) <==> InBox(p, tx, ty, w, h)
  {
    TranslateScaleForm(tx, ty, w, h);
    HitTestBox(s, tx, ty, w, h, p);
  }

  lemma HitTestBox(s: Shape, tx: real, ty: real, w: real, h: real, p: Point)
    requires w > 0.0 && h > 0.0
    requires s.matrix == Matrix(w, 0.0, 0.0, 0.0, h, 0.0, tx, ty, 1.0)
    ensures HitTest(s, p) <==> InBox(p, tx, ty, w, h)
  {
    assert AxisBox(s.matrix);
  }

  /** The four edge tests of an axis-aligned box, one edge at a time. */
  lemma EdgesOfBox(m: Matrix, p: Point)
    requires AxisBox(m)
    ensures AllEdgesPass(m, p) <==> InBox(p, m.m20, m.m21, m.m00, m.m11)
  {
    var tx, ty, w, h := m.m20, m.m21, m.m00, m.m11;
    var topLeft, topRight := Corner(m, -1.0, 1.0), Corner(m, 1.0, 1.0);
    var botLeft, botRight := Corner(m, -1.0, -1.0), Corner(m, 1.0, -1.0);
    assert topLeft == Point(tx - w, ty + h);
    assert topRight == Point(tx + w, ty + h);
    assert botLeft == Point(tx - w, ty - h);
    assert botRight == Point(tx + w, ty - h);
    EdgeDotSign(p, topLeft, topRight);
    EdgeDotSign(p, topRight, botRight);
    EdgeDotSign(p, botRight, botLeft);
    EdgeDotSign(p, botLeft, topLeft);
    assert AllEdgesPass(m, p) <==>
      && EdgeDot(p, topLeft, topRight) >= 0.0
      && EdgeDot(p, topRight, botRight) >= 0.0
      && EdgeDot(p, botRight, botLeft) >= 0.0
      && EdgeDot(p, botLeft, topLeft) >= 0.0;
  }

  /**
    With the identity matrix the shape is the whole viewport `[-1, 1] x [-1, 1]`,
    boundary included.
  */
  lemma HitTestIdentity(s: Shape, p: Point)
    requires s.matrix == Identity()
    ensures HitTest(s, p) <==> InBox(p, 0.0, 0.0, 1.0, 1.0)
  {
    HitTestBox(s, 0.0, 0.0, 1.0, 1.0, p);
  }
}
