/**
  3x3 transformation matrices over normalized device coordinates ([-1, 1] on
  both axes), as src/matrix.rs defines them. A matrix is stored column-major:
  the field `mCR` is the entry in column C and row R, that is `self.0[C][R]`
  in the source. `f32` arithmetic is modelled by `real`.
*/
module Matrices {

  datatype Matrix = Matrix(
    m00: real, m01: real, m02: real,
    m10: real, m11: real, m12: real,
    m20: real, m21: real, m22: real)

  /** A homogeneous 3-vector `[x, y, z]`. */
  datatype Vec3 = Vec3(x: real, y: real, z: real)

  /** The entry `self.0[col][row]`. */
  function Entry(m: Matrix, col: nat, row: nat): real
    requires col < 3 && row < 3
  {
    match (col, row)
    case (0, 0) => m.m00
    case (0, 1) => m.m01
    case (0, 2) => m.m02
    case (1, 0) => m.m10
    case (1, 1) => m.m11
    case (1, 2) => m.m12
    case (2, 0) => m.m20
    case (2, 1) => m.m21
    case (_, _) => m.m22
  }

  /** `identity()`: the matrix that has no effect on any vector. */
  function Identity(): (m: Matrix)
    ensures forall v :: MulVec(m, v) == v
  {
    var m := Matrix(1.0, 0.0, 0.0,
                    0.0, 1.0, 0.0,
                    0.0, 0.0, 1.0);
    ActsAs(m, 1.0, 1.0, 0.0, 0.0);
    m
  }

  /** `scale(factor)`: both coordinates of a vector are multiplied by `factor`. */
  function Scale(factor: real): (m: Matrix)
    ensures forall v :: MulVec(m, v) == Vec3(factor * v.x, factor * v.y, v.z)
  {
    var m := Matrix(factor, 0.0, 0.0,
                    0.0, factor, 0.0,
                    0.0, 0.0, 1.0);
    ActsAs(m, factor, factor, 0.0, 0.0);
    m
  }

  /** `scale_wh(w, h)`: the x coordinate is multiplied by `w` and the y coordinate by `h`. */
  function ScaleWH(w: real, h: real): (m: Matrix)
    ensures forall v :: MulVec(m, v) == Vec3(w * v.x, h * v.y, v.z)
  {
    var m := Matrix(w, 0.0, 0.0,
                    0.0, h, 0.0,
                    0.0, 0.0, 1.0);
    ActsAs(m, w, h, 0.0, 0.0);
    m
  }

  /** `translate(x, y)`: a point (z = 1) moves by (x, y); a direction (z = 0) stays. */
  function Translate(x: real, y: real): (m: Matrix)
    ensures forall v :: MulVec(m, v) == Vec3(v.x + x * v.z, v.y + y * v.z, v.z)
  {
    var m := Matrix(1.0, 0.0, 0.0,
                    0.0, 1.0, 0.0,
                    x, y, 1.0);
    ActsAs(m, 1.0, 1.0, x, y);
    m
  }

  /** A matrix that scales by (w, h) along the axes and then translates by (x, y), acting on a vector. */
  lemma ActsAs(m: Matrix, w: real, h: real, x: real, y: real)
    requires m == Matrix(w, 0.0, 0.0, 0.0, h, 0.0, x, y, 1.0)
    ensures forall v :: MulVec(m, v) == Vec3(w * v.x + x * v.z, h * v.y + y * v.z, v.z)
  {
    forall v
      ensures MulVec(m, v) == Vec3(w * v.x + x * v.z, h * v.y + y * v.z, v.z)
    {
      var r := MulVec(m, v);
      assert r.x == w * v.x + x * v.z;
      assert r.y == h * v.y + y * v.z;
      assert r.z == v.z;
    }
  }

  /**
    `self * other`: the product in which `other` is applied first, so that
    applying the product to a vector applies `other` and then `self`.
  */
  function Mul(me: Matrix, other: Matrix): (m: Matrix)
    ensures forall v :: MulVec(m, v) == MulVec(me, MulVec(other, v))
  {
    var a := me.m00 * other.m00 + me.m10 * other.m01 + me.m20 * other.m02;
    var b := me.m00 * other.m10 + me.m10 * other.m11 + me.m20 * other.m12;
    var c := me.m00 * other.m20 + me.m10 * other.m21 + me.m20 * other.m22;
    var d := me.m01 * other.m00 + me.m11 * other.m01 + me.m21 * other.m02;
    var e := me.m01 * other.m10 + me.m11 * other.m11 + me.m21 * other.m12;
    var f := me.m01 * other.m20 + me.m11 * other.m21 + me.m21 * other.m22;
    var g := me.m02 * other.m00 + me.m12 * other.m01 + me.m22 * other.m02;
    var h := me.m02 * other.m10 + me.m12 * other.m11 + me.m22 * other.m12;
    var i := me.m02 * other.m20 + me.m12 * other.m21 + me.m22 * other.m22;
    var m := Matrix(a, d, g,
                    b, e, h,
                    c, f, i);
    ProductActs(me, other, m);
    m
  }

  /**
    `self * [x, y, z]`. The storage is column-major: the k-th unit vector is
    sent to column k. A matrix whose third row is (0, 0, 1) keeps z.
  */
  function MulVec(me: Matrix, v: Vec3): (r: Vec3)
    ensures v == Vec3(1.0, 0.0, 0.0) ==> r == Vec3(me.m00, me.m01, me.m02)
    ensures v == Vec3(0.0, 1.0, 0.0) ==> r == Vec3(me.m10, me.m11, me.m12)
    ensures v == Vec3(0.0, 0.0, 1.0) ==> r == Vec3(me.m20, me.m21, me.m22)
    ensures me.m02 == 0.0 && me.m12 == 0.0 && me.m22 == 1.0 ==> r.z == v.z
  {
    Vec3(me.m00 * v.x + me.m10 * v.y + me.m20 * v.z,
         me.m01 * v.x + me.m11 * v.y + me.m21 * v.z,
         me.m02 * v.x + me.m12 * v.y + me.m22 * v.z)
  }

  /** A `[[f32; 3]; 3]` (outer index: column) or `[[f32; 4]; 4]` value. */
  type Grid = seq<seq<real>>

  predicate IsGrid(a: Grid, n: nat) {
    |a| == n && forall i | 0 <= i < n :: |a[i]| == n
  }

  /** `From<[[f32; 3]; 3]>`: the array becomes the matrix's storage. */
  function FromGrid(a: Grid): (m: Matrix)
    requires IsGrid(a, 3)
    ensures forall col, row | 0 <= col < 3 && 0 <= row < 3 :: Entry(m, col, row) == a[col][row]
  {
    Matrix(a[0][0], a[0][1], a[0][2],
           a[1][0], a[1][1], a[1][2],
           a[2][0], a[2][1], a[2][2])
  }

  /** `Into<[[f32; 3]; 3]>`: the matrix's storage. */
  function ToGrid(m: Matrix): (a: Grid)
    ensures IsGrid(a, 3)
    ensures forall col, row | 0 <= col < 3 && 0 <= row < 3 :: a[col][row] == Entry(m, col, row)
  {
    [[m.m00, m.m01, m.m02],
     [m.m10, m.m11, m.m12],
     [m.m20, m.m21, m.m22]]
  }

  /**
    `Into<[[f32; 4]; 4]>`: entries with both indices in {0, 1} stay where they
    are, index 2 moves to index 3, and the new third column and row are zero.
  */
  function ToGrid4(m: Matrix): (a: Grid)
    ensures IsGrid(a, 4)
    ensures forall col, row | 0 <= col < 3 && 0 <= row < 3 ::
      a[if col == 2 then 3 else col][if row == 2 then 3 else row] == Entry(m, col, row)
    ensures forall k | 0 <= k < 4 :: a[2][k] == 0.0 && a[k][2] == 0.0
  {
    [[m.m00, m.m01, 0.0, m.m02],
     [m.m10, m.m11, 0.0, m.m12],
     [0.0, 0.0, 0.0, 0.0],
     [m.m20, m.m21, 0.0, m.m22]]
  }

  lemma FromToGrid(m: Matrix)
    ensures FromGrid(ToGrid(m)) == m
  {
  }

  lemma ToFromGrid(a: Grid)
    requires IsGrid(a, 3)
    ensures ToGrid(FromGrid(a)) == a
  {
    var b := ToGrid(FromGrid(a));
    forall col | 0 <= col < 3
      ensures b[col] == a[col]
    {
      assert |b[col]| == |a[col]| == 3;
    }
  }

  lemma IdentityIsUnit(m: Matrix)
    ensures Mul(Identity(), m) == m
    ensures Mul(m, Identity()) == m
  {
  }

  /** Column `k` of a matrix, as a vector. */
  function Column(m: Matrix, k: nat): Vec3
    requires k < 3
  {
    if k == 0 then Vec3(m.m00, m.m01, m.m02)
    else if k == 1 then Vec3(m.m10, m.m11, m.m12)
    else Vec3(m.m20, m.m21, m.m22)
  }

  /** `(p + q + r) * y` distributes over the sum. */
  lemma DistributeRight(p: real, q: real, r: real, y: real)
    ensures (p + q + r) * y == p * y + q * y + r * y
  {
  }

  /** `x * (p + q + r)` distributes over the sum. */
  lemma DistributeLeft(x: real, p: real, q: real, r: real)
    ensures x * (p + q + r) == x * p + x * q + x * r
  {
  }

  lemma Associate(x: real, b: real, y: real)
    ensures (x * b) * y == x * (b * y)
  {
  }

  /**
    One row of `(a * b) * v` against the same row of `a * (b * v)`: `x` is
    the row of `a`, `b..` the entries of `b`, `y` the vector `v`, `p` the row
    of `a * b` and `w` the vector `b * v`.
  */
  lemma RowComposes(
    x0: real, x1: real, x2: real,
    b00: real, b01: real, b02: real, b10: real, b11: real, b12: real, b20: real, b21: real, b22: real,
    y0: real, y1: real, y2: real,
    p0: real, p1: real, p2: real,
    w0: real, w1: real, w2: real)
    requires p0 == x0 * b00 + x1 * b01 + x2 * b02
    requires p1 == x0 * b10 + x1 * b11 + x2 * b12
    requires p2 == x0 * b20 + x1 * b21 + x2 * b22
    requires w0 == b00 * y0 + b10 * y1 + b20 * y2
    requires w1 == b01 * y0 + b11 * y1 + b21 * y2
    requires w2 == b02 * y0 + b12 * y1 + b22 * y2
    ensures p0 * y0 + p1 * y1 + p2 * y2 == x0 * w0 + x1 * w1 + x2 * w2
  {
    DistributeRight(x0 * b00, x1 * b01, x2 * b02, y0);
    DistributeRight(x0 * b10, x1 * b11, x2 * b12, y1);
    DistributeRight(x0 * b20, x1 * b21, x2 * b22, y2);
    DistributeLeft(x0, b00 * y0, b10 * y1, b20 * y2);
    DistributeLeft(x1, b01 * y0, b11 * y1, b21 * y2);
    DistributeLeft(x2, b02 * y0, b12 * y1, b22 * y2);
    Associate(x0, b00, y0); Associate(x1, b01, y0); Associate(x2, b02, y0);
    Associate(x0, b10, y1); Associate(x1, b11, y1); Associate(x2, b12, y1);
    Associate(x0, b20, y2); Associate(x1, b21, y2); Associate(x2, b22, y2);
  }

  /**
    Applying the entries of a product to a vector is applying the right
    factor and then the left one; `m` is `me * other` multiplied out.
  */
  lemma ProductActs(me: Matrix, other: Matrix, m: Matrix)
    requires m.m00 == me.m00 * other.m00 + me.m10 * other.m01 + me.m20 * other.m02
    requires m.m10 == me.m00 * other.m10 + me.m10 * other.m11 + me.m20 * other.m12
    requires m.m20 == me.m00 * other.m20 + me.m10 * other.m21 + me.m20 * other.m22
    requires m.m01 == me.m01 * other.m00 + me.m11 * other.m01 + me.m21 * other.m02
    requires m.m11 == me.m01 * other.m10 + me.m11 * other.m11 + me.m21 * other.m12
    requires m.m21 == me.m01 * other.m20 + me.m11 * other.m21 + me.m21 * other.m22
    requires m.m02 == me.m02 * other.m00 + me.m12 * other.m01 + me.m22 * other.m02
    requires m.m12 == me.m02 * other.m10 + me.m12 * other.m11 + me.m22 * other.m12
    requires m.m22 == me.m02 * other.m20 + me.m12 * other.m21 + me.m22 * other.m22
    ensures forall v :: MulVec(m, v) == MulVec(me, MulVec(other, v))
  {
    forall v
      ensures MulVec(m, v) == MulVec(me, MulVec(other, v))
    {
      ProductActsX(me, other, m, v);
      ProductActsY(me, other, m, v);
      ProductActsZ(me, other, m, v);
    }
  }

  lemma ProductActsX(me: Matrix, other: Matrix, m: Matrix, v: Vec3)
    requires m.m00 == me.m00 * other.m00 + me.m10 * other.m01 + me.m20 * other.m02
    requires m.m10 == me.m00 * other.m10 + me.m10 * other.m11 + me.m20 * other.m12
    requires m.m20 == me.m00 * other.m20 + me.m10 * other.m21 + me.m20 * other.m22
    ensures MulVec(m, v).x == MulVec(me, MulVec(other, v)).x
  {
    var w := MulVec(other, v);
    RowComposes(me.m00, me.m10, me.m20, other.m00, other.m01, other.m02, other.m10, other.m11, other.m12, other.m20, other.m21, other.m22,
                v.x, v.y, v.z, m.m00, m.m10, m.m20, w.x, w.y, w.z);
  }

  lemma ProductActsY(me: Matrix, other: Matrix, m: Matrix, v: Vec3)
    requires m.m01 == me.m01 * other.m00 + me.m11 * other.m01 + me.m21 * other.m02
    requires m.m11 == me.m01 * other.m10 + me.m11 * other.m11 + me.m21 * other.m12
    requires m.m21 == me.m01 * other.m20 + me.m11 * other.m21 + me.m21 * other.m22
    ensures MulVec(m, v).y == MulVec(me, MulVec(other, v)).y
  {
    var w := MulVec(other, v);
    RowComposes(me.m01, me.m11, me.m21, other.m00, other.m01, other.m02, other.m10, other.m11, other.m12, other.m20, other.m21, other.m22,
                v.x, v.y, v.z, m.m01, m.m11, m.m21, w.x, w.y, w.z);
  }

  lemma ProductActsZ(me: Matrix, other: Matrix, m: Matrix, v: Vec3)
    requires m.m02 == me.m02 * other.m00 + me.m12 * other.m01 + me.m22 * other.m02
    requires m.m12 == me.m02 * other.m10 + me.m12 * other.m11 + me.m22 * other.m12
    requires m.m22 == me.m02 * other.m20 + me.m12 * other.m21 + me.m22 * other.m22
    ensures MulVec(m, v).z == MulVec(me, MulVec(other, v)).z
  {
    var w := MulVec(other, v);
    RowComposes(me.m02, me.m12, me.m22, other.m00, other.m01, other.m02, other.m10, other.m11, other.m12, other.m20, other.m21, other.m22,
                v.x, v.y, v.z, m.m02, m.m12, m.m22, w.x, w.y, w.z);
  }

  /** Column `k` of a product is the left factor applied to column `k` of the right one. */
  lemma MulColumn(a: Matrix, b: Matrix, k: nat)
    requires k < 3
    ensures Column(Mul(a, b), k) == MulVec(a, Column(b, k))
  {
    var e := if k == 0 then Vec3(1.0, 0.0, 0.0) else if k == 1 then Vec3(0.0, 1.0, 0.0) else Vec3(0.0, 0.0, 1.0);
    assert MulVec(Mul(a, b), e) == Column(Mul(a, b), k);
    assert MulVec(b, e) == Column(b, k);
  }

  lemma MulAssociative(a: Matrix, b: Matrix, c: Matrix)
    ensures Mul(Mul(a, b), c) == Mul(a, Mul(b, c))
  {
    forall k | 0 <= k < 3
      ensures Column(Mul(Mul(a, b), c), k) == Column(Mul(a, Mul(b, c)), k)
    {
      MulColumn(Mul(a, b), c, k);
      MulColumn(b, c, k);
      MulColumn(a, Mul(b, c), k);
    }
    var l, r := Mul(Mul(a, b), c), Mul(a, Mul(b, c));
    assert Column(l, 0) == Column(r, 0) && Column(l, 1) == Column(r, 1) && Column(l, 2) == Column(r, 2);
  }

  lemma ScaleIsUniformScaleWH(f: real)
    ensures Scale(f) == ScaleWH(f, f)
  {
  }

  lemma TranslateComposes(a: real, b: real, c: real, d: real)
    ensures Mul(Translate(a, b), Translate(c, d)) == Translate(a + c, b + d)
  {
  }

  /** The shape every layout matrix takes: a scale followed by a translation. */
  lemma TranslateScaleForm(x: real, y: real, w: real, h: real)
    ensures Mul(Translate(x, y), ScaleWH(w, h)) == Matrix(w, 0.0, 0.0, 0.0, h, 0.0, x, y, 1.0)
  {
  }

  /** The product of two matrices that scale along the axes and translate is again one. */
  lemma DiagonalCompose(x: real, y: real, w: real, h: real, tx: real, ty: real, px: real, py: real)
    ensures Mul(Matrix(w, 0.0, 0.0, 0.0, h, 0.0, x, y, 1.0), Matrix(px, 0.0, 0.0, 0.0, py, 0.0, tx, ty, 1.0))
         == Matrix(w * px, 0.0, 0.0, 0.0, h * py, 0.0, x + w * tx, y + h * ty, 1.0)
  {
    var m := Mul(Matrix(w, 0.0, 0.0, 0.0, h, 0.0, x, y, 1.0), Matrix(px, 0.0, 0.0, 0.0, py, 0.0, tx, ty, 1.0));
    assert m.m00 == w * px && m.m11 == h * py;
    assert m.m20 == w * tx + x && m.m21 == h * ty + y;
  }
}
