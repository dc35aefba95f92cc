/** 3×3 homogeneous matrices acting on 2D points, shared by the transformation demos
    (Lab3/2DComposite.cpp, Lab3/2DTransformations.cpp, Lab2/Question5.cpp, which each
    carry the same `transformPoint` and `getCentroid`). */
module Affine {
  import opened Geometry

  /** A 3×3 matrix, row by row: the programs' `float M[3][3]` as a value. */
  datatype Mat3 = Mat3(m00: real, m01: real, m02: real,
                       m10: real, m11: real, m12: real,
                       m20: real, m21: real, m22: real)

  /** Entry (i, j). */
  function Get(m: Mat3, i: nat, j: nat): real
    requires i < 3 && j < 3
  {
    if i == 0 then (if j == 0 then m.m00 else if j == 1 then m.m01 else m.m02)
    else if i == 1 then (if j == 0 then m.m10 else if j == 1 then m.m11 else m.m12)
    else (if j == 0 then m.m20 else if j == 1 then m.m21 else m.m22)
  }

  /** The bottom row is (0, 0, 1): the matrix is an affine map of the plane. */
  predicate IsAffine(m: Mat3)
  {
    m.m20 == 0.0 && m.m21 == 0.0 && m.m22 == 1.0
  }

  /** An affine matrix without translation part. */
  predicate IsLinear(m: Mat3)
  {
    IsAffine(m) && m.m02 == 0.0 && m.m12 == 0.0
  }

  /** `transformPoint`: the first two rows applied to (x, y, 1); the bottom row is unused. */
  function Apply(m: Mat3, p: Point): Point
  {
    Point(m.m00 * p.x + m.m01 * p.y + m.m02, m.m10 * p.x + m.m11 * p.y + m.m12)
  }

  /** The sum of the first k products of row i of a with column j of b. */
  function PartialDot(a: Mat3, b: Mat3, i: nat, j: nat, k: nat): real
    requires i < 3 && j < 3 && k <= 3
  {
    if k == 0 then 0.0 else PartialDot(a, b, i, j, k - 1) + Get(a, i, k - 1) * Get(b, k - 1, j)
  }

  /** One more term of the sum, with the entries given as x and y. */
  lemma DotStep(a: Mat3, b: Mat3, i: nat, j: nat, k: nat, x: real, y: real)
    requires i < 3 && j < 3 && k < 3 && x == Get(a, i, k) && y == Get(b, k, j)
    ensures PartialDot(a, b, i, j, k + 1) == PartialDot(a, b, i, j, k) + x * y
  {
  }

  /** The matrix product a·b. */
  function Mul(a: Mat3, b: Mat3): Mat3
  {
    Mat3(a.m00 * b.m00 + a.m01 * b.m10 + a.m02 * b.m20,
         a.m00 * b.m01 + a.m01 * b.m11 + a.m02 * b.m21,
         a.m00 * b.m02 + a.m01 * b.m12 + a.m02 * b.m22,
         a.m10 * b.m00 + a.m11 * b.m10 + a.m12 * b.m20,
         a.m10 * b.m01 + a.m11 * b.m11 + a.m12 * b.m21,
         a.m10 * b.m02 + a.m11 * b.m12 + a.m12 * b.m22,
         a.m20 * b.m00 + a.m21 * b.m10 + a.m22 * b.m20,
         a.m20 * b.m01 + a.m21 * b.m11 + a.m22 * b.m21,
         a.m20 * b.m02 + a.m21 * b.m12 + a.m22 * b.m22)
  }

  /** Entry (i, j) of a·b is Σk a[i][k]·b[k][j]. */
  lemma MulEntry(a: Mat3, b: Mat3, i: nat, j: nat)
    requires i < 3 && j < 3
    ensures Get(Mul(a, b), i, j) == PartialDot(a, b, i, j, 3)
  {
    if i == 0 {
      MulRow0(a, b, j);
    } else if i == 1 {
      MulRow1(a, b, j);
    } else {
      MulRow2(a, b, j);
    }
  }

  /** The same, one row of a·b at a time. */
  lemma MulRow0(a: Mat3, b: Mat3, j: nat)
    requires j < 3
    ensures Get(Mul(a, b), 0, j) == PartialDot(a, b, 0, j, 3)
  {
    DotUnfold(a, b, 0, j);
  }

  lemma MulRow1(a: Mat3, b: Mat3, j: nat)
    requires j < 3
    ensures Get(Mul(a, b), 1, j) == PartialDot(a, b, 1, j, 3)
  {
    DotUnfold(a, b, 1, j);
  }

  lemma MulRow2(a: Mat3, b: Mat3, j: nat)
    requires j < 3
    ensures Get(Mul(a, b), 2, j) == PartialDot(a, b, 2, j, 3)
  {
    DotUnfold(a, b, 2, j);
  }

  /** The full sum written out term by term. */
  lemma DotUnfold(a: Mat3, b: Mat3, i: nat, j: nat)
    requires i < 3 && j < 3
    ensures PartialDot(a, b, i, j, 3)
         == Get(a, i, 0) * Get(b, 0, j) + Get(a, i, 1) * Get(b, 1, j) + Get(a, i, 2) * Get(b, 2, j)
  {
    assert PartialDot(a, b, i, j, 1) == Get(a, i, 0) * Get(b, 0, j);
  }

  function IdentityMat(): Mat3
  {
    Mat3(1.0, 0.0, 0.0, 0.0, 1.0, 0.0, 0.0, 0.0, 1.0)
  }

  function TranslateMat(tx: real, ty: real): Mat3
  {
    Mat3(1.0, 0.0, tx, 0.0, 1.0, ty, 0.0, 0.0, 1.0)
  }

  function ScaleMat(sx: real, sy: real): Mat3
  {
    Mat3(sx, 0.0, 0.0, 0.0, sy, 0.0, 0.0, 0.0, 1.0)
  }

  /** The rotation matrix, with c and s standing for cos θ and sin θ. */
  function RotateMat(c: real, s: real): Mat3
  {
    Mat3(c, -s, 0.0, s, c, 0.0, 0.0, 0.0, 1.0)
  }

  function ShearMat(shx: real, shy: real): Mat3
  {
    Mat3(1.0, shx, 0.0, shy, 1.0, 0.0, 0.0, 0.0, 1.0)
  }

  /** Reflection across the x axis: a scaling by (1, −1). */
  function ReflectXMat(): Mat3
  {
    ScaleMat(1.0, -1.0)
  }

  /** Reflection across the y axis: a scaling by (−1, 1). */
  function ReflectYMat(): Mat3
  {
    ScaleMat(-1.0, 1.0)
  }

  /** p moved by (dx, dy). */
  function Offset(p: Point, dx: real, dy: real): Point
  {
    Point(p.x + dx, p.y + dy)
  }

  /** p relative to the pivot k. */
  function Sub(p: Point, k: Point): Point
  {
    Point(p.x - k.x, p.y - k.y)
  }

  /** `getCentroid`: the coordinate-wise mean of the three vertices. */
  function Centroid(p1: Point, p2: Point, p3: Point): Point
  {
    Point((p1.x + p2.x + p3.x) / 3.0, (p1.y + p2.y + p3.y) / 3.0)
  }

  /** The images of a triangle's three vertices under m. */
  function Images(m: Mat3, p1: Point, p2: Point, p3: Point): seq<Point>
  {
    [Apply(m, p1), Apply(m, p2), Apply(m, p3)]
  }

  /** What each builder does to a point. */
  lemma BuildersAct(p: Point, tx: real, ty: real, sx: real, sy: real, c: real, s: real, shx: real, shy: real)
    ensures Apply(IdentityMat(), p) == p
    ensures Apply(TranslateMat(tx, ty), p) == Offset(p, tx, ty)
    ensures Apply(ScaleMat(sx, sy), p) == Point(sx * p.x, sy * p.y)
    ensures Apply(RotateMat(c, s), p) == Point(c * p.x - s * p.y, s * p.x + c * p.y)
    ensures Apply(ShearMat(shx, shy), p) == Point(p.x + shx * p.y, shy * p.x + p.y)
    ensures Apply(ReflectXMat(), p) == Point(p.x, -p.y) && Apply(ReflectYMat(), p) == Point(-p.x, p.y)
  {
  }

  /** Every builder yields an affine matrix; all but translation are linear. */
  lemma BuildersAffine(tx: real, ty: real, sx: real, sy: real, c: real, s: real, shx: real, shy: real)
    ensures IsLinear(IdentityMat()) && IsAffine(TranslateMat(tx, ty))
    ensures IsLinear(ScaleMat(sx, sy)) && IsLinear(RotateMat(c, s)) && IsLinear(ShearMat(shx, shy))
    ensures IsLinear(ReflectXMat()) && IsLinear(ReflectYMat())
  {
  }

  /** Composition law: when b's bottom row is (0, 0, 1), applying a·b is applying b, then a. */
  lemma ApplyMul(a: Mat3, b: Mat3, p: Point)
    requires IsAffine(b)
    ensures Apply(Mul(a, b), p) == Apply(a, Apply(b, p))
  {
    var m, q := Mul(a, b), Apply(b, p);
    RowCompose(m.m00, m.m01, m.m02, a.m00, a.m01, a.m02, b, p);
    RowCompose(m.m10, m.m11, m.m12, a.m10, a.m11, a.m12, b, p);
    assert Apply(m, p).x == Apply(a, q).x;
    assert Apply(m, p).y == Apply(a, q).y;
  }

  /** A row (e0, e1, e2) of r·b, for an affine b and a row (r0, r1, r2) of r, applied to p
      is the row of r applied to b·p. */
  lemma RowCompose(e0: real, e1: real, e2: real, r0: real, r1: real, r2: real, b: Mat3, p: Point)
    requires IsAffine(b)
    requires e0 == r0 * b.m00 + r1 * b.m10 + r2 * b.m20
    requires e1 == r0 * b.m01 + r1 * b.m11 + r2 * b.m21
    requires e2 == r0 * b.m02 + r1 * b.m12 + r2 * b.m22
    ensures e0 * p.x + e1 * p.y + e2 == r0 * Apply(b, p).x + r1 * Apply(b, p).y + r2
  {
    var q := Apply(b, p);
    assert r0 * q.x == r0 * b.m00 * p.x + r0 * b.m01 * p.y + r0 * b.m02;
    assert r1 * q.y == r1 * b.m10 * p.x + r1 * b.m11 * p.y + r1 * b.m12;
  }

  /** Products of affine matrices are affine. */
  lemma MulAffine(a: Mat3, b: Mat3)
    requires IsAffine(a) && IsAffine(b)
    ensures IsAffine(Mul(a, b))
  {
  }

  /** The identity is neutral on both sides. */
  lemma MulIdentity(a: Mat3)
    ensures Mul(IdentityMat(), a) == a && Mul(a, IdentityMat()) == a
  {
  }

  /** Translating to a pivot and back composes to the identity. */
  lemma TranslateInverse(tx: real, ty: real)
    ensures Mul(TranslateMat(tx, ty), TranslateMat(-tx, -ty)) == IdentityMat()
    ensures Mul(TranslateMat(-tx, -ty), TranslateMat(tx, ty)) == IdentityMat()
  {
  }

  /** Each reflection undoes itself, as a matrix ... */
  lemma ReflectXInvolution()
    ensures Mul(ReflectXMat(), ReflectXMat()) == IdentityMat()
  {
    SignSquare(1.0, -1.0);
  }

  lemma ReflectYInvolution()
    ensures Mul(ReflectYMat(), ReflectYMat()) == IdentityMat()
  {
    SignSquare(-1.0, 1.0);
  }

  /** A diagonal matrix of square roots of 1 squares to the identity. */
  lemma SignSquare(u: real, v: real)
    requires u * u == 1.0 && v * v == 1.0
    ensures Mul(ScaleMat(u, v), ScaleMat(u, v)) == IdentityMat()
  {
    MulScale(u, v, u, v);
  }

  /** Diagonal matrices multiply entry by entry. */
  lemma MulScale(u1: real, v1: real, u2: real, v2: real)
    ensures Mul(ScaleMat(u1, v1), ScaleMat(u2, v2)) == ScaleMat(u1 * u2, v1 * v2)
  {
  }

  /** ... and on every point. */
  lemma ReflectTwice(p: Point)
    ensures Apply(ReflectXMat(), Apply(ReflectXMat(), p)) == p && Apply(ReflectYMat(), Apply(ReflectYMat(), p)) == p
  {
  }

  /** An affine map carries the centroid of a triangle to the centroid of the image. */
  lemma CentroidCommutes(m: Mat3, p1: Point, p2: Point, p3: Point)
    ensures Apply(m, Centroid(p1, p2, p3)) == Centroid(Apply(m, p1), Apply(m, p2), Apply(m, p3))
  {
    var k := Centroid(p1, p2, p3);
    var q1, q2, q3 := Apply(m, p1), Apply(m, p2), Apply(m, p3);
    RowOfMean(m.m00, m.m01, m.m02, p1, p2, p3);
    RowOfMean(m.m10, m.m11, m.m12, p1, p2, p3);
    assert Apply(m, k).x == (q1.x + q2.x + q3.x) / 3.0;
    assert Apply(m, k).y == (q1.y + q2.y + q3.y) / 3.0;
  }

  /** One row of a matrix applied to the mean of three points is the mean of the rows applied. */
  lemma RowOfMean(u: real, v: real, w: real, p1: Point, p2: Point, p3: Point)
    ensures u * ((p1.x + p2.x + p3.x) / 3.0) + v * ((p1.y + p2.y + p3.y) / 3.0) + w
         == ((u * p1.x + v * p1.y + w) + (u * p2.x + v * p2.y + w) + (u * p3.x + v * p3.y + w)) / 3.0
  {
    assert u * ((p1.x + p2.x + p3.x) / 3.0) == (u * p1.x + u * p2.x + u * p3.x) / 3.0;
    assert v * ((p1.y + p2.y + p3.y) / 3.0) == (v * p1.y + v * p2.y + v * p3.y) / 3.0;
  }

  /** A linear matrix fixes the origin. */
  lemma LinearFixesOrigin(m: Mat3)
    requires IsLinear(m)
    ensures Apply(m, Point(0.0, 0.0)) == Point(0.0, 0.0)
  {
  }

  /** The pivot idiom T(d)·T(k)·L·T(−k): q goes to k + d + L(q − k). */
  lemma PivotAct(l: Mat3, k: Point, d: Point, q: Point)
    requires IsLinear(l)
    ensures var m := Mul(TranslateMat(d.x, d.y), Mul(TranslateMat(k.x, k.y), Mul(l, TranslateMat(-k.x, -k.y))));
      && IsAffine(m)
      && Apply(m, q) == Offset(Apply(l, Sub(q, k)), k.x + d.x, k.y + d.y)
  {
    var back, move, to := TranslateMat(k.x, k.y), TranslateMat(d.x, d.y), TranslateMat(-k.x, -k.y);
    ApplyMul(l, to, q);
    MulAffine(l, to);
    ApplyMul(back, Mul(l, to), q);
    MulAffine(back, Mul(l, to));
    ApplyMul(move, Mul(back, Mul(l, to)), q);
  }

  /** Whether a 3×3 array holds the matrix's shape. */
  predicate Is3x3(a: array2<real>)
  {
    a.Length0 == 3 && a.Length1 == 3
  }

  /** The current contents of a 3×3 array as a matrix. */
  function ToMat(a: array2<real>): Mat3
    requires Is3x3(a)
    reads a
  {
    Mat3(a[0, 0], a[0, 1], a[0, 2], a[1, 0], a[1, 1], a[1, 2], a[2, 0], a[2, 1], a[2, 2])
  }

  /** Entry (i, j) of the array is entry (i, j) of its matrix value. */
  lemma ToMatEntry(a: array2<real>, i: nat, j: nat)
    requires Is3x3(a) && i < 3 && j < 3
    ensures a[i, j] == Get(ToMat(a), i, j)
  {
  }

  /** An array equal to m entry by entry holds m. */
  lemma EntriesToMat(a: array2<real>, m: Mat3)
    requires Is3x3(a)
    requires forall i, j :: 0 <= i < 3 && 0 <= j < 3 ==> a[i, j] == Get(m, i, j)
    ensures ToMat(a) == m
  {
    assert a[0, 0] == Get(m, 0, 0) && a[0, 1] == Get(m, 0, 1) && a[0, 2] == Get(m, 0, 2);
    assert a[1, 0] == Get(m, 1, 0) && a[1, 1] == Get(m, 1, 1) && a[1, 2] == Get(m, 1, 2);
    assert a[2, 0] == Get(m, 2, 0) && a[2, 1] == Get(m, 2, 1) && a[2, 2] == Get(m, 2, 2);
  }

  /** `matrixMultiply`: result := a·b through a temporary, so result may be a or b. */
  method MatrixMultiply(a: array2<real>, b: array2<real>, result: array2<real>)
    requires Is3x3(a) && Is3x3(b) && Is3x3(result)
    modifies result
    ensures ToMat(result) == Mul(old(ToMat(a)), old(ToMat(b)))
  {
    ghost var ma, mb := ToMat(a), ToMat(b);
    ghost var prod := Mul(ma, mb);
    var temp := new real[3, 3];
    for i := 0 to 3
      modifies temp
      invariant ToMat(a) == ma && ToMat(b) == mb
      invariant forall r, c :: 0 <= r < i && 0 <= c < 3 ==> temp[r, c] == Get(prod, r, c)
    {
      for j := 0 to 3
        modifies temp
        invariant ToMat(a) == ma && ToMat(b) == mb
        invariant forall r, c :: 0 <= r < 3 && 0 <= c < 3 && (r < i || (r == i && c < j)) ==>
          temp[r, c] == Get(prod, r, c)
      {
        temp[i, j] := 0.0;
        for k := 0 to 3
          modifies temp
          invariant ToMat(a) == ma && ToMat(b) == mb
          invariant temp[i, j] == PartialDot(ma, mb, i, j, k)
          invariant forall r, c :: 0 <= r < 3 && 0 <= c < 3 && (r < i || (r == i && c < j)) ==>
            temp[r, c] == Get(prod, r, c)
        {
          ToMatEntry(a, i, k);
          ToMatEntry(b, k, j);
          var x, y := a[i, k], b[k, j];
          DotStep(ma, mb, i, j, k, x, y);
          temp[i, j] := temp[i, j] + x * y;
        }
        MulEntry(ma, mb, i, j);
      }
    }
    for i := 0 to 3
      modifies result
      invariant forall r, c :: 0 <= r < 3 && 0 <= c < 3 ==> temp[r, c] == Get(prod, r, c)
      invariant forall r, c :: 0 <= r < i && 0 <= c < 3 ==> result[r, c] == temp[r, c]
    {
      for j := 0 to 3
        modifies result
        invariant forall r, c :: 0 <= r < 3 && 0 <= c < 3 ==> temp[r, c] == Get(prod, r, c)
        invariant forall r, c :: 0 <= r < 3 && 0 <= c < 3 && (r < i || (r == i && c < j)) ==> result[r, c] == temp[r, c]
      {
        result[i, j] := temp[i, j];
      }
    }
    EntriesToMat(result, prod);
  }
}
