/** Lab3/2DTransformations.cpp: each transformation is a composite of literal 3×3 matrices
    applied to the triangle's three vertices; the keyboard picks the mode shown. */
module Transformations2D {
  import opened Geometry
  import opened Affine
  import opened TransformModes

  /** `multiplyMatrix(result, m1, m2)`: result := m1·m2, the destination first; correct
      even when result is m1 or m2. */
  method MultiplyMatrix(result: array2<real>, m1: array2<real>, m2: array2<real>)
    requires Is3x3(result) && Is3x3(m1) && Is3x3(m2)
    modifies result
    ensures ToMat(result) == Mul(old(ToMat(m1)), old(ToMat(m2)))
  {
    MatrixMultiply(m1, m2, result);
  }

  /** `translate`: the triangle under T(tx, ty). */
  function TranslateTriangle(p1: Point, p2: Point, p3: Point, tx: real, ty: real): seq<Point>
  {
    Images(TranslateMat(tx, ty), p1, p2, p3)
  }

  /** `scale`: T2·(S·T1), with T1 moving the centroid to the origin and T2 moving it back
      and 0.6 to the right. */
  function ScaleTriangle(p1: Point, p2: Point, p3: Point, sx: real, sy: real): seq<Point>
  {
    var k := Centroid(p1, p2, p3);
    var t1 := TranslateMat(-k.x, -k.y);
    var t2 := TranslateMat(k.x + 0.6, k.y);
    Images(Mul(t2, Mul(ScaleMat(sx, sy), t1)), p1, p2, p3)
  }

  /** `rotate`: T2·(R·T1), with T2 moving the centroid back and by (0.6, 0.3); c and s
      stand for cos θ and sin θ. */
  function RotateTriangle(p1: Point, p2: Point, p3: Point, c: real, s: real): seq<Point>
  {
    var k := Centroid(p1, p2, p3);
    var t1 := TranslateMat(-k.x, -k.y);
    var t2 := TranslateMat(k.x + 0.6, k.y + 0.3);
    Images(Mul(t2, Mul(RotateMat(c, s), t1)), p1, p2, p3)
  }

  /** `shear`: SH·T, with T a move by (0.6, −0.3). */
  function ShearTriangle(p1: Point, p2: Point, p3: Point, shx: real, shy: real): seq<Point>
  {
    Images(Mul(ShearMat(shx, shy), TranslateMat(0.6, -0.3)), p1, p2, p3)
  }

  /** `reflectX` and `reflectY`. */
  function ReflectXTriangle(p1: Point, p2: Point, p3: Point): seq<Point>
  {
    Images(ReflectXMat(), p1, p2, p3)
  }

  function ReflectYTriangle(p1: Point, p2: Point, p3: Point): seq<Point>
  {
    Images(ReflectYMat(), p1, p2, p3)
  }

  /** The composite T(k + d)·(L·T(−k)) turns q by L about k and then moves it by d. */
  lemma PivotOnce(l: Mat3, k: Point, d: Point, q: Point)
    requires IsLinear(l)
    ensures Apply(Mul(TranslateMat(k.x + d.x, k.y + d.y), Mul(l, TranslateMat(-k.x, -k.y))), q)
         == Offset(Apply(l, Sub(q, k)), k.x + d.x, k.y + d.y)
    ensures IsAffine(Mul(TranslateMat(k.x + d.x, k.y + d.y), Mul(l, TranslateMat(-k.x, -k.y))))
  {
    var to := TranslateMat(-k.x, -k.y);
    ApplyMul(l, to, q);
    MulAffine(l, to);
    ApplyMul(TranslateMat(k.x + d.x, k.y + d.y), Mul(l, to), q);
    MulAffine(TranslateMat(k.x + d.x, k.y + d.y), Mul(l, to));
  }

  /** A turn about the centroid followed by a move d: every vertex is the centroid plus d
      plus its turned offset from the centroid, and the centroid itself moves by d. */
  lemma PivotTriangle(l: Mat3, d: Point, p1: Point, p2: Point, p3: Point)
    requires IsLinear(l)
    ensures var k := Centroid(p1, p2, p3);
      var m := Mul(TranslateMat(k.x + d.x, k.y + d.y), Mul(l, TranslateMat(-k.x, -k.y)));
      var r := Images(m, p1, p2, p3);
      && (forall i :: 0 <= i < 3 ==> r[i] == Offset(Apply(l, Sub([p1, p2, p3][i], k)), k.x + d.x, k.y + d.y))
      && Centroid(r[0], r[1], r[2]) == Offset(k, d.x, d.y)
  {
    var k := Centroid(p1, p2, p3);
    var m := Mul(TranslateMat(k.x + d.x, k.y + d.y), Mul(l, TranslateMat(-k.x, -k.y)));
    PivotOnce(l, k, d, p1);
    PivotOnce(l, k, d, p2);
    PivotOnce(l, k, d, p3);
    PivotOnce(l, k, d, k);
    CentroidCommutes(m, p1, p2, p3);
    LinearFixesOrigin(l);
    assert Sub(k, k) == Point(0.0, 0.0);
  }

  /** `translate` moves every vertex by (tx, ty). */
  lemma TranslateMoves(p1: Point, p2: Point, p3: Point, tx: real, ty: real)
    ensures TranslateTriangle(p1, p2, p3, tx, ty) == [Offset(p1, tx, ty), Offset(p2, tx, ty), Offset(p3, tx, ty)]
  {
    BuildersAct(p1, tx, ty, 1.0, 1.0, 1.0, 0.0, 0.0, 0.0);
    BuildersAct(p2, tx, ty, 1.0, 1.0, 1.0, 0.0, 0.0, 0.0);
    BuildersAct(p3, tx, ty, 1.0, 1.0, 1.0, 0.0, 0.0, 0.0);
  }

  /** `scale` scales each vertex's offset from the centroid by (sx, sy) and puts the
      centroid 0.6 to the right of where it was. */
  lemma ScaleAboutCentroid(p1: Point, p2: Point, p3: Point, sx: real, sy: real)
    ensures var k := Centroid(p1, p2, p3);
      var r := ScaleTriangle(p1, p2, p3, sx, sy);
      && |r| == 3
      && (forall i :: 0 <= i < 3 ==> var q := [p1, p2, p3][i];
            r[i] == Point(k.x + 0.6 + sx * (q.x - k.x), k.y + sy * (q.y - k.y)))
      && Centroid(r[0], r[1], r[2]) == Offset(k, 0.6, 0.0)
  {
    var k := Centroid(p1, p2, p3);
    PivotTriangle(ScaleMat(sx, sy), Point(0.6, 0.0), p1, p2, p3);
    assert k.y + 0.0 == k.y;
  }

  /** `rotate` turns the triangle about its centroid (`BuildersAct` gives the turn as
      (c·x − s·y, s·x + c·y)) and puts the centroid at (0.6, 0.3) from where it was,
      whatever the angle. */
  lemma RotateAboutCentroid(p1: Point, p2: Point, p3: Point, c: real, s: real)
    ensures var k := Centroid(p1, p2, p3);
      var r := RotateTriangle(p1, p2, p3, c, s);
      && |r| == 3
      && (forall i :: 0 <= i < 3 ==> var q := [p1, p2, p3][i];
            r[i] == Offset(Apply(RotateMat(c, s), Sub(q, k)), k.x + 0.6, k.y + 0.3))
      && Centroid(r[0], r[1], r[2]) == Offset(k, 0.6, 0.3)
  {
    PivotTriangle(RotateMat(c, s), Point(0.6, 0.3), p1, p2, p3);
  }

  /** `shear` first moves by (0.6, −0.3) and then shears. */
  lemma ShearAfterMove(p1: Point, p2: Point, p3: Point, shx: real, shy: real)
    ensures var r := ShearTriangle(p1, p2, p3, shx, shy);
      && |r| == 3
      && forall i :: 0 <= i < 3 ==> var q := Offset([p1, p2, p3][i], 0.6, -0.3);
           r[i] == Point(q.x + shx * q.y, shy * q.x + q.y)
  {
    var r := ShearTriangle(p1, p2, p3, shx, shy);
    ShearMovePoint(p1, shx, shy);
    ShearMovePoint(p2, shx, shy);
    ShearMovePoint(p3, shx, shy);
    var m := Mul(ShearMat(shx, shy), TranslateMat(0.6, -0.3));
    assert r == [Apply(m, p1), Apply(m, p2), Apply(m, p3)];
    var q1 := Offset(p1, 0.6, -0.3);
    assert r[0] == Point(q1.x + shx * q1.y, shy * q1.x + q1.y);
  }

  /** One vertex of `shear`: moved by (0.6, −0.3), then sheared. */
  lemma ShearMovePoint(p: Point, shx: real, shy: real)
    ensures var q := Offset(p, 0.6, -0.3);
      Apply(Mul(ShearMat(shx, shy), TranslateMat(0.6, -0.3)), p) == Point(q.x + shx * q.y, shy * q.x + q.y)
  {
    var q := Offset(p, 0.6, -0.3);
    ApplyMul(ShearMat(shx, shy), TranslateMat(0.6, -0.3), p);
    assert Apply(TranslateMat(0.6, -0.3), p) == q;
    assert Apply(ShearMat(shx, shy), q) == Point(q.x + shx * q.y, shy * q.x + q.y);
  }

  /** `reflectX` negates y and `reflectY` negates x; reflecting the reflected triangle
      gives the original back. */
  lemma ReflectionsNegate(p1: Point, p2: Point, p3: Point)
    ensures ReflectXTriangle(p1, p2, p3) == [Point(p1.x, -p1.y), Point(p2.x, -p2.y), Point(p3.x, -p3.y)]
    ensures ReflectYTriangle(p1, p2, p3) == [Point(-p1.x, p1.y), Point(-p2.x, p2.y), Point(-p3.x, p3.y)]
    ensures var r := ReflectXTriangle(p1, p2, p3); ReflectXTriangle(r[0], r[1], r[2]) == [p1, p2, p3]
    ensures var r := ReflectYTriangle(p1, p2, p3); ReflectYTriangle(r[0], r[1], r[2]) == [p1, p2, p3]
  {
    ReflectTwice(p1);
    ReflectTwice(p2);
    ReflectTwice(p3);
  }

  /** The globals `currentMode` and `animationTime` that `keyboard` updates. */
  class ModeState {
    var currentMode: TransformMode
    var animationTime: real

    constructor()
      ensures currentMode == Original && animationTime == 0.0
    {
      currentMode := Original;
      animationTime := 0.0;
    }

    /** `keyboard`: '1'–'6' select their mode, '0' selects the original and resets
        `animationTime`, ESC asks to quit, and every other key changes nothing. */
    method Keyboard(key: char) returns (quit: bool)
      modifies this
      ensures currentMode == KeyMode(old(currentMode), key)
      ensures animationTime == if key == '0' then 0.0 else old(animationTime)
      ensures quit <==> key == Escape
    {
      quit := false;
      match key {
        case '1' => currentMode := Translate;
        case '2' => currentMode := Scale;
        case '3' => currentMode := Rotate;
        case '4' => currentMode := Shear;
        case '5' => currentMode := ReflectX;
        case '6' => currentMode := ReflectY;
        case '0' =>
          currentMode := Original;
          animationTime := 0.0;
        case _ =>
          if key == Escape {
            quit := true;
          }
      }
    }
  }
}
