/** Lab3/2DComposite.cpp: matrix builders that fill caller-owned 3×3 arrays, and the
    composite chain the display draws (translate; rotate about the centroid; scale about the
    centroid; shear). */
module Composite2D {
  import opened Geometry
  import opened Affine

  /** `Identity`: 1 on the diagonal and 0 elsewhere. */
  method Identity(m: array2<real>)
    requires Is3x3(m)
    modifies m
    ensures forall i, j :: 0 <= i < 3 && 0 <= j < 3 ==> m[i, j] == (if i == j then 1.0 else 0.0)
    ensures ToMat(m) == IdentityMat()
  {
    for i := 0 to 3
      invariant forall r, c :: 0 <= r < i && 0 <= c < 3 ==> m[r, c] == (if r == c then 1.0 else 0.0)
    {
      for j := 0 to 3
        invariant forall r, c :: 0 <= r < 3 && 0 <= c < 3 && (r < i || (r == i && c < j)) ==>
          m[r, c] == (if r == c then 1.0 else 0.0)
      {
        m[i, j] := if i == j then 1.0 else 0.0;
      }
    }
    EntriesToMat(m, IdentityMat());
  }

  /** `translate`: the identity with (tx, ty) in the last column. */
  method Translate(t: array2<real>, tx: real, ty: real)
    requires Is3x3(t)
    modifies t
    ensures ToMat(t) == TranslateMat(tx, ty)
  {
    Identity(t);
    t[0, 2] := tx;
    t[1, 2] := ty;
  }

  /** `scale`: the identity with (sx, sy) on the diagonal. */
  method Scale(s: array2<real>, sx: real, sy: real)
    requires Is3x3(s)
    modifies s
    ensures ToMat(s) == ScaleMat(sx, sy)
  {
    Identity(s);
    s[0, 0] := sx;
    s[1, 1] := sy;
  }

  /** `rotate`, with c and s standing for cos θ and sin θ. */
  method Rotate(r: array2<real>, c: real, s: real)
    requires Is3x3(r)
    modifies r
    ensures ToMat(r) == RotateMat(c, s)
  {
    Identity(r);
    r[0, 0] := c;
    r[0, 1] := -s;
    r[1, 0] := s;
    r[1, 1] := c;
  }

  /** `shear`: the identity with shx above and shy below the diagonal. */
  method Shear(sh: array2<real>, shx: real, shy: real)
    requires Is3x3(sh)
    modifies sh
    ensures ToMat(sh) == ShearMat(shx, shy)
  {
    Identity(sh);
    sh[0, 1] := shx;
    sh[1, 0] := shy;
  }

  /** q turned by l about the pivot k, then moved by d. */
  function AboutPivot(l: Mat3, k: Point, d: Point, q: Point): Point
  {
    Offset(Apply(l, Sub(q, k)), k.x + d.x, k.y + d.y)
  }

  /** One stage of the chain, T(d)·T(k)·L·T(−k)·prev: each vertex's image under prev is
      turned by L about k and moved by d, and the product stays affine. */
  lemma {:induction false} StageAct(l: Mat3, k: Point, d: Point, prev: Mat3, p: Point)
    requires IsLinear(l) && IsAffine(prev)
    ensures var m := Mul(TranslateMat(d.x, d.y), Mul(TranslateMat(k.x, k.y), Mul(l, Mul(TranslateMat(-k.x, -k.y), prev))));
      && IsAffine(m)
      && Apply(m, p) == AboutPivot(l, k, d, Apply(prev, p))
  {
    var to, back, move := TranslateMat(-k.x, -k.y), TranslateMat(k.x, k.y), TranslateMat(d.x, d.y);
    var m1 := Mul(to, prev);
    var m2 := Mul(l, m1);
    var m3 := Mul(back, m2);
    ApplyMul(to, prev, p);
    MulAffine(to, prev);
    ApplyMul(l, m1, p);
    MulAffine(l, m1);
    ApplyMul(back, m2, p);
    MulAffine(back, m2);
    ApplyMul(move, m3, p);
    MulAffine(move, m3);
  }

  /** Turning about the centroid and moving by d moves the centroid by d. */
  lemma PivotCentroid(l: Mat3, d: Point, q1: Point, q2: Point, q3: Point)
    requires IsLinear(l)
    ensures var k := Centroid(q1, q2, q3);
      Centroid(AboutPivot(l, k, d, q1), AboutPivot(l, k, d, q2), AboutPivot(l, k, d, q3)) == Offset(k, d.x, d.y)
  {
    var k := Centroid(q1, q2, q3);
    var p := Mul(TranslateMat(d.x, d.y), Mul(TranslateMat(k.x, k.y), Mul(l, TranslateMat(-k.x, -k.y))));
    PivotAct(l, k, d, q1);
    PivotAct(l, k, d, q2);
    PivotAct(l, k, d, q3);
    PivotAct(l, k, d, k);
    CentroidCommutes(p, q1, q2, q3);
    LinearFixesOrigin(l);
    assert Sub(k, k) == Point(0.0, 0.0);
  }

  /** Steps 2 and 3 of the chain: the product T(d)·T(k)·L·T(−k)·prev, built from fresh
      translation arrays and multiplied right to left as the display does. The resulting
      matrix turns each image of prev by L about k and then moves it by d. */
  method PivotStage(prev: array2<real>, lin: array2<real>, k: Point, d: Point) returns (result: array2<real>)
    requires Is3x3(prev) && Is3x3(lin) && IsAffine(ToMat(prev)) && IsLinear(ToMat(lin))
    ensures fresh(result) && Is3x3(result) && IsAffine(ToMat(result))
    ensures forall p :: Apply(ToMat(result), p) == AboutPivot(ToMat(lin), k, d, Apply(ToMat(prev), p))
  {
    ghost var pm, l := ToMat(prev), ToMat(lin);
    var toOrigin, back, move := PivotTranslations(k, d);
    ghost var t0, tb, tm := ToMat(toOrigin), ToMat(back), ToMat(move);
    var temp1, temp2, temp3 := new real[3, 3], new real[3, 3], new real[3, 3];
    result := new real[3, 3];
    MatrixMultiply(toOrigin, prev, temp1);
    ghost var m1 := ToMat(temp1);
    MatrixMultiply(lin, temp1, temp2);
    ghost var m2 := ToMat(temp2);
    MatrixMultiply(back, temp2, temp3);
    ghost var m3 := ToMat(temp3);
    MatrixMultiply(move, temp3, result);
    StageProduct(pm, l, k, d, m1, m2, m3, ToMat(result));
  }

  /** The three translation arrays of a pivot stage: to the pivot's origin, back, and on by d. */
  method PivotTranslations(k: Point, d: Point) returns (toOrigin: array2<real>, back: array2<real>, move: array2<real>)
    ensures fresh(toOrigin) && fresh(back) && fresh(move)
    ensures Is3x3(toOrigin) && Is3x3(back) && Is3x3(move)
    ensures ToMat(toOrigin) == TranslateMat(-k.x, -k.y) && ToMat(back) == TranslateMat(k.x, k.y)
    ensures ToMat(move) == TranslateMat(d.x, d.y)
  {
    toOrigin, back, move := new real[3, 3], new real[3, 3], new real[3, 3];
    Translate(toOrigin, -k.x, -k.y);
    Translate(back, k.x, k.y);
    Translate(move, d.x, d.y);
  }

  /** The four products of a pivot stage, as values. */
  lemma StageProduct(pm: Mat3, l: Mat3, k: Point, d: Point, m1: Mat3, m2: Mat3, m3: Mat3, r: Mat3)
    requires IsLinear(l) && IsAffine(pm)
    requires m1 == Mul(TranslateMat(-k.x, -k.y), pm) && m2 == Mul(l, m1)
    requires m3 == Mul(TranslateMat(k.x, k.y), m2) && r == Mul(TranslateMat(d.x, d.y), m3)
    ensures IsAffine(r)
    ensures forall p :: Apply(r, p) == AboutPivot(l, k, d, Apply(pm, p))
  {
    forall p
      ensures Apply(r, p) == AboutPivot(l, k, d, Apply(pm, p))
    {
      StageAct(l, k, d, pm, p);
    }
    StageAct(l, k, d, pm, k);
  }

  /** Step 4 of the chain: T(d)·Sh·prev. */
  method ShearStage(prev: array2<real>, shx: real, shy: real, d: Point) returns (result: array2<real>)
    requires Is3x3(prev) && IsAffine(ToMat(prev))
    ensures fresh(result) && Is3x3(result)
    ensures forall p :: Apply(ToMat(result), p) == Offset(Apply(ShearMat(shx, shy), Apply(ToMat(prev), p)), d.x, d.y)
  {
    var sh, move, temp := new real[3, 3], new real[3, 3], new real[3, 3];
    Shear(sh, shx, shy);
    Translate(move, d.x, d.y);
    result := new real[3, 3];
    MatrixMultiply(sh, prev, temp);
    MatrixMultiply(move, temp, result);
    forall p
      ensures Apply(ToMat(result), p) == Offset(Apply(ShearMat(shx, shy), Apply(ToMat(prev), p)), d.x, d.y)
    {
      ApplyMul(ShearMat(shx, shy), ToMat(prev), p);
      MulAffine(ShearMat(shx, shy), ToMat(prev));
      ApplyMul(TranslateMat(d.x, d.y), Mul(ShearMat(shx, shy), ToMat(prev)), p);
    }
  }

  /** The centroid of a three-vertex sequence. */
  function Centroid3(s: seq<Point>): Point
    requires |s| == 3
  {
    Centroid(s[0], s[1], s[2])
  }

  /** What the chain promises about the images of the four product matrices. */
  ghost predicate ChainShape(t1: Point, t2: Point, t3: Point, c: real, s: real,
                             step1: seq<Point>, step2: seq<Point>, step3: seq<Point>, step4: seq<Point>)
  {
    && |step1| == 3 && |step2| == 3 && |step3| == 3 && |step4| == 3
    && step1 == [Offset(t1, -0.65, 0.0), Offset(t2, -0.65, 0.0), Offset(t3, -0.65, 0.0)]
    && (forall i :: 0 <= i < 3 ==>
         step2[i] == AboutPivot(RotateMat(c, s), Centroid3(step1), Point(0.65, 0.62), step1[i]))
    && Centroid3(step2) == Offset(Centroid3(step1), 0.65, 0.62)
    && (forall i :: 0 <= i < 3 ==>
         step3[i] == AboutPivot(ScaleMat(1.3, 1.3), Centroid3(step2), Point(0.18, -0.62), step2[i]))
    && Centroid3(step3) == Offset(Centroid3(step2), 0.18, -0.62)
    && (forall i :: 0 <= i < 3 ==> step4[i] == Offset(Apply(ShearMat(0.8, 0.0), step3[i]), -0.18, -0.65))
  }

  /** The chain's four matrices, related as the stages build them, give that shape. */
  lemma ChainFacts(t1: Point, t2: Point, t3: Point, c: real, s: real, m1: Mat3, m2: Mat3, m3: Mat3, m4: Mat3)
    requires m1 == TranslateMat(-0.65, 0.0)
    requires forall p ::
      Apply(m2, p) == AboutPivot(RotateMat(c, s), Centroid3(Images(m1, t1, t2, t3)), Point(0.65, 0.62), Apply(m1, p))
    requires forall p ::
      Apply(m3, p) == AboutPivot(ScaleMat(1.3, 1.3), Centroid3(Images(m2, t1, t2, t3)), Point(0.18, -0.62), Apply(m2, p))
    requires forall p :: Apply(m4, p) == Offset(Apply(ShearMat(0.8, 0.0), Apply(m3, p)), -0.18, -0.65)
    ensures ChainShape(t1, t2, t3, c, s, Images(m1, t1, t2, t3), Images(m2, t1, t2, t3),
                       Images(m3, t1, t2, t3), Images(m4, t1, t2, t3))
  {
    var q1, q2 := Images(m1, t1, t2, t3), Images(m2, t1, t2, t3);
    PivotCentroid(RotateMat(c, s), Point(0.65, 0.62), q1[0], q1[1], q1[2]);
    PivotCentroid(ScaleMat(1.3, 1.3), Point(0.18, -0.62), q2[0], q2[1], q2[2]);
  }

  /** The chain of `display`: step 1 translates the triangle by (−0.65, 0); step 2 rotates
      step 1 about its centroid (c, s standing for cos 45° and sin 45°) and moves it by
      (0.65, 0.62); step 3 scales step 2 by 1.3 about its centroid and moves it by
      (0.18, −0.62); step 4 shears step 3 by 0.8 and moves it by (−0.18, −0.65). Every step
      is one product matrix applied to the original vertices. */
  method DisplayChain(t1: Point, t2: Point, t3: Point, c: real, s: real)
    returns (step1: seq<Point>, step2: seq<Point>, step3: seq<Point>, step4: seq<Point>)
    ensures ChainShape(t1, t2, t3, c, s, step1, step2, step3, step4)
  {
    // Step 1: translation.
    var tr1 := new real[3, 3];
    Translate(tr1, -0.65, 0.0);
    step1 := Images(ToMat(tr1), t1, t2, t3);

    // Step 2: rotation about the centroid of step 1, then a move.
    var k1 := Centroid(step1[0], step1[1], step1[2]);
    var rot := new real[3, 3];
    Rotate(rot, c, s);
    var result2 := PivotStage(tr1, rot, k1, Point(0.65, 0.62));
    step2 := Images(ToMat(result2), t1, t2, t3);

    // Step 3: scaling about the centroid of step 2, then a move.
    var k2 := Centroid(step2[0], step2[1], step2[2]);
    var sc := new real[3, 3];
    Scale(sc, 1.3, 1.3);
    var result3 := PivotStage(result2, sc, k2, Point(0.18, -0.62));
    step3 := Images(ToMat(result3), t1, t2, t3);

    // Step 4: shear, then a move.
    var result4 := ShearStage(result3, 0.8, 0.0, Point(-0.18, -0.65));
    step4 := Images(ToMat(result4), t1, t2, t3);
    ChainFacts(t1, t2, t3, c, s, ToMat(tr1), ToMat(result2), ToMat(result3), ToMat(result4));
  }
}
