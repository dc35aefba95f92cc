/** Cohen–Sutherland line clipping (Lab4/CohenSutherLand.cpp): region codes, trivial
    accept and reject, and the loop that moves an outside endpoint onto a window edge. */
module CohenSutherland {
  import opened Geometry

  /** Region codes: one bit per side of the window the point lies beyond. */
  const Inside: bv4 := 0
  const Left: bv4 := 1
  const Right: bv4 := 2
  const Bottom: bv4 := 4
  const Top: bv4 := 8

  /** The clipping window [−0.5, 0.5] × [−0.5, 0.5]. */
  const Win := Window(-0.5, -0.5, 0.5, 0.5)

  /** `computeCode`: Left or Right by x, Bottom or Top by y. */
  function ComputeCode(x: real, y: real): (code: bv4)
    ensures code == Inside <==> Win.Contains(Point(x, y))
    ensures code & (Left | Right) != Left | Right && code & (Bottom | Top) != Bottom | Top
  {
    var h := if x < Win.xMin then Left else if x > Win.xMax then Right else Inside;
    var v := if y < Win.yMin then Bottom else if y > Win.yMax then Top else Inside;
    h | v
  }

  function Code(p: Point): bv4
  {
    ComputeCode(p.x, p.y)
  }

  /** Each bit of the code means the point is beyond that side. */
  lemma CodeBits(p: Point)
    ensures Code(p) & Left != 0 <==> p.x < Win.xMin
    ensures Code(p) & Right != 0 <==> p.x > Win.xMax
    ensures Code(p) & Bottom != 0 <==> p.y < Win.yMin
    ensures Code(p) & Top != 0 <==> p.y > Win.yMax
    ensures Code(p) == Inside <==> Win.Contains(p)
  {
  }

  /** The side the loop clips against: the first of Top, Bottom, Right, Left in `codeOut`. */
  function Chosen(codeOut: bv4): (side: bv4)
    requires codeOut != 0
    ensures side & codeOut != 0
    ensures side == Top || side == Bottom || side == Right || side == Left
  {
    if codeOut & Top != 0 then Top
    else if codeOut & Bottom != 0 then Bottom
    else if codeOut & Right != 0 then Right
    else Left
  }

  /** Neither trivial case applies and `codeOut` is the code of an outside endpoint. */
  predicate Straddles(p1: Point, p2: Point, codeOut: bv4)
  {
    && Code(p1) & Code(p2) == 0
    && codeOut != 0
    && (codeOut == Code(p1) || codeOut == Code(p2))
  }

  /** Exactly one endpoint is beyond the chosen side, so the segment is not parallel to it. */
  lemma StraddlesApart(p1: Point, p2: Point, codeOut: bv4)
    requires Straddles(p1, p2, codeOut)
    ensures (Code(p1) & Chosen(codeOut) != 0) != (Code(p2) & Chosen(codeOut) != 0)
    ensures Chosen(codeOut) == Top || Chosen(codeOut) == Bottom ==> p1.y != p2.y
    ensures Chosen(codeOut) == Right || Chosen(codeOut) == Left ==> p1.x != p2.x
  {
    CodeBits(p1);
    CodeBits(p2);
  }

  /** The intersection the loop computes with the chosen side (the four formulas of
      `cohenSutherlandClip`, in terms of the current endpoints). */
  function Crossing(p1: Point, p2: Point, codeOut: bv4): Point
    requires Straddles(p1, p2, codeOut)
  {
    StraddlesApart(p1, p2, codeOut);
    var side := Chosen(codeOut);
    if side == Top then Point(Interp(p1.x, p2.x, p1.y, p2.y, Win.yMax), Win.yMax)
    else if side == Bottom then Point(Interp(p1.x, p2.x, p1.y, p2.y, Win.yMin), Win.yMin)
    else if side == Right then Point(Win.xMax, Interp(p1.y, p2.y, p1.x, p2.x, Win.xMax))
    else Point(Win.xMin, Interp(p1.y, p2.y, p1.x, p2.x, Win.xMin))
  }

  /** The source's crossing formula: the coordinate v where the segment reaches u = m. */
  function Interp(v1: real, v2: real, u1: real, u2: real, m: real): real
    requires u1 != u2
  {
    v1 + (v2 - v1) * (m - u1) / (u2 - u1)
  }

  /** The window boundary of a side: the coordinate it constrains and its bound. */
  function Axis(p: Point, side: bv4): real
  {
    if side == Top || side == Bottom then p.y else p.x
  }

  function Bound(side: bv4): real
  {
    if side == Top then Win.yMax else if side == Bottom then Win.yMin
    else if side == Right then Win.xMax else Win.xMin
  }

  /** The parameter along p1→p2 where the segment meets the chosen side's boundary. */
  function CrossParam(p1: Point, p2: Point, codeOut: bv4): real
    requires Straddles(p1, p2, codeOut)
  {
    StraddlesApart(p1, p2, codeOut);
    var side := Chosen(codeOut);
    (Bound(side) - Axis(p1, side)) / (Axis(p2, side) - Axis(p1, side))
  }

  /** The ratio (m − u1)/(u2 − u1) is in [0, 1] when m lies between u1 and u2, and the
      crossing formula v1 + (v2 − v1)(m − u1)/(u2 − u1) is the interpolation at it. */
  lemma AxisCrossing(u1: real, u2: real, v1: real, v2: real, m: real)
    requires u1 != u2 && InBetween(u1, m, u2)
    ensures var s := (m - u1) / (u2 - u1);
      && 0.0 <= s <= 1.0
      && u1 + s * (u2 - u1) == m
      && Interp(v1, v2, u1, u2, m) == v1 + s * (v2 - v1)
  {
    var e, f := m - u1, u2 - u1;
    var s := e / f;
    assert s * f == e;
    assert (v2 - v1) * e / f == s * (v2 - v1) by {
      assert (v2 - v1) * e == (s * (v2 - v1)) * f;
    }
    if f > 0.0 {
      UnitRatio(e, f);
    } else {
      UnitRatio(-e, -f);
      assert (-e) / (-f) == s;
    }
  }

  /** Crossing a horizontal boundary y = m, by the source's formula, is interpolating. */
  lemma HorizontalCrossing(p1: Point, p2: Point, m: real)
    requires p1.y != p2.y && InBetween(p1.y, m, p2.y)
    ensures var s := (m - p1.y) / (p2.y - p1.y);
      && 0.0 <= s <= 1.0
      && Point(Interp(p1.x, p2.x, p1.y, p2.y, m), m) == Lerp(p1, p2, s)
  {
    AxisCrossing(p1.y, p2.y, p1.x, p2.x, m);
  }

  /** Crossing a vertical boundary x = m, by the source's formula, is interpolating. */
  lemma VerticalCrossing(p1: Point, p2: Point, m: real)
    requires p1.x != p2.x && InBetween(p1.x, m, p2.x)
    ensures var s := (m - p1.x) / (p2.x - p1.x);
      && 0.0 <= s <= 1.0
      && Point(m, Interp(p1.y, p2.y, p1.x, p2.x, m)) == Lerp(p1, p2, s)
  {
    AxisCrossing(p1.x, p2.x, p1.y, p2.y, m);
  }

  /** Clipping against Top: the crossing is the point of p1→p2 where y = yMax. */
  lemma CrossingTop(p1: Point, p2: Point, codeOut: bv4)
    requires Straddles(p1, p2, codeOut) && Chosen(codeOut) == Top
    ensures Crossing(p1, p2, codeOut) == Point(Interp(p1.x, p2.x, p1.y, p2.y, Win.yMax), Win.yMax)
    ensures CrossParam(p1, p2, codeOut) == (Win.yMax - p1.y) / (p2.y - p1.y)
  {
  }

  /** Clipping against Bottom: the crossing is the point of p1→p2 where y = yMin. */
  lemma CrossingBottom(p1: Point, p2: Point, codeOut: bv4)
    requires Straddles(p1, p2, codeOut) && Chosen(codeOut) == Bottom
    ensures Crossing(p1, p2, codeOut) == Point(Interp(p1.x, p2.x, p1.y, p2.y, Win.yMin), Win.yMin)
    ensures CrossParam(p1, p2, codeOut) == (Win.yMin - p1.y) / (p2.y - p1.y)
  {
  }

  /** Clipping against Right: the crossing is the point of p1→p2 where x = xMax. */
  lemma CrossingRight(p1: Point, p2: Point, codeOut: bv4)
    requires Straddles(p1, p2, codeOut) && Chosen(codeOut) == Right
    ensures Crossing(p1, p2, codeOut) == Point(Win.xMax, Interp(p1.y, p2.y, p1.x, p2.x, Win.xMax))
    ensures CrossParam(p1, p2, codeOut) == (Win.xMax - p1.x) / (p2.x - p1.x)
  {
  }

  /** Clipping against Left: the crossing is the point of p1→p2 where x = xMin. */
  lemma CrossingLeft(p1: Point, p2: Point, codeOut: bv4)
    requires Straddles(p1, p2, codeOut) && Chosen(codeOut) == Left
    ensures Crossing(p1, p2, codeOut) == Point(Win.xMin, Interp(p1.y, p2.y, p1.x, p2.x, Win.xMin))
    ensures CrossParam(p1, p2, codeOut) == (Win.xMin - p1.x) / (p2.x - p1.x)
  {
  }

  /** The chosen side's bound lies between the endpoints' coordinates, which differ. */
  lemma BoundBetween(p1: Point, p2: Point, codeOut: bv4)
    requires Straddles(p1, p2, codeOut)
    ensures Chosen(codeOut) == Top ==> p1.y != p2.y && InBetween(p1.y, Win.yMax, p2.y)
    ensures Chosen(codeOut) == Bottom ==> p1.y != p2.y && InBetween(p1.y, Win.yMin, p2.y)
    ensures Chosen(codeOut) == Right ==> p1.x != p2.x && InBetween(p1.x, Win.xMax, p2.x)
    ensures Chosen(codeOut) == Left ==> p1.x != p2.x && InBetween(p1.x, Win.xMin, p2.x)
  {
    StraddlesApart(p1, p2, codeOut);
    CodeBits(p1);
    CodeBits(p2);
  }

  /** The computed intersection is the point of p1→p2 at `CrossParam`, it lies on the
      chosen side's boundary, and that parameter is in [0, 1]. */
  lemma CrossingIsLerp(p1: Point, p2: Point, codeOut: bv4)
    requires Straddles(p1, p2, codeOut)
    ensures 0.0 <= CrossParam(p1, p2, codeOut) <= 1.0
    ensures Crossing(p1, p2, codeOut) == Lerp(p1, p2, CrossParam(p1, p2, codeOut))
    ensures Axis(Crossing(p1, p2, codeOut), Chosen(codeOut)) == Bound(Chosen(codeOut))
  {
    var side := Chosen(codeOut);
    BoundBetween(p1, p2, codeOut);
    if side == Top {
      CrossingTop(p1, p2, codeOut);
      HorizontalCrossing(p1, p2, Win.yMax);
    } else if side == Bottom {
      CrossingBottom(p1, p2, codeOut);
      HorizontalCrossing(p1, p2, Win.yMin);
    } else if side == Right {
      CrossingRight(p1, p2, codeOut);
      VerticalCrossing(p1, p2, Win.xMax);
    } else {
      CrossingLeft(p1, p2, codeOut);
      VerticalCrossing(p1, p2, Win.xMin);
    }
  }

  /** The new endpoint is beyond no side that neither endpoint was beyond, and not beyond
      the chosen side. */
  lemma CrossingCode(p1: Point, p2: Point, codeOut: bv4)
    requires Straddles(p1, p2, codeOut)
    ensures Code(Crossing(p1, p2, codeOut)) & !(Code(p1) | Code(p2)) == 0
    ensures Code(Crossing(p1, p2, codeOut)) & Chosen(codeOut) == 0
  {
    var n := Crossing(p1, p2, codeOut);
    CrossingIsLerp(p1, p2, codeOut);
    LerpBetween(p1, p2, CrossParam(p1, p2, codeOut));
    CodeBits(p1);
    CodeBits(p2);
    CodeBits(n);
  }

  /** The number of sides a code names. */
  function Weight(c: bv4): nat
  {
    (if c & Left != 0 then 1 else 0) + (if c & Right != 0 then 1 else 0)
    + (if c & Bottom != 0 then 1 else 0) + (if c & Top != 0 then 1 else 0)
  }

  /** The union of the two codes loses the chosen bit and gains none: the loop's measure. */
  lemma CodesShrink(n: bv4, c1: bv4, c2: bv4, side: bv4)
    requires side == Top || side == Bottom || side == Right || side == Left
    requires n & !(c1 | c2) == 0 && n & side == 0 && c1 & side != 0 && c2 & side == 0
    ensures Weight(n | c2) < Weight(c1 | c2)
  {
  }

  /** Along an affine function c + t·k: if it is above m at tp and equals m at tq, it is
      above m everywhere from tp up to (not including) tq. */
  lemma AffineAbove(c: real, k: real, tp: real, tq: real, t: real, m: real)
    requires c + tp * k > m && c + tq * k == m
    requires tp <= t < tq || tq < t <= tp
    ensures c + t * k > m
  {
    assert (c + tp * k) - m == (tp - tq) * k;
    assert (c + t * k) - m == (t - tq) * k;
    if tp < tq {
      assert k < 0.0;
    } else {
      assert k > 0.0;
    }
  }

  lemma AffineBelow(c: real, k: real, tp: real, tq: real, t: real, m: real)
    requires c + tp * k < m && c + tq * k == m
    requires tp <= t < tq || tq < t <= tp
    ensures c + t * k < m
  {
    AffineAbove(-c, -k, tp, tq, t, -m);
  }

  /** p is strictly beyond the boundary of `side`: above the upper bounds of Top and
      Right, below the lower bounds of Bottom and Left. */
  predicate Beyond(p: Point, side: bv4)
  {
    if side == Top || side == Right then Axis(p, side) > Bound(side) else Axis(p, side) < Bound(side)
  }

  /** A point beyond a side is outside the window. */
  lemma BeyondOutside(p: Point, side: bv4)
    requires Beyond(p, side)
    ensures !Win.Contains(p)
  {
  }

  /** A code bit of one of the four sides means the point is beyond that side. */
  lemma BeyondFromCode(p: Point, side: bv4)
    requires side == Top || side == Bottom || side == Right || side == Left
    requires Code(p) & side != 0
    ensures Beyond(p, side)
  {
    CodeBits(p);
  }

  /** The part of a→b from tp (beyond `side`) up to tq (on `side`'s boundary) is beyond
      `side`, so none of it is visible. */
  lemma CutOff(a: Point, b: Point, tp: real, tq: real, t: real, side: bv4)
    requires Beyond(Lerp(a, b, tp), side) && Axis(Lerp(a, b, tq), side) == Bound(side)
    requires tp <= t < tq || tq < t <= tp
    ensures !Win.Contains(Lerp(a, b, t))
  {
    var c, k := Axis(a, side), Axis(b, side) - Axis(a, side);
    AxisAlong(a, b, tp, side);
    AxisAlong(a, b, tq, side);
    AxisAlong(a, b, t, side);
    AffineBeyond(side == Top || side == Right, c, k, tp, tq, t, Bound(side),
                 Axis(Lerp(a, b, tp), side), Axis(Lerp(a, b, tq), side), Axis(Lerp(a, b, t), side));
    BeyondOutside(Lerp(a, b, t), side);
  }

  /** AffineAbove and AffineBelow on the values vp, vq, vt of c + t·k at tp, tq and t. */
  lemma AffineBeyond(up: bool, c: real, k: real, tp: real, tq: real, t: real, m: real,
                     vp: real, vq: real, vt: real)
    requires vp == c + tp * k && vq == c + tq * k && vt == c + t * k && vq == m
    requires if up then vp > m else vp < m
    requires tp <= t < tq || tq < t <= tp
    ensures if up then vt > m else vt < m
  {
    if up {
      AffineAbove(c, k, tp, tq, t, m);
    } else {
      AffineBelow(c, k, tp, tq, t, m);
    }
  }

  /** The constrained coordinate of a point of a→b is the interpolation of the endpoints'. */
  lemma AxisAlong(a: Point, b: Point, t: real, side: bv4)
    ensures Axis(Lerp(a, b, t), side) == Axis(a, side) + t * (Axis(b, side) - Axis(a, side))
  {
  }

  /** The loop state: the current endpoints are the points of a→b at t1 ≤ t2, and every
      visible parameter of a→b lies in [t1, t2]. */
  ghost predicate Tracks(a: Point, b: Point, t1: real, t2: real, p1: Point, p2: Point)
  {
    && 0.0 <= t1 <= t2 <= 1.0
    && p1 == Lerp(a, b, t1) && p2 == Lerp(a, b, t2)
    && forall t :: Visible(Win, a, b, t) ==> t1 <= t <= t2
  }

  /** A parameter s ∈ [0, 1] of the sub-segment t1..t2 is a parameter in [t1, t2]. */
  lemma ParamBetween(t1: real, t2: real, s: real)
    requires t1 <= t2 && 0.0 <= s <= 1.0
    ensures t1 <= t1 + s * (t2 - t1) <= t2
  {
    MulNonneg(s, t2 - t1);
    MulNonneg(1.0 - s, t2 - t1);
  }

  /** A point at parameter s ∈ [0, 1] of the sub-segment t1..t2 of a→b is the point of
      a→b at t1 + s·(t2 − t1), which lies in [t1, t2]. */
  lemma SubSegment(a: Point, b: Point, t1: real, t2: real, s: real, t': real, n: Point)
    requires t1 <= t2 && 0.0 <= s <= 1.0 && n == Lerp(Lerp(a, b, t1), Lerp(a, b, t2), s)
    requires t' == t1 + s * (t2 - t1)
    ensures t1 <= t' <= t2 && n == Lerp(a, b, t')
  {
    LerpCompose(a, b, t1, t2, s);
    ParamBetween(t1, t2, s);
  }

  /** Moving the first endpoint from p1 at t1 (beyond `side`) to n at t' (on `side`'s
      boundary) keeps every visible parameter in the tracked interval. */
  lemma ReplaceFirst(a: Point, b: Point, t1: real, t2: real, p1: Point, p2: Point, t': real, n: Point, side: bv4)
    requires Tracks(a, b, t1, t2, p1, p2) && t1 <= t' <= t2 && n == Lerp(a, b, t')
    requires Beyond(p1, side) && Axis(n, side) == Bound(side)
    ensures Tracks(a, b, t', t2, n, p2)
  {
    forall t | Visible(Win, a, b, t)
      ensures t' <= t
    {
      if t < t' {
        CutOff(a, b, t1, t', t, side);
      }
    }
  }

  /** Moving the second endpoint from p2 at t2 (beyond `side`) to n at t' (on `side`'s
      boundary) keeps every visible parameter in the tracked interval. */
  lemma ReplaceSecond(a: Point, b: Point, t1: real, t2: real, p1: Point, p2: Point, t': real, n: Point, side: bv4)
    requires Tracks(a, b, t1, t2, p1, p2) && t1 <= t' <= t2 && n == Lerp(a, b, t')
    requires Beyond(p2, side) && Axis(n, side) == Bound(side)
    ensures Tracks(a, b, t1, t', p1, n)
  {
    forall t | Visible(Win, a, b, t)
      ensures t <= t'
    {
      if t > t' {
        CutOff(a, b, t2, t', t, side);
      }
    }
  }

  /** One pass that moves the first endpoint to n, the point at s of the current segment
      on `side`'s boundary: the new state still tracks the visible part. */
  lemma StepFirst(a: Point, b: Point, t1: real, t2: real, p1: Point, p2: Point, s: real, n: Point, side: bv4)
    requires Tracks(a, b, t1, t2, p1, p2)
    requires side == Top || side == Bottom || side == Right || side == Left
    requires Code(p1) & side != 0 && Axis(n, side) == Bound(side)
    requires 0.0 <= s <= 1.0 && n == Lerp(p1, p2, s)
    ensures Tracks(a, b, t1 + s * (t2 - t1), t2, n, p2)
  {
    var t' := t1 + s * (t2 - t1);
    SubSegment(a, b, t1, t2, s, t', n);
    BeyondFromCode(p1, side);
    ReplaceFirst(a, b, t1, t2, p1, p2, t', n, side);
  }

  /** One pass that moves the second endpoint to n, the point at s of the current segment
      on `side`'s boundary: the new state still tracks the visible part. */
  lemma StepSecond(a: Point, b: Point, t1: real, t2: real, p1: Point, p2: Point, s: real, n: Point, side: bv4)
    requires Tracks(a, b, t1, t2, p1, p2)
    requires side == Top || side == Bottom || side == Right || side == Left
    requires Code(p2) & side != 0 && Axis(n, side) == Bound(side)
    requires 0.0 <= s <= 1.0 && n == Lerp(p1, p2, s)
    ensures Tracks(a, b, t1, t1 + s * (t2 - t1), p1, n)
  {
    var t' := t1 + s * (t2 - t1);
    SubSegment(a, b, t1, t2, s, t', n);
    BeyondFromCode(p2, side);
    ReplaceSecond(a, b, t1, t2, p1, p2, t', n, side);
  }

  /** Each pass of the loop removes the chosen bit from the union of the two codes and
      adds none: the loop terminates. */
  lemma CrossingShrinks(p1: Point, p2: Point, codeOut: bv4)
    requires Straddles(p1, p2, codeOut)
    ensures var n := Code(Crossing(p1, p2, codeOut));
      && (codeOut == Code(p1) ==> Weight(n | Code(p2)) < Weight(Code(p1) | Code(p2)))
      && (codeOut == Code(p2) ==> Weight(Code(p1) | n) < Weight(Code(p1) | Code(p2)))
  {
    var n := Code(Crossing(p1, p2, codeOut));
    var side := Chosen(codeOut);
    CrossingCode(p1, p2, codeOut);
    StraddlesApart(p1, p2, codeOut);
    if codeOut == Code(p1) {
      CodesShrink(n, Code(p1), Code(p2), side);
    } else {
      CodesShrink(n, Code(p2), Code(p1), side);
      assert Code(p1) | n == n | Code(p1) && Code(p1) | Code(p2) == Code(p2) | Code(p1);
    }
  }

  /** A point of a→b between the parameters t1 ≤ t2 is a point of the sub-segment. */
  lemma BetweenParams(a: Point, b: Point, t1: real, t2: real, t: real)
    requires t1 <= t <= t2
    ensures exists s :: 0.0 <= s <= 1.0 && Lerp(a, b, t) == Lerp(Lerp(a, b, t1), Lerp(a, b, t2), s)
  {
    if t1 == t2 {
      LerpEnds(Lerp(a, b, t1), Lerp(a, b, t2));
      assert Lerp(a, b, t) == Lerp(Lerp(a, b, t1), Lerp(a, b, t2), 0.0);
    } else {
      var s := (t - t1) / (t2 - t1);
      assert s * (t2 - t1) == t - t1;
      UnitRatio(t - t1, t2 - t1);
      LerpCompose(a, b, t1, t2, s);
    }
  }

  /** Trivial accept: both endpoints inside means the tracked interval is the visible part. */
  lemma AcceptIsVisiblePart(a: Point, b: Point, t1: real, t2: real, p1: Point, p2: Point)
    requires Tracks(a, b, t1, t2, p1, p2) && Win.Contains(p1) && Win.Contains(p2)
    ensures Visible(Win, a, b, t1)
    ensures ClippedTo(Win, a, b, p1, p2)
  {
    forall t | 0.0 <= t <= 1.0
      ensures Win.Contains(Lerp(a, b, t)) <==> t1 <= t <= t2
    {
      if Win.Contains(Lerp(a, b, t)) {
        assert Visible(Win, a, b, t);
      }
      if t1 <= t <= t2 {
        BetweenParams(a, b, t1, t2, t);
        var s :| 0.0 <= s <= 1.0 && Lerp(a, b, t) == Lerp(p1, p2, s);
        WindowConvex(Win, p1, p2, s);
      }
    }
  }

  /** Trivial reject: both endpoints beyond one side means nothing of a→b is visible. */
  lemma RejectIsInvisible(a: Point, b: Point, t1: real, t2: real, p1: Point, p2: Point)
    requires Tracks(a, b, t1, t2, p1, p2) && Code(p1) & Code(p2) != 0
    ensures forall t :: !Visible(Win, a, b, t)
  {
    CodeBits(p1);
    CodeBits(p2);
    forall t | Visible(Win, a, b, t)
      ensures false
    {
      BetweenParams(a, b, t1, t2, t);
      var s :| 0.0 <= s <= 1.0 && Lerp(a, b, t) == Lerp(p1, p2, s);
      LerpBetween(p1, p2, s);
    }
  }

  /** The loop of `cohenSutherlandClip` from the endpoints p1, p2: whether it accepts, and
      the endpoints it leaves behind. */
  function Passes(p1: Point, p2: Point): (bool, Point, Point)
    decreases Weight(Code(p1) | Code(p2))
  {
    if Code(p1) == 0 && Code(p2) == 0 then (true, p1, p2)
    else if Code(p1) & Code(p2) != 0 then (false, p1, p2)
    else
      var codeOut := if Code(p1) != 0 then Code(p1) else Code(p2);
      var n := Crossing(p1, p2, codeOut);
      CrossingShrinks(p1, p2, codeOut);
      if codeOut == Code(p1) then Passes(n, p2) else Passes(p1, n)
  }

  /** From any state that tracks the visible part of a→b, the loop accepts exactly when
      a→b has a visible point, and then stops at the visible part. */
  lemma {:induction false} PassesCorrect(a: Point, b: Point, t1: real, t2: real, p1: Point, p2: Point)
    requires Tracks(a, b, t1, t2, p1, p2)
    ensures Passes(p1, p2).0 <==> exists t :: Visible(Win, a, b, t)
    ensures Passes(p1, p2).0 ==> ClippedTo(Win, a, b, Passes(p1, p2).1, Passes(p1, p2).2)
    decreases Weight(Code(p1) | Code(p2))
  {
    if Code(p1) == 0 && Code(p2) == 0 {
      CodeBits(p1);
      CodeBits(p2);
      AcceptIsVisiblePart(a, b, t1, t2, p1, p2);
    } else if Code(p1) & Code(p2) != 0 {
      RejectIsInvisible(a, b, t1, t2, p1, p2);
    } else {
      var codeOut := if Code(p1) != 0 then Code(p1) else Code(p2);
      var n := Crossing(p1, p2, codeOut);
      var s := CrossParam(p1, p2, codeOut);
      CrossingIsLerp(p1, p2, codeOut);
      CrossingShrinks(p1, p2, codeOut);
      if codeOut == Code(p1) {
        StepFirst(a, b, t1, t2, p1, p2, s, n, Chosen(codeOut));
        PassesCorrect(a, b, t1 + s * (t2 - t1), t2, n, p2);
      } else {
        StepSecond(a, b, t1, t2, p1, p2, s, n, Chosen(codeOut));
        PassesCorrect(a, b, t1, t1 + s * (t2 - t1), p1, n);
      }
    }
  }

  /** Accepted endpoints are in the window. */
  lemma {:induction false} PassesInside(p1: Point, p2: Point)
    ensures Passes(p1, p2).0 ==> Win.Contains(Passes(p1, p2).1) && Win.Contains(Passes(p1, p2).2)
    decreases Weight(Code(p1) | Code(p2))
  {
    CodeBits(p1);
    CodeBits(p2);
    if !(Code(p1) == 0 && Code(p2) == 0) && Code(p1) & Code(p2) == 0 {
      var codeOut := if Code(p1) != 0 then Code(p1) else Code(p2);
      var n := Crossing(p1, p2, codeOut);
      CrossingShrinks(p1, p2, codeOut);
      if codeOut == Code(p1) {
        PassesInside(n, p2);
      } else {
        PassesInside(p1, n);
      }
    }
  }

  /** `cohenSutherlandClip`: the reference parameters become inputs and outputs. It runs
      the loop `Passes` describes; it accepts exactly when some point of the segment is in
      the window, and then returns the visible part of the segment. */
  method CohenSutherlandClip(x1: real, y1: real, x2: real, y2: real)
    returns (accept: bool, ox1: real, oy1: real, ox2: real, oy2: real)
    ensures (accept, Point(ox1, oy1), Point(ox2, oy2)) == Passes(Point(x1, y1), Point(x2, y2))
    ensures accept <==> exists t :: Visible(Win, Point(x1, y1), Point(x2, y2), t)
    ensures accept ==> Win.Contains(Point(ox1, oy1)) && Win.Contains(Point(ox2, oy2))
    ensures accept ==> ClippedTo(Win, Point(x1, y1), Point(x2, y2), Point(ox1, oy1), Point(ox2, oy2))
  {
    ox1, oy1, ox2, oy2 := x1, y1, x2, y2;
    var code1 := ComputeCode(ox1, oy1);
    var code2 := ComputeCode(ox2, oy2);
    accept := false;
    while true
      invariant code1 == Code(Point(ox1, oy1)) && code2 == Code(Point(ox2, oy2))
      invariant Passes(Point(ox1, oy1), Point(ox2, oy2)) == Passes(Point(x1, y1), Point(x2, y2))
      invariant !accept
      decreases Weight(code1 | code2)
    {
      if code1 == 0 && code2 == 0 {
        accept := true;
        break;
      } else if code1 & code2 != 0 {
        break;
      } else {
        var codeOut := if code1 != 0 then code1 else code2;
        var n := Crossing(Point(ox1, oy1), Point(ox2, oy2), codeOut);
        var x, y := n.x, n.y;
        CrossingShrinks(Point(ox1, oy1), Point(ox2, oy2), codeOut);
        if codeOut == code1 {
          ox1, oy1 := x, y;
          code1 := ComputeCode(ox1, oy1);
        } else {
          ox2, oy2 := x, y;
          code2 := ComputeCode(ox2, oy2);
        }
      }
    }
    LerpEnds(Point(x1, y1), Point(x2, y2));
    PassesCorrect(Point(x1, y1), Point(x2, y2), 0.0, 1.0, Point(x1, y1), Point(x2, y2));
    PassesInside(Point(x1, y1), Point(x2, y2));
  }
}
