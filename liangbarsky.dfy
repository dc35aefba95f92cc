/** Liang–Barsky parametric line clipping (Lab4/LiangBarsky.cpp). The segment is
    P1 + u·(P2 − P1), 0 ≤ u ≤ 1; each window boundary k admits the parameters with
    p_k·u ≤ q_k, and the loop narrows [u1, u2] to the parameters all four admit. */
module LiangBarsky {
  import opened Numeric
  import opened Geometry

  /** The clipping window [−0.5, 0.5] × [−0.5, 0.5]. */
  const Win := Window(-0.5, -0.5, 0.5, 0.5)

  /** The (p, q) pairs of the left, right, bottom and top boundaries, in loop order. */
  function Boundaries(a: Point, b: Point): (r: seq<(real, real)>)
    ensures |r| == 4
  {
    var dx, dy := b.x - a.x, b.y - a.y;
    [(-dx, a.x - Win.xMin), (dx, Win.xMax - a.x), (-dy, a.y - Win.yMin), (dy, Win.yMax - a.y)]
  }

  /** The boundary loop from boundary i on: `None` when a boundary parallel to the segment
      (p == 0) has it outside (q < 0); otherwise the narrowed parameter range. */
  function Narrow(pq: seq<(real, real)>, i: nat, u1: real, u2: real): Option<(real, real)>
    requires i <= |pq|
    decreases |pq| - i
  {
    if i == |pq| then Some((u1, u2))
    else
      var p, q := pq[i].0, pq[i].1;
      if p == 0.0 then
        if q < 0.0 then None else Narrow(pq, i + 1, u1, u2)
      else if p < 0.0 then Narrow(pq, i + 1, MaxR(u1, q / p), u2)
      else Narrow(pq, i + 1, u1, MinR(u2, q / p))
  }

  /** Parameter u satisfies the boundaries from i on. */
  predicate Admitted(pq: seq<(real, real)>, i: nat, u: real)
  {
    forall k :: i <= k < |pq| ==> pq[k].0 * u <= pq[k].1
  }

  /** What `liangBarskyClip` returns: the clipped endpoints when it accepts. */
  function Clip(a: Point, b: Point): Option<(Point, Point)>
  {
    match Narrow(Boundaries(a, b), 0, 0.0, 1.0)
    case None => None
    case Some(r) => if r.0 > r.1 then None else Some((Lerp(a, b, r.0), Lerp(a, b, r.1)))
  }

  /** `liangBarskyClip`: the reference parameters become inputs and outputs. On reject the
      outputs are the inputs; on accept both are computed from the original P1. */
  method LiangBarskyClip(x1: real, y1: real, x2: real, y2: real)
    returns (accept: bool, ox1: real, oy1: real, ox2: real, oy2: real)
    ensures accept <==> Clip(Point(x1, y1), Point(x2, y2)).Some?
    ensures accept ==> Clip(Point(x1, y1), Point(x2, y2)).value == (Point(ox1, oy1), Point(ox2, oy2))
    ensures !accept ==> ox1 == x1 && oy1 == y1 && ox2 == x2 && oy2 == y2
  {
    ox1, oy1, ox2, oy2 := x1, y1, x2, y2;
    ghost var pq := Boundaries(Point(x1, y1), Point(x2, y2));
    var dx := x2 - x1;
    var dy := y2 - y1;
    var p := new real[4];
    var q := new real[4];
    var u1, u2 := 0.0, 1.0;
    p[0] := -dx;
    q[0] := x1 - Win.xMin;
    p[1] := dx;
    q[1] := Win.xMax - x1;
    p[2] := -dy;
    q[2] := y1 - Win.yMin;
    p[3] := dy;
    q[3] := Win.yMax - y1;
    assert pq == [(p[0], q[0]), (p[1], q[1]), (p[2], q[2]), (p[3], q[3])];
    var i := 0;
    while i < 4
      invariant 0 <= i <= 4
      invariant forall k :: 0 <= k < 4 ==> (p[k], q[k]) == pq[k]
      invariant Narrow(pq, 0, 0.0, 1.0) == Narrow(pq, i, u1, u2)
    {
      if p[i] == 0.0 {
        if q[i] < 0.0 {
          accept := false;
          return;
        }
      } else {
        var r := q[i] / p[i];
        if p[i] < 0.0 {
          u1 := MaxR(u1, r);
        } else {
          u2 := MinR(u2, r);
        }
      }
      i := i + 1;
    }
    assert Narrow(pq, 0, 0.0, 1.0) == Some((u1, u2));
    if u1 > u2 {
      accept := false;
      return;
    }
    var clippedX1 := x1 + u1 * dx;
    var clippedY1 := y1 + u1 * dy;
    var clippedX2 := x1 + u2 * dx;
    var clippedY2 := y1 + u2 * dy;
    ox1, oy1, ox2, oy2 := clippedX1, clippedY1, clippedX2, clippedY2;
    accept := true;
    assert Point(ox1, oy1) == Lerp(Point(x1, y1), Point(x2, y2), u1);
    assert Point(ox2, oy2) == Lerp(Point(x1, y1), Point(x2, y2), u2);
  }

  /** One boundary test: for p < 0 it admits u ≥ q/p, for p > 0 it admits u ≤ q/p. */
  lemma BoundaryTest(p: real, q: real, u: real)
    requires p != 0.0
    ensures p < 0.0 ==> (p * u <= q <==> q / p <= u)
    ensures p > 0.0 ==> (p * u <= q <==> u <= q / p)
  {
    assert p * (q / p) == q;
    if p < 0.0 {
      assert p * u - q == p * (u - q / p);
    } else {
      assert p * u - q == p * (u - q / p);
    }
  }

  /** Boundary i admits u and the later boundaries admit it: the earlier ones are not looked at. */
  lemma AdmittedSplit(pq: seq<(real, real)>, i: nat, u: real)
    requires i < |pq|
    ensures Admitted(pq, i, u) <==> pq[i].0 * u <= pq[i].1 && Admitted(pq, i + 1, u)
  {
    if pq[i].0 * u <= pq[i].1 && Admitted(pq, i + 1, u) {
      forall k | i <= k < |pq|
        ensures pq[k].0 * u <= pq[k].1
      {
        if k > i {
          assert i + 1 <= k;
        }
      }
    }
  }

  /** The range before boundary i, restricted to what boundary i admits, is the range
      the loop passes on to boundary i + 1. */
  lemma StepRange(pq: seq<(real, real)>, i: nat, u1: real, u2: real, u: real)
    requires i < |pq| && !(pq[i].0 == 0.0 && pq[i].1 < 0.0)
    ensures var p, q := pq[i].0, pq[i].1;
      var w1 := if p < 0.0 then MaxR(u1, q / p) else u1;
      var w2 := if p > 0.0 then MinR(u2, q / p) else u2;
      (u1 <= u <= u2 && Admitted(pq, i, u)) <==> (w1 <= u <= w2 && Admitted(pq, i + 1, u))
  {
    AdmittedSplit(pq, i, u);
    if pq[i].0 != 0.0 {
      BoundaryTest(pq[i].0, pq[i].1, u);
    }
  }

  /** The loop narrows [u1, u2] exactly to the admitted parameters, and rejects early only
      when no parameter in [u1, u2] is admitted. */
  lemma {:induction false} NarrowCorrect(pq: seq<(real, real)>, i: nat, u1: real, u2: real)
    requires i <= |pq|
    ensures Narrow(pq, i, u1, u2).None? ==> forall u :: u1 <= u <= u2 ==> !Admitted(pq, i, u)
    ensures Narrow(pq, i, u1, u2).Some? ==>
      var v := Narrow(pq, i, u1, u2).value;
      && u1 <= v.0 && v.1 <= u2
      && forall u :: (u1 <= u <= u2 && Admitted(pq, i, u)) <==> v.0 <= u <= v.1
    decreases |pq| - i
  {
    if i < |pq| {
      var p, q := pq[i].0, pq[i].1;
      if p == 0.0 && q < 0.0 {
        forall u | u1 <= u <= u2
          ensures !Admitted(pq, i, u)
        {
          AdmittedSplit(pq, i, u);
        }
      } else {
        var w1 := if p < 0.0 then MaxR(u1, q / p) else u1;
        var w2 := if p > 0.0 then MinR(u2, q / p) else u2;
        assert Narrow(pq, i, u1, u2) == Narrow(pq, i + 1, w1, w2);
        NarrowCorrect(pq, i + 1, w1, w2);
        forall u
          ensures (u1 <= u <= u2 && Admitted(pq, i, u)) <==> (w1 <= u <= w2 && Admitted(pq, i + 1, u))
        {
          StepRange(pq, i, u1, u2, u);
        }
      }
    }
  }

  /** A parameter is admitted by all four boundaries exactly when its point is in the window. */
  lemma AdmittedIsInside(a: Point, b: Point, u: real)
    ensures Admitted(Boundaries(a, b), 0, u) <==> Win.Contains(Lerp(a, b, u))
  {
    var pq := Boundaries(a, b);
    var dx, dy := b.x - a.x, b.y - a.y;
    var r := Lerp(a, b, u);
    assert r.x == a.x + u * dx && r.y == a.y + u * dy;
    assert -dx * u == -(u * dx) && dy * u == u * dy && dx * u == u * dx && -dy * u == -(u * dy);
    AdmittedSplit(pq, 0, u);
    AdmittedSplit(pq, 1, u);
    AdmittedSplit(pq, 2, u);
    AdmittedSplit(pq, 3, u);
  }

  /** `liangBarskyClip` accepts exactly when some point of the segment is in the window,
      and then returns the visible part of the segment. */
  lemma ClipIsVisiblePart(a: Point, b: Point)
    ensures Clip(a, b).Some? <==> exists u :: Visible(Win, a, b, u)
    ensures Clip(a, b).Some? ==> ClippedTo(Win, a, b, Clip(a, b).value.0, Clip(a, b).value.1)
  {
    var pq := Boundaries(a, b);
    NarrowCorrect(pq, 0, 0.0, 1.0);
    forall u {
      AdmittedIsInside(a, b, u);
    }
    match Narrow(pq, 0, 0.0, 1.0)
    case None =>
      assert forall u :: !Visible(Win, a, b, u);
    case Some(v) =>
      if v.0 > v.1 {
        assert forall u :: !Visible(Win, a, b, u);
      } else {
        assert Visible(Win, a, b, v.0);
        assert ClippedTo(Win, a, b, Lerp(a, b, v.0), Lerp(a, b, v.1));
      }
  }

  /** A segment with both endpoints in the window is returned unchanged (u1 = 0, u2 = 1). */
  lemma InsideUnchanged(a: Point, b: Point)
    requires Win.Contains(a) && Win.Contains(b)
    ensures Clip(a, b) == Some((a, b))
  {
    var pq := Boundaries(a, b);
    NarrowCorrect(pq, 0, 0.0, 1.0);
    AdmittedIsInside(a, b, 0.0);
    AdmittedIsInside(a, b, 1.0);
    LerpEnds(a, b);
  }

  /** A zero-length segment is accepted exactly when its point is in the window. */
  lemma PointSegment(a: Point)
    ensures Clip(a, a).Some? <==> Win.Contains(a)
  {
    ClipIsVisiblePart(a, a);
    assert forall u :: Lerp(a, a, u) == a;
    LerpEnds(a, a);
    if Win.Contains(a) {
      assert Visible(Win, a, a, 0.0);
    }
  }
}
