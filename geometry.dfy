/** Value types shared by the rasterizers and the clippers. */
module Geometry {

  datatype Option<T> = None | Some(value: T)

  /** A point with (exact) real coordinates: the programs' `struct Point { float x, y; }`. */
  datatype Point = Point(x: real, y: real)

  /** The point at parameter `t` of the segment from `a` to `b`: a + t·(b − a). */
  function Lerp(a: Point, b: Point, t: real): Point
  {
    Point(a.x + t * (b.x - a.x), a.y + t * (b.y - a.y))
  }

  /** `p` lies on the closed segment from `a` to `b`. */
  ghost predicate OnSegment(p: Point, a: Point, b: Point)
  {
    exists t: real :: 0.0 <= t <= 1.0 && p == Lerp(a, b, t)
  }

  /** An axis-aligned clipping window (xMin, yMin)–(xMax, yMax). */
  datatype Window = Window(xMin: real, yMin: real, xMax: real, yMax: real)
  {
    predicate Valid()
    {
      xMin <= xMax && yMin <= yMax
    }

    /** The closed rectangle contains `p`. */
    predicate Contains(p: Point)
    {
      xMin <= p.x <= xMax && yMin <= p.y <= yMax
    }
  }

  /** Lerp at parameter 0 and 1 gives the endpoints back. */
  lemma LerpEnds(a: Point, b: Point)
    ensures Lerp(a, b, 0.0) == a && Lerp(a, b, 1.0) == b
  {
  }

  /** The point at parameter t of the segment a→b exists (0 ≤ t ≤ 1) and lies in w. */
  predicate Visible(w: Window, a: Point, b: Point, t: real)
  {
    0.0 <= t <= 1.0 && w.Contains(Lerp(a, b, t))
  }

  /** p→q is the visible part of a→b: the parameters of a→b whose points lie in w are
      exactly an interval [t1, t2], and p and q are the points at t1 and t2. */
  ghost predicate ClippedTo(w: Window, a: Point, b: Point, p: Point, q: Point)
  {
    exists t1: real, t2: real ::
      && 0.0 <= t1 <= t2 <= 1.0 && p == Lerp(a, b, t1) && q == Lerp(a, b, t2)
      && forall t :: 0.0 <= t <= 1.0 ==> (w.Contains(Lerp(a, b, t)) <==> t1 <= t <= t2)
  }

  /** The visible part of a segment is unique: two clippers that both produce it agree. */
  lemma ClippedToUnique(w: Window, a: Point, b: Point, p: Point, q: Point, p': Point, q': Point)
    requires ClippedTo(w, a, b, p, q) && ClippedTo(w, a, b, p', q')
    ensures p == p' && q == q'
  {
    var t1, t2 :| && 0.0 <= t1 <= t2 <= 1.0 && p == Lerp(a, b, t1) && q == Lerp(a, b, t2)
      && forall t :: 0.0 <= t <= 1.0 ==> (w.Contains(Lerp(a, b, t)) <==> t1 <= t <= t2);
    var u1, u2 :| && 0.0 <= u1 <= u2 <= 1.0 && p' == Lerp(a, b, u1) && q' == Lerp(a, b, u2)
      && forall t :: 0.0 <= t <= 1.0 ==> (w.Contains(Lerp(a, b, t)) <==> u1 <= t <= u2);
    assert w.Contains(Lerp(a, b, t1)) && w.Contains(Lerp(a, b, u1));
    assert w.Contains(Lerp(a, b, t2)) && w.Contains(Lerp(a, b, u2));
  }

  /** A point between two others lies between them in each coordinate. */
  lemma LerpBetween(a: Point, b: Point, s: real)
    requires 0.0 <= s <= 1.0
    ensures InBetween(a.x, Lerp(a, b, s).x, b.x) && InBetween(a.y, Lerp(a, b, s).y, b.y)
  {
    Between(a.x, b.x, s);
    Between(a.y, b.y, s);
  }

  /** m lies between u and v, in either order. */
  predicate InBetween(u: real, m: real, v: real)
  {
    (u <= m && m <= v) || (v <= m && m <= u)
  }

  lemma Between(u: real, v: real, s: real)
    requires 0.0 <= s <= 1.0
    ensures InBetween(u, u + s * (v - u), v)
  {
    var d := v - u;
    assert s * d + (1.0 - s) * d == d;
    if u <= v {
      MulNonneg(s, d);
      MulNonneg(1.0 - s, d);
    } else {
      MulNonneg(s, -d);
      MulNonneg(1.0 - s, -d);
    }
  }

  /** A ratio e/f with 0 ≤ e ≤ f is a parameter in [0, 1]. */
  lemma UnitRatio(e: real, f: real)
    requires 0.0 <= e <= f && f > 0.0
    ensures 0.0 <= e / f <= 1.0
  {
  }

  lemma MulNonneg(a: real, b: real)
    requires a >= 0.0 && b >= 0.0
    ensures a * b >= 0.0
  {
  }

  /** The window is convex: a point between two points inside it is inside. */
  lemma WindowConvex(w: Window, p: Point, q: Point, s: real)
    requires w.Contains(p) && w.Contains(q) && 0.0 <= s <= 1.0
    ensures w.Contains(Lerp(p, q, s))
  {
    LerpBetween(p, q, s);
  }

  /** A point between two points of a segment is a point of the segment, at the
      corresponding parameter. */
  lemma LerpCompose(a: Point, b: Point, t1: real, t2: real, s: real)
    ensures Lerp(Lerp(a, b, t1), Lerp(a, b, t2), s) == Lerp(a, b, t1 + s * (t2 - t1))
  {
    var p, q, t := Lerp(a, b, t1), Lerp(a, b, t2), t1 + s * (t2 - t1);
    ComposeAxis(a.x, b.x, t1, t2, s);
    ComposeAxis(a.y, b.y, t1, t2, s);
    assert Lerp(p, q, s).x == Lerp(a, b, t).x;
    assert Lerp(p, q, s).y == Lerp(a, b, t).y;
  }

  lemma ComposeAxis(u: real, v: real, t1: real, t2: real, s: real)
    ensures (u + t1 * (v - u)) + s * ((u + t2 * (v - u)) - (u + t1 * (v - u)))
         == u + (t1 + s * (t2 - t1)) * (v - u)
  {
    var d := v - u;
    assert (u + t2 * d) - (u + t1 * d) == (t2 - t1) * d;
    assert s * ((t2 - t1) * d) == (s * (t2 - t1)) * d;
    assert (t1 + s * (t2 - t1)) * d == t1 * d + (s * (t2 - t1)) * d;
  }
}
