/** Sutherland–Hodgman polygon clipping (Lab4/SutherlandHodgemann.cpp): the subject polygon
    is clipped against each directed edge of the clip polygon in turn. */
module SutherlandHodgman {
  import opened Geometry

  /** The cross product of the edge e1→e2 with p − e1: positive left of the edge, zero on
      its line. */
  function Side(p: Point, e1: Point, e2: Point): real
  {
    (e2.x - e1.x) * (p.y - e1.y) - (e2.y - e1.y) * (p.x - e1.x)
  }

  /** `inside`: p lies strictly left of the directed edge e1→e2; points on the edge's line
      are outside. */
  predicate Inside(p: Point, e1: Point, e2: Point)
  {
    (e2.x - e1.x) * (p.y - e1.y) > (e2.y - e1.y) * (p.x - e1.x)
  }

  lemma InsideIsSide(p: Point, e1: Point, e2: Point)
    ensures Inside(p, e1, e2) <==> Side(p, e1, e2) > 0.0
  {
  }

  /** `intersection`: the point of line p1→p2 on the edge's line, or p1 when the two lines
      are parallel (an exact zero test in place of the 1e-10 tolerance). */
  function Intersection(p1: Point, p2: Point, e1: Point, e2: Point): Point
  {
    var dx1, dy1 := p2.x - p1.x, p2.y - p1.y;
    var dx2, dy2 := e2.x - e1.x, e2.y - e1.y;
    var denom := dx1 * dy2 - dy1 * dx2;
    if denom == 0.0 then p1
    else
      var t := ((e1.x - p1.x) * dy2 - (e1.y - p1.y) * dx2) / denom;
      Point(p1.x + t * dx1, p1.y + t * dy1)
  }

  /** Side is affine along a segment. */
  lemma SideOfLerp(p1: Point, p2: Point, e1: Point, e2: Point, t: real)
    ensures Side(Lerp(p1, p2, t), e1, e2) == Side(p1, e1, e2) + t * (Side(p2, e1, e2) - Side(p1, e1, e2))
  {
    var dx2, dy2 := e2.x - e1.x, e2.y - e1.y;
    var dx1, dy1 := p2.x - p1.x, p2.y - p1.y;
    assert Side(p2, e1, e2) - Side(p1, e1, e2) == dx2 * dy1 - dy2 * dx1;
    assert dx2 * (t * dy1) == t * (dx2 * dy1) && dy2 * (t * dx1) == t * (dy2 * dx1);
    assert t * (dx2 * dy1 - dy2 * dx1) == t * (dx2 * dy1) - t * (dy2 * dx1);
  }

  /** The parallel test and the source's parameter t, in terms of Side: the denominator is
      the change of Side along p1→p2 and the numerator is Side at p1. */
  lemma IntersectionTerms(p1: Point, p2: Point, e1: Point, e2: Point)
    ensures var dx1, dy1 := p2.x - p1.x, p2.y - p1.y;
      var dx2, dy2 := e2.x - e1.x, e2.y - e1.y;
      && dx1 * dy2 - dy1 * dx2 == Side(p1, e1, e2) - Side(p2, e1, e2)
      && (e1.x - p1.x) * dy2 - (e1.y - p1.y) * dx2 == Side(p1, e1, e2)
  {
  }

  /** When p1 and p2 are on different sides of the edge (as the algorithm calls it), the
      lines are not parallel and the result is the point of segment p1→p2 on the edge's
      line. */
  lemma IntersectionOnEdge(p1: Point, p2: Point, e1: Point, e2: Point)
    requires Inside(p1, e1, e2) != Inside(p2, e1, e2)
    ensures var s1, s2 := Side(p1, e1, e2), Side(p2, e1, e2);
      && s1 != s2
      && 0.0 <= s1 / (s1 - s2) <= 1.0
      && Intersection(p1, p2, e1, e2) == Lerp(p1, p2, s1 / (s1 - s2))
      && Side(Intersection(p1, p2, e1, e2), e1, e2) == 0.0
  {
    var s1, s2 := Side(p1, e1, e2), Side(p2, e1, e2);
    var t := s1 / (s1 - s2);
    IntersectionTerms(p1, p2, e1, e2);
    SideOfLerp(p1, p2, e1, e2, t);
    assert t * (s1 - s2) == s1;
    if s1 > 0.0 {
      UnitRatio(s1, s1 - s2);
    } else {
      UnitRatio(-s1, s2 - s1);
      assert (-s1) / (s2 - s1) == t;
    }
  }

  /** The point the inner loop emits nothing, one or two vertices for: previous → current. */
  function Emit(previous: Point, current: Point, e1: Point, e2: Point): seq<Point>
  {
    if Inside(current, e1, e2) then
      if !Inside(previous, e1, e2) then [Intersection(previous, current, e1, e2), current]
      else [current]
    else if Inside(previous, e1, e2) then [Intersection(previous, current, e1, e2)]
    else []
  }

  /** The vertex before input[j], cyclically. */
  function Previous(input: seq<Point>, j: nat): Point
    requires j < |input|
  {
    input[(j + |input| - 1) % |input|]
  }

  /** The output of one clip edge after the inner loop has visited vertices 0..j−1. */
  function EdgeFrom(input: seq<Point>, e1: Point, e2: Point, j: nat): seq<Point>
    requires j <= |input|
  {
    if j == 0 then []
    else EdgeFrom(input, e1, e2, j - 1) + Emit(Previous(input, j - 1), input[j - 1], e1, e2)
  }

  /** The output of one clip edge: the inner loop run over the whole input. */
  function ClipEdge(input: seq<Point>, e1: Point, e2: Point): seq<Point>
  {
    EdgeFrom(input, e1, e2, |input|)
  }

  /** Clip edge i of the clip polygon: from vertex i to vertex i + 1, cyclically. */
  function EdgeStart(clip: seq<Point>, i: nat): Point
    requires i < |clip|
  {
    clip[i]
  }

  function EdgeEnd(clip: seq<Point>, i: nat): Point
    requires i < |clip|
  {
    clip[(i + 1) % |clip|]
  }

  /** The outer loop from edge i on, with `output` the polygon so far: stops at the last
      edge or as soon as the polygon is empty. */
  function ClipAll(output: seq<Point>, clip: seq<Point>, i: nat): seq<Point>
    requires i <= |clip|
    decreases |clip| - i
  {
    if i == |clip| || |output| == 0 then output
    else ClipAll(ClipEdge(output, EdgeStart(clip, i), EdgeEnd(clip, i)), clip, i + 1)
  }

  /** `sutherlandHodgman`: the vectors are passed by value, so they are sequences here. */
  method SutherlandHodgmanClip(poly: seq<Point>, clipPoly: seq<Point>) returns (output: seq<Point>)
    ensures output == ClipAll(poly, clipPoly, 0)
    ensures forall k, q :: 0 <= k < |clipPoly| && q in output ==>
      Side(q, EdgeStart(clipPoly, k), EdgeEnd(clipPoly, k)) >= 0.0
  {
    output := poly;
    var i := 0;
    while i < |clipPoly|
      invariant 0 <= i <= |clipPoly|
      invariant ClipAll(output, clipPoly, i) == ClipAll(poly, clipPoly, 0)
    {
      if |output| == 0 {
        break;
      }
      var input := output;
      output := [];
      var edgeStart := clipPoly[i];
      var edgeEnd := clipPoly[(i + 1) % |clipPoly|];
      var j := 0;
      while j < |input|
        invariant 0 <= j <= |input|
        invariant output == EdgeFrom(input, edgeStart, edgeEnd, j)
      {
        var current := input[j];
        var previous := input[(j + |input| - 1) % |input|];
        var currentInside := Inside(current, edgeStart, edgeEnd);
        var previousInside := Inside(previous, edgeStart, edgeEnd);
        ghost var before := output;
        if currentInside {
          if !previousInside {
            output := output + [Intersection(previous, current, edgeStart, edgeEnd)];
          }
          output := output + [current];
        } else if previousInside {
          output := output + [Intersection(previous, current, edgeStart, edgeEnd)];
        }
        assert output == before + Emit(previous, current, edgeStart, edgeEnd);
        assert previous == Previous(input, j);
        assert EdgeFrom(input, edgeStart, edgeEnd, j + 1)
          == EdgeFrom(input, edgeStart, edgeEnd, j) + Emit(previous, current, edgeStart, edgeEnd);
        j := j + 1;
      }
      i := i + 1;
    }
    ClipAllInHalfPlanes(poly, clipPoly, 0);
  }

  /** One input vertex emits at most two output vertices: |out| ≤ 2·|in| per edge. */
  lemma {:induction false} EdgeSize(input: seq<Point>, e1: Point, e2: Point, j: nat)
    requires j <= |input|
    ensures |EdgeFrom(input, e1, e2, j)| <= 2 * j
  {
    if j > 0 {
      EdgeSize(input, e1, e2, j - 1);
    }
  }

  /** An edge that every input vertex is inside of passes the polygon through unchanged. */
  lemma {:induction false} AllInsideUnchanged(input: seq<Point>, e1: Point, e2: Point, j: nat)
    requires j <= |input|
    requires forall k :: 0 <= k < |input| ==> Inside(input[k], e1, e2)
    ensures EdgeFrom(input, e1, e2, j) == input[..j]
  {
    if j > 0 {
      AllInsideUnchanged(input, e1, e2, j - 1);
      assert Inside(Previous(input, j - 1), e1, e2);
      assert input[..j] == input[..j - 1] + [input[j - 1]];
    }
  }

  /** The vertices of s strictly inside the edge, in order. */
  function InsideOnly(s: seq<Point>, e1: Point, e2: Point): seq<Point>
  {
    if |s| == 0 then []
    else InsideOnly(s[..|s| - 1], e1, e2) + (if Inside(s[|s| - 1], e1, e2) then [s[|s| - 1]] else [])
  }

  lemma {:induction false} InsideOnlyAppend(s: seq<Point>, u: seq<Point>, e1: Point, e2: Point)
    ensures InsideOnly(s + u, e1, e2) == InsideOnly(s, e1, e2) + InsideOnly(u, e1, e2)
    decreases |u|
  {
    if |u| == 0 {
      assert s + u == s;
    } else {
      var u' := u[..|u| - 1];
      var last := u[|u| - 1];
      assert (s + u)[..|s + u| - 1] == s + u';
      assert (s + u)[|s + u| - 1] == last;
      InsideOnlyAppend(s, u', e1, e2);
    }
  }

  /** The inside vertices of one step's emission: the current vertex if it is inside (an
      intersection lies on the edge's line, which is outside). */
  lemma EmitInsideOnly(previous: Point, current: Point, e1: Point, e2: Point)
    ensures InsideOnly(Emit(previous, current, e1, e2), e1, e2)
      == if Inside(current, e1, e2) then [current] else []
  {
    if Inside(current, e1, e2) != Inside(previous, e1, e2) {
      var r := Intersection(previous, current, e1, e2);
      IntersectionOnEdge(previous, current, e1, e2);
      InsideIsSide(r, e1, e2);
      assert InsideOnly([r], e1, e2) == [] by {
        assert [r][..0] == [];
      }
      if Inside(current, e1, e2) {
        assert [r, current][..1] == [r];
      }
    } else if Inside(current, e1, e2) {
      assert [current][..0] == [];
    }
  }

  /** Carried-over vertices are exactly the inside input vertices, in order. */
  lemma {:induction false} CarriedAreInside(input: seq<Point>, e1: Point, e2: Point, j: nat)
    requires j <= |input|
    ensures InsideOnly(EdgeFrom(input, e1, e2, j), e1, e2) == InsideOnly(input[..j], e1, e2)
  {
    if j > 0 {
      var front, c := EdgeFrom(input, e1, e2, j - 1), input[j - 1];
      var e := Emit(Previous(input, j - 1), c, e1, e2);
      var kept := if Inside(c, e1, e2) then [c] else [];
      CarriedAreInside(input, e1, e2, j - 1);
      InsideOnlyAppend(front, e, e1, e2);
      EmitInsideOnly(Previous(input, j - 1), c, e1, e2);
      assert InsideOnly(EdgeFrom(input, e1, e2, j), e1, e2) == InsideOnly(input[..j - 1], e1, e2) + kept;
      assert input[..j][..j - 1] == input[..j - 1] && input[..j][j - 1] == c;
      assert InsideOnly(input[..j], e1, e2) == InsideOnly(input[..j - 1], e1, e2) + kept;
    }
  }

  /** Every emitted vertex is in the closed half-plane left of the clip edge. */
  lemma EmitInHalfPlane(previous: Point, current: Point, e1: Point, e2: Point)
    ensures forall q :: q in Emit(previous, current, e1, e2) ==> Side(q, e1, e2) >= 0.0
  {
    if Inside(current, e1, e2) != Inside(previous, e1, e2) {
      IntersectionOnEdge(previous, current, e1, e2);
    }
  }

  /** An emitted vertex keeps any closed half-plane both endpoints of its step lie in. */
  lemma EmitKeeps(previous: Point, current: Point, e1: Point, e2: Point, f1: Point, f2: Point)
    requires Side(previous, f1, f2) >= 0.0 && Side(current, f1, f2) >= 0.0
    ensures forall q :: q in Emit(previous, current, e1, e2) ==> Side(q, f1, f2) >= 0.0
  {
    if Inside(current, e1, e2) != Inside(previous, e1, e2) {
      IntersectionOnEdge(previous, current, e1, e2);
      var s1, s2 := Side(previous, e1, e2), Side(current, e1, e2);
      var t := s1 / (s1 - s2);
      SideOfLerp(previous, current, f1, f2, t);
      var a, b := Side(previous, f1, f2), Side(current, f1, f2);
      assert a + t * (b - a) == (1.0 - t) * a + t * b;
      MulNonneg(1.0 - t, a);
      MulNonneg(t, b);
    }
  }

  /** One clip edge leaves its output in its own closed half-plane, and in every closed
      half-plane the input already lay in. */
  lemma {:induction false} EdgeInHalfPlanes(input: seq<Point>, e1: Point, e2: Point, j: nat, f1: Point, f2: Point)
    requires j <= |input|
    requires forall q :: q in input ==> Side(q, f1, f2) >= 0.0
    ensures forall q :: q in EdgeFrom(input, e1, e2, j) ==> Side(q, e1, e2) >= 0.0 && Side(q, f1, f2) >= 0.0
  {
    if j > 0 {
      EdgeInHalfPlanes(input, e1, e2, j - 1, f1, f2);
      var p, c := Previous(input, j - 1), input[j - 1];
      EmitInHalfPlane(p, c, e1, e2);
      EmitKeeps(p, c, e1, e2, f1, f2);
    }
  }

  /** The vertices of the own closed half-plane: the f-free form of `EdgeInHalfPlanes`. */
  lemma {:induction false} EdgeInOwnHalfPlane(input: seq<Point>, e1: Point, e2: Point, j: nat)
    requires j <= |input|
    ensures forall q :: q in EdgeFrom(input, e1, e2, j) ==> Side(q, e1, e2) >= 0.0
  {
    if j > 0 {
      EdgeInOwnHalfPlane(input, e1, e2, j - 1);
      EmitInHalfPlane(Previous(input, j - 1), input[j - 1], e1, e2);
    }
  }

  /** Edge i's half-plane bound holds for the polygon. */
  ghost predicate Within(s: seq<Point>, clip: seq<Point>, n: nat)
    requires n <= |clip|
  {
    forall k, q :: 0 <= k < n && q in s ==> Side(q, EdgeStart(clip, k), EdgeEnd(clip, k)) >= 0.0
  }

  /** The clipped polygon lies in the closed half-plane of every clip edge (for a convex,
      counter-clockwise clip polygon: in the clip polygon). */
  lemma {:induction false} ClipAllInHalfPlanes(s: seq<Point>, clip: seq<Point>, i: nat)
    requires i <= |clip| && Within(s, clip, i)
    ensures Within(ClipAll(s, clip, i), clip, |clip|)
    decreases |clip| - i
  {
    if i < |clip| && |s| > 0 {
      var e1, e2 := EdgeStart(clip, i), EdgeEnd(clip, i);
      var next := ClipEdge(s, e1, e2);
      forall k, q | 0 <= k < i + 1 && q in next
        ensures Side(q, EdgeStart(clip, k), EdgeEnd(clip, k)) >= 0.0
      {
        if k < i {
          EdgeInHalfPlanes(s, e1, e2, |s|, EdgeStart(clip, k), EdgeEnd(clip, k));
        } else {
          EdgeInOwnHalfPlane(s, e1, e2, |s|);
        }
      }
      ClipAllInHalfPlanes(next, clip, i + 1);
    }
  }

  /** A vertex in s stays in InsideOnly(s) when inside, and InsideOnly keeps only vertices of s. */
  lemma {:induction false} InsideOnlyMembers(s: seq<Point>, e1: Point, e2: Point, p: Point)
    ensures p in InsideOnly(s, e1, e2) <==> p in s && Inside(p, e1, e2)
    decreases |s|
  {
    if |s| > 0 {
      InsideOnlyMembers(s[..|s| - 1], e1, e2, p);
      assert s == s[..|s| - 1] + [s[|s| - 1]];
    }
  }

  /** A subject vertex strictly inside every clip edge survives to the result. */
  lemma {:induction false} InsideVertexSurvives(s: seq<Point>, clip: seq<Point>, i: nat, p: Point)
    requires i <= |clip| && p in s
    requires forall k :: 0 <= k < |clip| ==> Inside(p, EdgeStart(clip, k), EdgeEnd(clip, k))
    ensures p in ClipAll(s, clip, i)
    decreases |clip| - i
  {
    if i < |clip| {
      var e1, e2 := EdgeStart(clip, i), EdgeEnd(clip, i);
      var next := ClipEdge(s, e1, e2);
      CarriedAreInside(s, e1, e2, |s|);
      assert s[..|s|] == s;
      InsideOnlyMembers(s, e1, e2, p);
      InsideOnlyMembers(next, e1, e2, p);
      InsideVertexSurvives(next, clip, i + 1, p);
    }
  }

  /** The demo's subject pentagon and its counter-clockwise clip rectangle. */
  function DemoSubject(): seq<Point>
  {
    [Point(-200.0, -100.0), Point(100.0, -150.0), Point(200.0, 50.0), Point(50.0, 200.0), Point(-150.0, 150.0)]
  }

  function DemoClip(): seq<Point>
  {
    [Point(-180.0, -160.0), Point(180.0, -160.0), Point(180.0, 160.0), Point(-180.0, 160.0)]
  }

  /** The bounds the four edges of the demo rectangle impose. */
  lemma RectangleSides(q: Point)
    requires var clip := DemoClip();
      && Side(q, clip[0], clip[1]) >= 0.0 && Side(q, clip[1], clip[2]) >= 0.0
      && Side(q, clip[2], clip[3]) >= 0.0 && Side(q, clip[3], clip[0]) >= 0.0
    ensures -180.0 <= q.x <= 180.0 && -160.0 <= q.y <= 160.0
  {
  }

  /** Clipping any polygon against the demo rectangle leaves it inside the rectangle, and
      non-empty when one of its vertices is strictly inside. */
  lemma {:induction false} RectangleResult(subject: seq<Point>, p: Point)
    requires p in subject
    requires -180.0 < p.x < 180.0 && -160.0 < p.y < 160.0
    ensures |ClipAll(subject, DemoClip(), 0)| > 0
    ensures forall q :: q in ClipAll(subject, DemoClip(), 0) ==>
      -180.0 <= q.x <= 180.0 && -160.0 <= q.y <= 160.0
  {
    var clip := DemoClip();
    assert EdgeEnd(clip, 0) == clip[1] && EdgeEnd(clip, 1) == clip[2];
    assert EdgeEnd(clip, 2) == clip[3] && EdgeEnd(clip, 3) == clip[0];
    forall k | 0 <= k < |clip|
      ensures Inside(p, EdgeStart(clip, k), EdgeEnd(clip, k))
    {
      InsideIsSide(p, EdgeStart(clip, k), EdgeEnd(clip, k));
    }
    InsideVertexSurvives(subject, clip, 0, p);
    ClipAllInHalfPlanes(subject, clip, 0);
    var r := ClipAll(subject, clip, 0);
    forall q | q in r
      ensures -180.0 <= q.x <= 180.0 && -160.0 <= q.y <= 160.0
    {
      assert Within(r, clip, 4);
      assert Side(q, EdgeStart(clip, 0), EdgeEnd(clip, 0)) >= 0.0;
      assert Side(q, EdgeStart(clip, 1), EdgeEnd(clip, 1)) >= 0.0;
      assert Side(q, EdgeStart(clip, 2), EdgeEnd(clip, 2)) >= 0.0;
      assert Side(q, EdgeStart(clip, 3), EdgeEnd(clip, 3)) >= 0.0;
      RectangleSides(q);
    }
  }

  /** With the demo data the clipped polygon is non-empty and lies in the rectangle
      [−180, 180] × [−160, 160]. */
  lemma DemoResult()
    ensures |ClipAll(DemoSubject(), DemoClip(), 0)| > 0
    ensures forall q :: q in ClipAll(DemoSubject(), DemoClip(), 0) ==>
      -180.0 <= q.x <= 180.0 && -160.0 <= q.y <= 160.0
  {
    RectangleResult(DemoSubject(), Point(100.0, -150.0));
  }
}
