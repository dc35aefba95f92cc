/** The midpoint circle rasterizer (Lab2/Question3.cpp). The loop walks the octant from
    (0, r) toward the diagonal; every visited (x, y) is plotted in all eight octants. */
module MidpointCircle {

  /** `plotCirclePoints`: the eight reflections of (x, y) about the centre, in emission
      order. */
  function Octants(xc: int, yc: int, x: int, y: int): (r: seq<(int, int)>)
    ensures |r| == 8 && r[0] == (xc + x, yc + y)
  {
    [(xc + x, yc + y), (xc - x, yc + y), (xc + x, yc - y), (xc - x, yc - y),
     (xc + y, yc + x), (xc - y, yc + x), (xc + y, yc - x), (xc - y, yc - x)]
  }

  /** The eight points are closed under mirroring in the vertical and the horizontal line
      through the centre and in the diagonal (exchanging the two offsets): the mirror image
      of the i-th point is the point at the listed index. Nothing is removed when offsets
      coincide, so x == 0 plots points twice. */
  lemma OctantsSymmetric(xc: int, yc: int, x: int, y: int)
    ensures var r := Octants(xc, yc, x, y);
      && (forall i :: 0 <= i < 8 ==> (2 * xc - r[i].0, r[i].1) == r[[1, 0, 3, 2, 5, 4, 7, 6][i]])
      && (forall i :: 0 <= i < 8 ==> (r[i].0, 2 * yc - r[i].1) == r[[2, 3, 0, 1, 6, 7, 4, 5][i]])
      && (forall i :: 0 <= i < 8 ==> (xc + r[i].1 - yc, yc + r[i].0 - xc) == r[[4, 6, 5, 7, 0, 2, 1, 3][i]])
      && (x == 0 ==> r[0] == r[1] && r[2] == r[3])
  {
  }

  /** Everything plotted for the visited octant points, in visiting order. */
  function Plot(xc: int, yc: int, arc: seq<(int, int)>): (r: seq<(int, int)>)
    ensures |r| == 8 * |arc|
  {
    if arc == [] then []
    else Plot(xc, yc, arc[..|arc| - 1]) + Octants(xc, yc, arc[|arc| - 1].0, arc[|arc| - 1].1)
  }

  /** The decision term at the loop head: the circle function (x + 1)² + (y − ½)² − r² at
      the midpoint between the two candidate next pixels, times one and minus ¼. */
  function Decision(r: int, x: int, y: int): int
  {
    (x + 1) * (x + 1) + y * y - y - r * r
  }

  /** The octant points visited after (x, y): while x < y, x grows by one and y drops by
      one exactly when the decision term is not negative. */
  function ArcFrom(r: int, x: int, y: int): seq<(int, int)>
    decreases y - x
  {
    if x < y then
      var y' := if Decision(r, x, y) < 0 then y else y - 1;
      [(x + 1, y')] + ArcFrom(r, x + 1, y')
    else []
  }

  /** All visited octant points, starting at (0, r). */
  function Arc(r: int): seq<(int, int)>
  {
    [(0, r)] + ArcFrom(r, 0, r)
  }

  /** The incremental updates of `d` keep it equal to the decision term of the new state. */
  lemma DecisionStep(r: int, x: int, y: int)
    ensures Decision(r, x + 1, y) == Decision(r, x, y) + 2 * (x + 1) + 1
    ensures Decision(r, x + 1, y - 1) == Decision(r, x, y) + 2 * ((x + 1) - (y - 1)) + 1
  {
  }

  lemma PlotAppend(xc: int, yc: int, arc: seq<(int, int)>, p: (int, int))
    ensures Plot(xc, yc, arc + [p]) == Plot(xc, yc, arc) + Octants(xc, yc, p.0, p.1)
  {
    assert (arc + [p])[..|arc|] == arc;
  }

  /** `drawCircleMidpoint`: d starts at 1 − r and is updated incrementally; the emitted
      points are the eight-way reflections of the visited octant points. */
  method DrawCircleMidpoint(xc: int, yc: int, r: int) returns (points: seq<(int, int)>)
    ensures points == Plot(xc, yc, Arc(r))
  {
    var x := 0;
    var y := r;
    var d := 1 - r;
    points := Octants(xc, yc, x, y);
    ghost var visited := [(x, y)];
    assert points == Plot(xc, yc, visited) by {
      PlotAppend(xc, yc, [], (x, y));
    }
    while x < y
      invariant d == Decision(r, x, y)
      invariant Arc(r) == visited + ArcFrom(r, x, y)
      invariant points == Plot(xc, yc, visited)
      decreases y - x
    {
      ghost var rest := ArcFrom(r, x, y);
      DecisionStep(r, x, y);
      x := x + 1;
      if d < 0 {
        d := d + 2 * x + 1;
      } else {
        y := y - 1;
        d := d + 2 * (x - y) + 1;
      }
      assert rest == [(x, y)] + ArcFrom(r, x, y);
      PlotAppend(xc, yc, visited, (x, y));
      visited := visited + [(x, y)];
      points := points + Octants(xc, yc, x, y);
    }
    assert ArcFrom(r, x, y) == [];
    assert Arc(r) == visited + [] == visited;
  }

  /** (x, y) is within half a pixel of the circle of radius r in the sense of the midpoint
      test: y·(y − 1) <= r² − x² <= y·(y + 1). */
  predicate Band(r: int, x: int, y: int)
  {
    y * (y - 1) <= r * r - x * x <= y * (y + 1)
  }

  /** What holds at every loop head: x is not negative, (x, y) is in the band, and one
      step before the diagonal the midpoint test is strict. */
  predicate HeadInvariant(r: int, x: int, y: int)
  {
    0 <= x && Band(r, x, y) && (x == y - 1 ==> y * (y - 1) < r * r - x * x)
  }

  /** One iteration of the loop keeps the head invariant. */
  lemma HeadStep(r: int, x: int, y: int)
    requires HeadInvariant(r, x, y) && x < y
    ensures HeadInvariant(r, x + 1, if Decision(r, x, y) < 0 then y else y - 1)
  {
    var a := x * x + y * y - y - r * r;
    assert (x + 1) * (x + 1) == x * x + 2 * x + 1;
    assert (y - 1) * (y - 1) == y * y - 2 * y + 1;
    assert Decision(r, x, y) == a + 2 * x + 1;
  }

  /** The octant points visited from a loop head satisfying the head invariant: x grows by
      exactly one per step and y drops by zero or one; every point is in the band; the
      walk stops at the first point with x >= y, which then has y <= x <= y + 1. */
  lemma {:induction false} ArcFromShape(r: int, x: int, y: int)
    requires HeadInvariant(r, x, y)
    ensures var s := ArcFrom(r, x, y);
      && (s == [] <==> y <= x)
      && (forall j :: 0 <= j < |s| ==> s[j].0 == x + 1 + j && Band(r, s[j].0, s[j].1))
      && (s != [] ==> y - 1 <= s[0].1 <= y)
      && (forall j :: 0 < j < |s| ==> s[j - 1].1 - 1 <= s[j].1 <= s[j - 1].1)
      && (forall j :: 0 <= j < |s| - 1 ==> s[j].0 < s[j].1)
      && (s != [] ==> s[|s| - 1].1 <= s[|s| - 1].0 <= s[|s| - 1].1 + 1)
    decreases y - x
  {
    if x < y {
      var y' := if Decision(r, x, y) < 0 then y else y - 1;
      HeadStep(r, x, y);
      ArcFromShape(r, x + 1, y');
      var t := ArcFrom(r, x + 1, y');
      var s := ArcFrom(r, x, y);
      assert s == [(x + 1, y')] + t;
      forall j | 0 < j < |s|
        ensures s[j] == t[j - 1]
      {
      }
    }
  }

  /** The whole walk for a non-negative radius: it starts at (0, r), takes x = 0, 1, 2, …
      in turn, keeps every point in the band, moves y down by at most one per step, stays
      above the diagonal until its last point, ends with y <= x <= y + 1, and has at most
      r + 1 points, so the loop runs at most r times. */
  lemma ArcShape(r: int)
    requires 0 <= r
    ensures var a := Arc(r);
      && a[0] == (0, r)
      && (forall j :: 0 <= j < |a| ==> a[j].0 == j && Band(r, a[j].0, a[j].1))
      && (forall j :: 0 < j < |a| ==> a[j - 1].1 - 1 <= a[j].1 <= a[j - 1].1)
      && (forall j :: 0 <= j < |a| - 1 ==> a[j].0 < a[j].1)
      && a[|a| - 1].1 <= a[|a| - 1].0 <= a[|a| - 1].1 + 1
      && |a| <= r + 1
  {
    assert HeadInvariant(r, 0, r);
    ArcFromShape(r, 0, r);
    var a := Arc(r);
    var s := ArcFrom(r, 0, r);
    forall j | 0 < j < |a|
      ensures a[j] == s[j - 1]
    {
    }
    BandWithinRadius(r, a[|a| - 1].0, a[|a| - 1].1);
  }

  /** A point of the band with x >= 0 has x <= r. */
  lemma BandWithinRadius(r: int, x: int, y: int)
    requires 0 <= r && 0 <= x && Band(r, x, y)
    ensures x <= r
  {
    assert y * (y - 1) >= 0;
    assert (x - r) * (x + r) <= 0;
  }

  /** The first eight points plotted are the reflections of (0, r): the four axis points
      (xc, yc ± r) and (xc ± r, yc) are always drawn. */
  lemma AxisPointsPlotted(xc: int, yc: int, r: int)
    ensures var p := Plot(xc, yc, Arc(r));
      p[0] == (xc, yc + r) && p[2] == (xc, yc - r) && p[4] == (xc + r, yc) && p[5] == (xc - r, yc)
  {
    var a := Arc(r);
    PlotPrefix(xc, yc, a, 1);
  }

  /** Plotting a walk begins by plotting each of its prefixes. */
  lemma {:induction false} PlotPrefix(xc: int, yc: int, arc: seq<(int, int)>, n: nat)
    requires n <= |arc|
    ensures Plot(xc, yc, arc)[..8 * n] == Plot(xc, yc, arc[..n])
    decreases |arc|
  {
    if n < |arc| {
      PlotPrefix(xc, yc, arc[..|arc| - 1], n);
      assert arc[..|arc| - 1][..n] == arc[..n];
    } else {
      assert arc[..n] == arc;
    }
  }
}
