/** The two-region midpoint ellipse rasterizer (Lab3/Ellipse.cpp). Region 1 steps x while
    the slope is shallower than −1, region 2 steps y down to the x-axis; every visited
    (x, y) is plotted in all four quadrants. The C++ `float` terms are reals here; the
    decision terms are kept as exact multiples of ¼ through the integer functions below. */
module MidpointEllipse {

  /** `plot4Points`: the four reflections of (x, y) about the centre, in emission order. */
  function Quadrants(xc: int, yc: int, x: int, y: int): (r: seq<(int, int)>)
    ensures |r| == 4 && r[0] == (xc + x, yc + y)
  {
    [(xc + x, yc + y), (xc - x, yc + y), (xc + x, yc - y), (xc - x, yc - y)]
  }

  /** The four points are closed under mirroring in the vertical and the horizontal line
      through the centre: the mirror image of the i-th point is at the listed index. */
  lemma QuadrantsSymmetric(xc: int, yc: int, x: int, y: int)
    ensures var r := Quadrants(xc, yc, x, y);
      && (forall i :: 0 <= i < 4 ==> (2 * xc - r[i].0, r[i].1) == r[[1, 0, 3, 2][i]])
      && (forall i :: 0 <= i < 4 ==> (r[i].0, 2 * yc - r[i].1) == r[[2, 3, 0, 1][i]])
  {
  }

  /** Everything plotted for the visited quadrant points, in visiting order. */
  function Plot(xc: int, yc: int, arc: seq<(int, int)>): (r: seq<(int, int)>)
    ensures |r| == 4 * |arc|
  {
    if arc == [] then []
    else Plot(xc, yc, arc[..|arc| - 1]) + Quadrants(xc, yc, arc[|arc| - 1].0, arc[|arc| - 1].1)
  }

  lemma PlotAppend(xc: int, yc: int, arc: seq<(int, int)>, p: (int, int))
    ensures Plot(xc, yc, arc + [p]) == Plot(xc, yc, arc) + Quadrants(xc, yc, p.0, p.1)
  {
    assert (arc + [p])[..|arc|] == arc;
  }

  /** Four times the region-1 decision term: 4·F(x + 1, y − ½), where
      F(X, Y) = ry²·X² + rx²·Y² − rx²·ry² is negative inside the ellipse. */
  function Decision1(rx: int, ry: int, x: int, y: int): int
  {
    4 * (ry * ry) * ((x + 1) * (x + 1)) + (rx * rx) * ((2 * y - 1) * (2 * y - 1)) - 4 * (rx * rx) * (ry * ry)
  }

  /** Four times the region-2 decision term: 4·F(x + ½, y − 1). */
  function Decision2(rx: int, ry: int, x: int, y: int): int
  {
    (ry * ry) * ((2 * x + 1) * (2 * x + 1)) + 4 * (rx * rx) * ((y - 1) * (y - 1)) - 4 * (rx * rx) * (ry * ry)
  }

  /** Region 1 runs while dx < dy, that is while ry²·x < rx²·y. */
  predicate InRegion1(rx: int, ry: int, x: int, y: int)
  {
    ry * ry * x < rx * rx * y
  }

  /** Outside the ellipse's flat part the region-1 decision term is not negative when
      ry == 0, so every region-1 step then lowers y. */
  lemma Decision1FlatCase(rx: int, x: int, y: int)
    ensures Decision1(rx, 0, x, y) >= 0
  {
    assert Decision1(rx, 0, x, y) == rx * rx * (2 * y - 1) * (2 * y - 1);
    assert (2 * y - 1) * (2 * y - 1) >= 0;
  }

  /** The points visited by region 1 after (x, y): x grows by one per step, and y drops
      by one exactly when the decision term is not negative. */
  function Region1From(rx: int, ry: int, x: int, y: int): seq<(int, int)>
    decreases if InRegion1(rx, ry, x, y) then rx * rx * y - ry * ry * x else 0
  {
    if InRegion1(rx, ry, x, y) then
      var y' := if Decision1(rx, ry, x, y) < 0 then y else y - 1;
      Decision1FlatCase(rx, x, y);
      Region1Decreases(rx, ry, x, y, y');
      [(x + 1, y')] + Region1From(rx, ry, x + 1, y')
    else []
  }

  /** The region-1 measure rx²·y − ry²·x strictly decreases with every step. */
  lemma Region1Decreases(rx: int, ry: int, x: int, y: int, y': int)
    requires InRegion1(rx, ry, x, y)
    requires y' == y - 1 || (y' == y && ry != 0)
    ensures rx * rx * y' - ry * ry * (x + 1) < rx * rx * y - ry * ry * x
  {
    assert ry * ry * (x + 1) == ry * ry * x + ry * ry;
    assert rx * rx * (y - 1) == rx * rx * y - rx * rx;
    if y' == y - 1 && rx == 0 {
      assert ry * ry * x < 0;
    }
  }

  /** The points visited by region 2 after (x, y): y drops by one per step down to 0, and
      x grows by one exactly when the decision term is not positive. */
  function Region2From(rx: int, ry: int, x: int, y: int): seq<(int, int)>
    decreases y
  {
    if y > 0 then
      var x' := if Decision2(rx, ry, x, y) > 0 then x else x + 1;
      [(x', y - 1)] + Region2From(rx, ry, x', y - 1)
    else []
  }

  /** The last visited point: `start` when nothing more was visited. */
  function Last(start: (int, int), s: seq<(int, int)>): (int, int)
  {
    if s == [] then start else s[|s| - 1]
  }

  /** All visited quadrant points: (0, ry), then region 1, then region 2 from where
      region 1 stopped. */
  function Arc(rx: int, ry: int): seq<(int, int)>
  {
    var r1 := Region1From(rx, ry, 0, ry);
    var e := Last((0, ry), r1);
    [(0, ry)] + r1 + Region2From(rx, ry, e.0, e.1)
  }

  /** The incremental updates of the region-1 decision term (with dx == 2·ry²·x and
      dy == 2·rx²·y taken after the update) keep it equal to 4·F(x + 1, y − ½)/4. */
  lemma Decision1Step(rx: int, ry: int, x: int, y: int)
    ensures Decision1(rx, ry, x + 1, y) == Decision1(rx, ry, x, y) + 4 * (ry * ry + 2 * ry * ry * (x + 1))
    ensures Decision1(rx, ry, x + 1, y - 1)
      == Decision1(rx, ry, x, y) + 4 * (ry * ry + 2 * ry * ry * (x + 1) - 2 * rx * rx * (y - 1))
  {
    var a, b := rx * rx, ry * ry;
    ScaledSquareStep(4 * b, x + 1, (x + 1) + 1, 1);
    ScaledSquareStep(a, 2 * y - 1, 2 * (y - 1) - 1, -2);
  }

  /** k·(u + h)² == k·u² + k·h·(2u + h): the change of a scaled square under a shift. */
  lemma ScaledSquareStep(k: int, u: int, w: int, h: int)
    requires w == u + h
    ensures k * (w * w) == k * (u * u) + k * h * (2 * u + h)
  {
    assert w * w == u * u + h * (2 * u + h);
  }

  /** The incremental updates of the region-2 decision term keep it equal to 4·F(x + ½, y − 1)/4. */
  lemma Decision2Step(rx: int, ry: int, x: int, y: int)
    ensures Decision2(rx, ry, x, y - 1) == Decision2(rx, ry, x, y) + 4 * (rx * rx - 2 * rx * rx * (y - 1))
    ensures Decision2(rx, ry, x + 1, y - 1)
      == Decision2(rx, ry, x, y) + 4 * (rx * rx - 2 * rx * rx * (y - 1) + 2 * ry * ry * (x + 1))
  {
    ScaledSquareStep(ry * ry, 2 * x + 1, 2 * (x + 1) + 1, 2);
    ScaledSquareStep(4 * (rx * rx), y - 1, (y - 1) - 1, -1);
  }

  /** The running terms of region 1: dx == 2·ry²·x, dy == 2·rx²·y and p1 == F(x + 1, y − ½). */
  predicate Terms1(rx: int, ry: int, x: int, y: int, dx: real, dy: real, p1: real)
  {
    dx == (2 * ry * ry * x) as real && dy == (2 * rx * rx * y) as real
    && 4.0 * p1 == Decision1(rx, ry, x, y) as real
  }

  /** The running terms of region 2: dx and dy as in region 1, and p2 == F(x + ½, y − 1). */
  predicate Terms2(rx: int, ry: int, x: int, y: int, dx: real, dy: real, p2: real)
  {
    dx == (2 * ry * ry * x) as real && dy == (2 * rx * rx * y) as real
    && 4.0 * p2 == Decision2(rx, ry, x, y) as real
  }

  /** Initially (x, y) = (0, ry), dx = 0, dy = 2·rx²·ry and p1 = ry² − rx²·ry + rx²/4,
      computed from rx² and ry² as the source does. */
  lemma Terms1Initial(rx: int, ry: int, rx2: real, ry2: real, dy: real, p1: real)
    requires rx2 == (rx * rx) as real && ry2 == (ry * ry) as real
    requires dy == 2.0 * rx2 * ry as real && p1 == ry2 - (rx2 * ry as real) + (0.25 * rx2)
    ensures Terms1(rx, ry, 0, ry, 0.0, dy, p1)
  {
    var a := rx * rx;
    RealProduct(a, ry);
    assert Decision1(rx, ry, 0, ry) == 4 * ry * ry - 4 * a * ry + a;
  }

  /** A region-1 step that keeps y keeps the running terms. */
  lemma Terms1StepAcross(rx: int, ry: int, x: int, y: int, dx: real, dy: real, p1: real)
    requires Terms1(rx, ry, x, y, dx, dy, p1)
    ensures Terms1(rx, ry, x + 1, y, dx + 2.0 * (ry * ry) as real, dy,
                   p1 + (ry * ry) as real + (dx + 2.0 * (ry * ry) as real))
  {
    var dx' := dx + 2.0 * (ry * ry) as real;
    assert dx' == (2 * ry * ry * (x + 1)) as real by {
      ScaledShift(2 * ry * ry, x, 1, 2.0 * (ry * ry) as real);
    }
    assert 4.0 * (p1 + (ry * ry) as real + dx') == Decision1(rx, ry, x + 1, y) as real by {
      ScaledSquareStep(4 * (ry * ry), x + 1, (x + 1) + 1, 1);
      assert Decision1(rx, ry, x + 1, y) == Decision1(rx, ry, x, y) + 4 * (ry * ry + 2 * ry * ry * (x + 1));
      AcrossTerm(Decision1(rx, ry, x, y), Decision1(rx, ry, x + 1, y), ry * ry, 2 * ry * ry * (x + 1), p1, dx');
    }
  }

  /** A region-1 step that lowers y keeps the running terms. */
  lemma Terms1StepDown(rx: int, ry: int, x: int, y: int, dx: real, dy: real, p1: real)
    requires Terms1(rx, ry, x, y, dx, dy, p1)
    ensures Terms1(rx, ry, x + 1, y - 1, dx + 2.0 * (ry * ry) as real, dy - 2.0 * (rx * rx) as real,
                   p1 + (ry * ry) as real + (dx + 2.0 * (ry * ry) as real) - (dy - 2.0 * (rx * rx) as real))
  {
    var dx' := dx + 2.0 * (ry * ry) as real;
    Terms1StepAcross(rx, ry, x, y, dx, dy, p1);
    Terms1Drop(rx, ry, x + 1, y, dx', dy, p1 + (ry * ry) as real + dx');
  }

  /** Lowering y alone keeps the region-1 running terms; a region-1 step that lowers y is
      a step that keeps y followed by this one. */
  lemma Terms1Drop(rx: int, ry: int, x: int, y: int, dx: real, dy: real, p1: real)
    requires Terms1(rx, ry, x, y, dx, dy, p1)
    ensures Terms1(rx, ry, x, y - 1, dx, dy - 2.0 * (rx * rx) as real, p1 - (dy - 2.0 * (rx * rx) as real))
  {
    var dy' := dy - 2.0 * (rx * rx) as real;
    assert dy' == (2 * rx * rx * (y - 1)) as real by {
      ScaledShift(2 * rx * rx, y, -1, -2.0 * (rx * rx) as real);
    }
    assert 4.0 * (p1 - dy') == Decision1(rx, ry, x, y - 1) as real by {
      ScaledSquareStep(rx * rx, 2 * y - 1, 2 * (y - 1) - 1, -2);
      assert Decision1(rx, ry, x, y - 1) == Decision1(rx, ry, x, y) - 4 * (2 * rx * rx * (y - 1));
      DropTerm(Decision1(rx, ry, x, y), Decision1(rx, ry, x, y - 1), 2 * rx * rx * (y - 1), p1, dy');
    }
  }

  /** k·(x + h) == k·x + k·h, cast to the reals, with c standing for k·h. */
  lemma ScaledShift(k: int, x: int, h: int, c: real)
    requires c == (k * h) as real
    ensures (k * (x + h)) as real == (k * x) as real + c
  {
  }

  /** The decision-term update of a step that keeps y, on its integer parts. */
  lemma AcrossTerm(d0: int, d1: int, b: int, u: int, p: real, dx: real)
    requires d1 == d0 + 4 * (b + u) && 4.0 * p == d0 as real && dx == u as real
    ensures 4.0 * (p + b as real + dx) == d1 as real
  {
  }

  /** The decision-term update of lowering y alone, on its integer parts. */
  lemma DropTerm(d0: int, d1: int, v: int, p: real, dy: real)
    requires d1 == d0 - 4 * v && 4.0 * p == d0 as real && dy == v as real
    ensures 4.0 * (p - dy) == d1 as real
  {
  }

  /** The source's floating-point tests are the integer tests of the model. */
  lemma Terms1Tests(rx: int, ry: int, x: int, y: int, dx: real, dy: real, p1: real)
    requires Terms1(rx, ry, x, y, dx, dy, p1)
    ensures p1 < 0.0 <==> Decision1(rx, ry, x, y) < 0
    ensures dx < dy <==> InRegion1(rx, ry, x, y)
  {
    var u, v := ry * ry * x, rx * rx * y;
    assert 2 * ry * ry * x == 2 * u && 2 * rx * rx * y == 2 * v;
    assert dx == 2.0 * u as real && dy == 2.0 * v as real;
  }

  /** At the hand-off p2 = ry²(x + ½)² + rx²(y − 1)² − rx²·ry², as the source computes it. */
  lemma Terms2Initial(rx: int, ry: int, x: int, y: int, dx: real, dy: real, rx2: real, ry2: real, p2: real)
    requires rx2 == (rx * rx) as real && ry2 == (ry * ry) as real
    requires dx == (2 * ry * ry * x) as real && dy == (2 * rx * rx * y) as real
    requires p2 == ry2 * (x as real + 0.5) * (x as real + 0.5) + rx2 * (y - 1) as real * (y - 1) as real - rx2 * ry2
    ensures Terms2(rx, ry, x, y, dx, dy, p2)
  {
    Decision2Scaled(rx, ry, x, y);
  }

  /** A region-2 step that keeps x keeps the running terms. */
  lemma Terms2Keep(rx: int, ry: int, x: int, y: int, dx: real, dy: real, p2: real)
    requires Terms2(rx, ry, x, y, dx, dy, p2)
    ensures Terms2(rx, ry, x, y - 1, dx, dy - 2.0 * (rx * rx) as real,
                   p2 + (rx * rx) as real - (dy - 2.0 * (rx * rx) as real))
  {
    var dy' := dy - 2.0 * (rx * rx) as real;
    assert dy' == (2 * rx * rx * (y - 1)) as real by {
      ScaledShift(2 * rx * rx, y, -1, -2.0 * (rx * rx) as real);
    }
    assert 4.0 * (p2 + (rx * rx) as real - dy') == Decision2(rx, ry, x, y - 1) as real by {
      ScaledSquareStep(4 * (rx * rx), y - 1, (y - 1) - 1, -1);
      assert Decision2(rx, ry, x, y - 1) == Decision2(rx, ry, x, y) + 4 * (rx * rx - 2 * rx * rx * (y - 1));
      KeepTerm(Decision2(rx, ry, x, y), Decision2(rx, ry, x, y - 1), rx * rx, 2 * rx * rx * (y - 1), p2, dy');
    }
  }

  /** A region-2 step that advances x keeps the running terms. */
  lemma Terms2Advance(rx: int, ry: int, x: int, y: int, dx: real, dy: real, p2: real)
    requires Terms2(rx, ry, x, y, dx, dy, p2)
    ensures Terms2(rx, ry, x + 1, y - 1, dx + 2.0 * (ry * ry) as real, dy - 2.0 * (rx * rx) as real,
                   p2 + (rx * rx) as real - (dy - 2.0 * (rx * rx) as real) + (dx + 2.0 * (ry * ry) as real))
  {
    var dy' := dy - 2.0 * (rx * rx) as real;
    Terms2Keep(rx, ry, x, y, dx, dy, p2);
    Terms2Across(rx, ry, x, y - 1, dx, dy', p2 + (rx * rx) as real - dy');
  }

  /** Advancing x alone keeps the region-2 running terms; a region-2 step that advances x
      is a step that keeps x followed by this one. */
  lemma Terms2Across(rx: int, ry: int, x: int, y: int, dx: real, dy: real, p2: real)
    requires Terms2(rx, ry, x, y, dx, dy, p2)
    ensures Terms2(rx, ry, x + 1, y, dx + 2.0 * (ry * ry) as real, dy, p2 + (dx + 2.0 * (ry * ry) as real))
  {
    var dx' := dx + 2.0 * (ry * ry) as real;
    assert dx' == (2 * ry * ry * (x + 1)) as real by {
      ScaledShift(2 * ry * ry, x, 1, 2.0 * (ry * ry) as real);
    }
    assert 4.0 * (p2 + dx') == Decision2(rx, ry, x + 1, y) as real by {
      ScaledSquareStep(ry * ry, 2 * x + 1, 2 * (x + 1) + 1, 2);
      assert Decision2(rx, ry, x + 1, y) == Decision2(rx, ry, x, y) + 4 * (2 * ry * ry * (x + 1));
      AcrossTerm(Decision2(rx, ry, x, y), Decision2(rx, ry, x + 1, y), 0, 2 * ry * ry * (x + 1), p2, dx');
    }
  }

  /** The source's floating-point test `p2 > 0` is the integer test of the model. */
  lemma Terms2Test(rx: int, ry: int, x: int, y: int, dx: real, dy: real, p2: real)
    requires Terms2(rx, ry, x, y, dx, dy, p2)
    ensures p2 > 0.0 <==> Decision2(rx, ry, x, y) > 0
  {
  }

  /** The region-2 decision-term update of a step that keeps x, on its integer parts. */
  lemma KeepTerm(d0: int, d1: int, a: int, v: int, p: real, dy: real)
    requires d1 == d0 + 4 * (a - v) && 4.0 * p == d0 as real && dy == v as real
    ensures 4.0 * (p + a as real - dy) == d1 as real
  {
  }

  /** The region-2 decision-term update of a step that advances x, on its integer parts. */
  lemma AdvanceTerm(d0: int, d1: int, a: int, v: int, u: int, p: real, dy: real, dx: real)
    requires d1 == d0 + 4 * (a - v + u) && 4.0 * p == d0 as real && dy == v as real && dx == u as real
    ensures 4.0 * (p + a as real - dy + dx) == d1 as real
  {
  }

  /** A product of integers computed in floating point is the integer product (the model
      ignores overflow and rounding of large values). */
  lemma RealProduct(a: int, b: int)
    ensures (a as real) * (b as real) == (a * b) as real
  {
  }

  /** Plotting a walk made of two parts plots the parts one after the other. */
  lemma {:induction false} PlotConcat(xc: int, yc: int, a: seq<(int, int)>, b: seq<(int, int)>)
    ensures Plot(xc, yc, a + b) == Plot(xc, yc, a) + Plot(xc, yc, b)
    decreases |b|
  {
    if b != [] {
      var b' := b[..|b| - 1];
      PlotConcat(xc, yc, a, b');
      assert (a + b)[..|a + b| - 1] == a + b';
    } else {
      assert a + b == a;
    }
  }

  /** The region-1 loop as the source runs it, on the running floating-point terms: while
      dx < dy, x advances, and y drops unless p1 < 0; dx, dy and p1 are updated
      incrementally. Its termination rests on the terms agreeing with (x, y). */
  function Walk1(rx: int, ry: int, x: int, y: int, dx: real, dy: real, p1: real): seq<(int, int)>
    requires Terms1(rx, ry, x, y, dx, dy, p1)
    decreases if InRegion1(rx, ry, x, y) then rx * rx * y - ry * ry * x else 0
  {
    Terms1Tests(rx, ry, x, y, dx, dy, p1);
    Decision1FlatCase(rx, x, y);
    if dx < dy then
      var dx' := dx + 2.0 * (ry * ry) as real;
      if p1 < 0.0 then
        Terms1StepAcross(rx, ry, x, y, dx, dy, p1);
        Region1Decreases(rx, ry, x, y, y);
        [(x + 1, y)] + Walk1(rx, ry, x + 1, y, dx', dy, p1 + (ry * ry) as real + dx')
      else
        var dy' := dy - 2.0 * (rx * rx) as real;
        Terms1StepDown(rx, ry, x, y, dx, dy, p1);
        Region1Decreases(rx, ry, x, y, y - 1);
        [(x + 1, y - 1)] + Walk1(rx, ry, x + 1, y - 1, dx', dy', p1 + (ry * ry) as real + dx' - dy')
    else []
  }

  /** The region-2 loop as the source runs it: while y > 0, y drops, and x advances unless
      p2 > 0; dx, dy and p2 are updated incrementally. */
  function Walk2(rx: int, ry: int, x: int, y: int, dx: real, dy: real, p2: real): seq<(int, int)>
    decreases y
  {
    if y > 0 then
      var dy' := dy - 2.0 * (rx * rx) as real;
      if p2 > 0.0 then
        [(x, y - 1)] + Walk2(rx, ry, x, y - 1, dx, dy', p2 + (rx * rx) as real - dy')
      else
        var dx' := dx + 2.0 * (ry * ry) as real;
        [(x + 1, y - 1)] + Walk2(rx, ry, x + 1, y - 1, dx', dy', p2 + (rx * rx) as real - dy' + dx')
    else []
  }

  /** While the running terms agree with (x, y), the incremental region-1 walk visits
      exactly the points the decision term defines. */
  lemma {:induction false} Walk1IsRegion1(rx: int, ry: int, x: int, y: int, dx: real, dy: real, p1: real)
    requires Terms1(rx, ry, x, y, dx, dy, p1)
    ensures Walk1(rx, ry, x, y, dx, dy, p1) == Region1From(rx, ry, x, y)
    decreases if InRegion1(rx, ry, x, y) then rx * rx * y - ry * ry * x else 0
  {
    Terms1Tests(rx, ry, x, y, dx, dy, p1);
    Decision1FlatCase(rx, x, y);
    if dx < dy {
      var dx' := dx + 2.0 * (ry * ry) as real;
      if p1 < 0.0 {
        Terms1StepAcross(rx, ry, x, y, dx, dy, p1);
        Region1Decreases(rx, ry, x, y, y);
        Walk1IsRegion1(rx, ry, x + 1, y, dx', dy, p1 + (ry * ry) as real + dx');
      } else {
        var dy' := dy - 2.0 * (rx * rx) as real;
        Terms1StepDown(rx, ry, x, y, dx, dy, p1);
        Region1Decreases(rx, ry, x, y, y - 1);
        Walk1IsRegion1(rx, ry, x + 1, y - 1, dx', dy', p1 + (ry * ry) as real + dx' - dy');
      }
    }
  }

  /** While the running terms agree with (x, y), the incremental region-2 walk visits
      exactly the points the decision term defines. */
  lemma {:induction false} Walk2IsRegion2(rx: int, ry: int, x: int, y: int, dx: real, dy: real, p2: real)
    requires Terms2(rx, ry, x, y, dx, dy, p2)
    ensures Walk2(rx, ry, x, y, dx, dy, p2) == Region2From(rx, ry, x, y)
    decreases y
  {
    if y > 0 {
      Terms2Test(rx, ry, x, y, dx, dy, p2);
      var dy' := dy - 2.0 * (rx * rx) as real;
      if p2 > 0.0 {
        Terms2Keep(rx, ry, x, y, dx, dy, p2);
        Walk2IsRegion2(rx, ry, x, y - 1, dx, dy', p2 + (rx * rx) as real - dy');
      } else {
        var dx' := dx + 2.0 * (ry * ry) as real;
        Terms2Advance(rx, ry, x, y, dx, dy, p2);
        Walk2IsRegion2(rx, ry, x + 1, y - 1, dx', dy', p2 + (rx * rx) as real - dy' + dx');
      }
    }
  }

  /** A region-1 step of the walk that keeps y (p1 < 0). */
  lemma Walk1Across(rx: int, ry: int, x: int, y: int, dx: real, dy: real, p1: real)
    requires Terms1(rx, ry, x, y, dx, dy, p1) && dx < dy && p1 < 0.0
    ensures Terms1(rx, ry, x + 1, y, dx + 2.0 * (ry * ry) as real, dy,
                   p1 + (ry * ry) as real + (dx + 2.0 * (ry * ry) as real))
    ensures Walk1(rx, ry, x, y, dx, dy, p1)
      == [(x + 1, y)] + Walk1(rx, ry, x + 1, y, dx + 2.0 * (ry * ry) as real, dy,
                              p1 + (ry * ry) as real + (dx + 2.0 * (ry * ry) as real))
  {
    Terms1StepAcross(rx, ry, x, y, dx, dy, p1);
  }

  /** A region-1 step of the walk that lowers y (p1 >= 0). */
  lemma Walk1Down(rx: int, ry: int, x: int, y: int, dx: real, dy: real, p1: real)
    requires Terms1(rx, ry, x, y, dx, dy, p1) && dx < dy && p1 >= 0.0
    ensures Terms1(rx, ry, x + 1, y - 1, dx + 2.0 * (ry * ry) as real, dy - 2.0 * (rx * rx) as real,
                   p1 + (ry * ry) as real + (dx + 2.0 * (ry * ry) as real) - (dy - 2.0 * (rx * rx) as real))
    ensures Walk1(rx, ry, x, y, dx, dy, p1)
      == [(x + 1, y - 1)] + Walk1(rx, ry, x + 1, y - 1, dx + 2.0 * (ry * ry) as real,
                                  dy - 2.0 * (rx * rx) as real,
                                  p1 + (ry * ry) as real + (dx + 2.0 * (ry * ry) as real)
                                  - (dy - 2.0 * (rx * rx) as real))
  {
    Terms1StepDown(rx, ry, x, y, dx, dy, p1);
  }

  /** The region-1 loop of `midpointEllipse`, from the state (x, y, dx, dy, p1) it is entered
      with: it emits the reflections of the points of the walk and leaves x, y, dx, dy at
      the hand-off point. */
  method Region1(xc: int, yc: int, rx: int, ry: int, rx2: real, ry2: real,
                 x0: int, y0: int, dx0: real, dy0: real, p10: real)
    returns (x: int, y: int, dx: real, dy: real, emitted: seq<(int, int)>)
    requires rx2 == (rx * rx) as real && ry2 == (ry * ry) as real
    requires Terms1(rx, ry, x0, y0, dx0, dy0, p10)
    ensures emitted == Plot(xc, yc, Walk1(rx, ry, x0, y0, dx0, dy0, p10))
    ensures (x, y) == Last((x0, y0), Walk1(rx, ry, x0, y0, dx0, dy0, p10))
    ensures dx == (2 * ry * ry * x) as real && dy == (2 * rx * rx * y) as real
  {
    var twoRx2 := 2.0 * rx2;
    var twoRy2 := 2.0 * ry2;
    x, y, dx, dy := x0, y0, dx0, dy0;
    var p1 := p10;
    emitted := [];
    ghost var total := Walk1(rx, ry, x0, y0, dx0, dy0, p10);
    ghost var visited, rest := [], total;
    while dx < dy
      invariant Terms1(rx, ry, x, y, dx, dy, p1)
      invariant rest == Walk1(rx, ry, x, y, dx, dy, p1)
      invariant visited + rest == total
      invariant Last((x0, y0), total) == Last((x, y), rest)
      invariant emitted == Plot(xc, yc, visited)
      decreases rx * rx * y - ry * ry * x
    {
      ghost var xs, ys, dxs, dys, ps := x, y, dx, dy, p1;
      Terms1Tests(rx, ry, x, y, dx, dy, p1);
      Decision1FlatCase(rx, x, y);
      x := x + 1;
      dx := dx + twoRy2;
      if p1 < 0.0 {
        p1 := p1 + ry2 + dx;
        Walk1Across(rx, ry, xs, ys, dxs, dys, ps);
        Region1Decreases(rx, ry, xs, ys, ys);
      } else {
        y := y - 1;
        dy := dy - twoRx2;
        p1 := p1 + ry2 + dx - dy;
        Walk1Down(rx, ry, xs, ys, dxs, dys, ps);
        Region1Decreases(rx, ry, xs, ys, ys - 1);
      }
      ghost var rest' := Walk1(rx, ry, x, y, dx, dy, p1);
      assert rest == [(x, y)] + rest';
      assert (visited + [(x, y)]) + rest' == visited + rest;
      PlotAppend(xc, yc, visited, (x, y));
      visited, rest := visited + [(x, y)], rest';
      emitted := emitted + Quadrants(xc, yc, x, y);
    }
    assert rest == [];
    assert visited == total;
  }

  /** The region-2 loop of `midpointEllipse`, from the hand-off state: it emits the
      reflections of the points of the walk. */
  method Region2(xc: int, yc: int, rx: int, ry: int, rx2: real, ry2: real,
                 x0: int, y0: int, dx0: real, dy0: real, p20: real)
    returns (emitted: seq<(int, int)>)
    requires rx2 == (rx * rx) as real && ry2 == (ry * ry) as real
    ensures emitted == Plot(xc, yc, Walk2(rx, ry, x0, y0, dx0, dy0, p20))
  {
    var twoRx2 := 2.0 * rx2;
    var twoRy2 := 2.0 * ry2;
    var x, y, dx, dy, p2 := x0, y0, dx0, dy0, p20;
    emitted := [];
    ghost var total := Walk2(rx, ry, x0, y0, dx0, dy0, p20);
    ghost var visited, rest := [], total;
    while y > 0
      invariant rest == Walk2(rx, ry, x, y, dx, dy, p2)
      invariant visited + rest == total
      invariant emitted == Plot(xc, yc, visited)
      decreases y
    {
      ghost var xs, ys, dxs, dys, ps := x, y, dx, dy, p2;
      y := y - 1;
      dy := dy - twoRx2;
      if p2 > 0.0 {
        p2 := p2 + rx2 - dy;
        Walk2Keep(rx, ry, xs, ys, dxs, dys, ps, rx2);
      } else {
        x := x + 1;
        dx := dx + twoRy2;
        p2 := p2 + rx2 - dy + dx;
        Walk2Advance(rx, ry, xs, ys, dxs, dys, ps, rx2, ry2);
      }
      ghost var rest' := Walk2(rx, ry, x, y, dx, dy, p2);
      assert rest == [(x, y)] + rest';
      assert (visited + [(x, y)]) + rest' == visited + rest;
      PlotAppend(xc, yc, visited, (x, y));
      visited, rest := visited + [(x, y)], rest';
      emitted := emitted + Quadrants(xc, yc, x, y);
    }
    assert rest == [];
    assert visited == total;
  }

  /** A region-2 step of the walk that keeps x (p2 > 0). */
  lemma Walk2Keep(rx: int, ry: int, x: int, y: int, dx: real, dy: real, p2: real, rx2: real)
    requires rx2 == (rx * rx) as real && y > 0 && p2 > 0.0
    ensures Walk2(rx, ry, x, y, dx, dy, p2)
      == [(x, y - 1)] + Walk2(rx, ry, x, y - 1, dx, dy - 2.0 * rx2, p2 + rx2 - (dy - 2.0 * rx2))
  {
  }

  /** A region-2 step of the walk that advances x (p2 <= 0). */
  lemma Walk2Advance(rx: int, ry: int, x: int, y: int, dx: real, dy: real, p2: real, rx2: real, ry2: real)
    requires rx2 == (rx * rx) as real && ry2 == (ry * ry) as real && y > 0 && p2 <= 0.0
    ensures Walk2(rx, ry, x, y, dx, dy, p2)
      == [(x + 1, y - 1)] + Walk2(rx, ry, x + 1, y - 1, dx + 2.0 * ry2, dy - 2.0 * rx2,
                                  p2 + rx2 - (dy - 2.0 * rx2) + (dx + 2.0 * ry2))
  {
  }

  /** `midpointEllipse`: the initial terms as the source computes them, then region 1 from
      (0, ry), then region 2 from where region 1 stopped. The emitted points are the
      four-way reflections of the visited points. */
  method MidpointEllipse(xc: int, yc: int, rx: int, ry: int) returns (points: seq<(int, int)>)
    ensures points == Plot(xc, yc, Arc(rx, ry))
  {
    var rx2: real := (rx * rx) as real;
    var ry2: real := (ry * ry) as real;
    var twoRx2 := 2.0 * rx2;
    var x := 0;
    var y := ry;
    var dx: real := 0.0;
    var dy := twoRx2 * y as real;
    points := Quadrants(xc, yc, x, y);
    var p1 := ry2 - (rx2 * ry as real) + (0.25 * rx2);
    Terms1Initial(rx, ry, rx2, ry2, dy, p1);
    Walk1IsRegion1(rx, ry, 0, ry, dx, dy, p1);
    var more;
    x, y, dx, dy, more := Region1(xc, yc, rx, ry, rx2, ry2, x, y, dx, dy, p1);
    var p2 := ry2 * (x as real + 0.5) * (x as real + 0.5) + rx2 * (y - 1) as real * (y - 1) as real - rx2 * ry2;
    Terms2Initial(rx, ry, x, y, dx, dy, rx2, ry2, p2);
    Walk2IsRegion2(rx, ry, x, y, dx, dy, p2);
    var rest := Region2(xc, yc, rx, ry, rx2, ry2, x, y, dx, dy, p2);
    ArcPlot(xc, yc, rx, ry);
    points := points + more + rest;
  }

  /** Plotting the arc plots (0, ry), then region 1, then region 2. */
  lemma ArcPlot(xc: int, yc: int, rx: int, ry: int)
    ensures var r1 := Region1From(rx, ry, 0, ry); var e := Last((0, ry), r1);
      Plot(xc, yc, Arc(rx, ry))
      == Quadrants(xc, yc, 0, ry) + Plot(xc, yc, r1) + Plot(xc, yc, Region2From(rx, ry, e.0, e.1))
  {
    var r1 := Region1From(rx, ry, 0, ry);
    var e := Last((0, ry), r1);
    PlotAppend(xc, yc, [], (0, ry));
    PlotConcat(xc, yc, [(0, ry)], r1);
    PlotConcat(xc, yc, [(0, ry)] + r1, Region2From(rx, ry, e.0, e.1));
  }

  /** The source's floating-point formula for the initial region-2 term, times four, is
      `Decision2`. */
  lemma Decision2Scaled(rx: int, ry: int, x: int, y: int)
    ensures 4.0 * ((ry * ry) as real * (x as real + 0.5) * (x as real + 0.5)
                   + (rx * rx) as real * (y - 1) as real * (y - 1) as real
                   - (rx * rx) as real * (ry * ry) as real)
      == Decision2(rx, ry, x, y) as real
  {
    var a, b := ry * ry, rx * rx;
    var u, v := 2 * x + 1, y - 1;
    HalfSquare(a as real, x);
    TripleProduct(a, u, u);
    TripleProduct(b, v, v);
    RealProduct(b, a);
    assert Decision2(rx, ry, x, y) == a * u * u + 4 * (b * v * v) - 4 * (b * a);
  }

  /** b·(x + ½)², times four, is b·(2x + 1)². */
  lemma HalfSquare(b: real, x: int)
    ensures 4.0 * (b * (x as real + 0.5) * (x as real + 0.5)) == b * (2 * x + 1) as real * (2 * x + 1) as real
  {
    var h := x as real + 0.5;
    assert (2 * x + 1) as real == 2.0 * h;
    assert b * (2.0 * h) * (2.0 * h) == 4.0 * (b * h * h);
  }

  /** A product of three integers computed in floating point is the integer product. */
  lemma TripleProduct(a: int, b: int, c: int)
    ensures a as real * b as real * c as real == (a * b * c) as real
  {
    RealProduct(a, b);
    RealProduct(a * b, c);
  }

  /** Consecutive visited points are 8-connected neighbours on the arc from (0, ry) to the
      x-axis: x never decreases, y never increases, each by at most one, and no point repeats. */
  predicate Step(p: (int, int), q: (int, int))
  {
    0 <= q.0 - p.0 <= 1 && 0 <= p.1 - q.1 <= 1 && p != q
  }

  predicate Stepwise(s: seq<(int, int)>)
  {
    forall i :: 1 <= i < |s| ==> Step(s[i - 1], s[i])
  }

  lemma StepwiseCons(p: (int, int), s: seq<(int, int)>)
    requires s != [] ==> Step(p, s[0])
    requires Stepwise(s)
    ensures Stepwise([p] + s)
  {
    forall i | 2 <= i < |[p] + s|
      ensures Step(([p] + s)[i - 1], ([p] + s)[i])
    {
      assert ([p] + s)[i - 1] == s[i - 2] && ([p] + s)[i] == s[i - 1];
    }
  }

  lemma StepwiseJoin(a: seq<(int, int)>, b: seq<(int, int)>)
    requires a != [] && Stepwise(a) && Stepwise([a[|a| - 1]] + b)
    ensures Stepwise(a + b)
  {
    forall i | 1 <= i < |a + b|
      ensures Step((a + b)[i - 1], (a + b)[i])
    {
      if i >= |a| {
        var c := [a[|a| - 1]] + b;
        assert (a + b)[i - 1] == c[i - |a|] && (a + b)[i] == c[i - |a| + 1];
      }
    }
  }

  /** Every region-1 step moves one column right and stays on the row or drops by one. */
  lemma {:induction false} Region1Stepwise(rx: int, ry: int, x: int, y: int)
    ensures Stepwise([(x, y)] + Region1From(rx, ry, x, y))
    decreases if InRegion1(rx, ry, x, y) then rx * rx * y - ry * ry * x else 0
  {
    if InRegion1(rx, ry, x, y) {
      var y' := if Decision1(rx, ry, x, y) < 0 then y else y - 1;
      Decision1FlatCase(rx, x, y);
      Region1Decreases(rx, ry, x, y, y');
      Region1Stepwise(rx, ry, x + 1, y');
      StepwiseCons((x, y), [(x + 1, y')] + Region1From(rx, ry, x + 1, y'));
    }
  }

  /** Every region-2 step moves one row down and stays in the column or moves one right. */
  lemma {:induction false} Region2Stepwise(rx: int, ry: int, x: int, y: int)
    ensures Stepwise([(x, y)] + Region2From(rx, ry, x, y))
    decreases y
  {
    if y > 0 {
      var x' := if Decision2(rx, ry, x, y) > 0 then x else x + 1;
      Region2Stepwise(rx, ry, x', y - 1);
      StepwiseCons((x, y), [(x', y - 1)] + Region2From(rx, ry, x', y - 1));
    }
  }

  /** Region 1, entered in the first quadrant, stays there and stops exactly where the
      slope reaches −1: at its last point ry²·x >= rx²·y, the test that hands over to region 2. */
  lemma {:induction false} Region1Ends(rx: int, ry: int, x: int, y: int)
    requires x >= 0 && y >= 0
    ensures var s := Region1From(rx, ry, x, y); var e := Last((x, y), s);
      && e.0 >= x && e.1 >= 0 && !InRegion1(rx, ry, e.0, e.1)
      && forall i :: 0 <= i < |s| ==> s[i].0 > x && s[i].1 >= 0
    decreases if InRegion1(rx, ry, x, y) then rx * rx * y - ry * ry * x else 0
  {
    if InRegion1(rx, ry, x, y) {
      assert ry * ry * x >= 0;
      assert y > 0;
      var y' := if Decision1(rx, ry, x, y) < 0 then y else y - 1;
      Decision1FlatCase(rx, x, y);
      Region1Decreases(rx, ry, x, y, y');
      Region1Ends(rx, ry, x + 1, y');
      var t := Region1From(rx, ry, x + 1, y');
      var s := [(x + 1, y')] + t;
      assert Last((x, y), s) == Last((x + 1, y'), t);
      forall i | 1 <= i < |s|
        ensures s[i].0 > x && s[i].1 >= 0
      {
        assert s[i] == t[i - 1];
      }
    }
  }

  /** Region 2 from a point on or above the x-axis takes one step per row and ends on the
      x-axis, never moving left. */
  lemma {:induction false} Region2Ends(rx: int, ry: int, x: int, y: int)
    requires y >= 0
    ensures var s := Region2From(rx, ry, x, y);
      && |s| == y && Last((x, y), s).1 == 0
      && forall i :: 0 <= i < |s| ==> s[i].0 >= x && s[i].1 == y - 1 - i
    decreases y
  {
    if y > 0 {
      var x' := if Decision2(rx, ry, x, y) > 0 then x else x + 1;
      Region2Ends(rx, ry, x', y - 1);
      var t := Region2From(rx, ry, x', y - 1);
      var s := [(x', y - 1)] + t;
      assert Last((x, y), s) == Last((x', y - 1), t);
      forall i | 1 <= i < |s|
        ensures s[i].0 >= x && s[i].1 == y - 1 - i
      {
        assert s[i] == t[i - 1];
      }
    }
  }

  /** Four times F(x, y + ½): the midpoint above (x, y) relative to the ellipse. */
  function Above(rx: int, ry: int, x: int, y: int): int
  {
    4 * (ry * ry) * (x * x) + (rx * rx) * ((2 * y + 1) * (2 * y + 1)) - 4 * (rx * rx) * (ry * ry)
  }

  /** No point of `s` lies more than half a pixel inside the ellipse. */
  predicate NotInside(rx: int, ry: int, s: seq<(int, int)>)
  {
    forall i :: 0 <= i < |s| ==> Above(rx, ry, s[i].0, s[i].1) >= 0
  }

  lemma NotInsideCons(rx: int, ry: int, p: (int, int), t: seq<(int, int)>)
    requires Above(rx, ry, p.0, p.1) >= 0 && NotInside(rx, ry, t)
    ensures NotInside(rx, ry, [p] + t)
  {
    var s := [p] + t;
    forall i | 0 <= i < |s|
      ensures Above(rx, ry, s[i].0, s[i].1) >= 0
    {
      if i > 0 {
        assert s[i] == t[i - 1];
      }
    }
  }

  /** The decision rule of region 1 never leaves a point more than half a pixel inside the
      ellipse: the midpoint above every region-1 point is on or outside it. */
  lemma {:induction false} Region1NotInside(rx: int, ry: int, x: int, y: int)
    requires x >= 0 && Above(rx, ry, x, y) >= 0
    ensures NotInside(rx, ry, Region1From(rx, ry, x, y))
    decreases if InRegion1(rx, ry, x, y) then rx * rx * y - ry * ry * x else 0
  {
    if InRegion1(rx, ry, x, y) {
      var y' := if Decision1(rx, ry, x, y) < 0 then y else y - 1;
      Decision1FlatCase(rx, x, y);
      Region1Decreases(rx, ry, x, y, y');
      AboveMoves(rx, ry, x, y);
      assert Above(rx, ry, x + 1, y') >= 0 by {
        if Decision1(rx, ry, x, y) < 0 {
          assert y' == y;
        } else {
          assert y' == y - 1;
        }
      }
      Region1NotInside(rx, ry, x + 1, y');
      NotInsideCons(rx, ry, (x + 1, y'), Region1From(rx, ry, x + 1, y'));
    }
  }

  /** Moving right does not bring the upper midpoint inside; dropping a row makes it the
      region-1 midpoint just tested. */
  lemma AboveMoves(rx: int, ry: int, x: int, y: int)
    requires x >= 0
    ensures Above(rx, ry, x + 1, y) >= Above(rx, ry, x, y)
    ensures Above(rx, ry, x + 1, y - 1) == Decision1(rx, ry, x, y)
  {
    ScaledSquareStep(4 * (ry * ry), x, x + 1, 1);
    NonNegProduct(4 * (ry * ry) * 1, 2 * x + 1);
  }

  lemma NonNegProduct(a: int, b: int)
    requires a >= 0 && b >= 0
    ensures a * b >= 0
  {
  }

  /** The starting point (0, ry) lies on the ellipse, so the midpoint above it is outside. */
  lemma AboveStart(rx: int, ry: int)
    requires ry >= 0
    ensures Above(rx, ry, 0, ry) >= 0
  {
    assert Above(rx, ry, 0, ry) == rx * rx * (4 * ry + 1);
    assert rx * rx >= 0;
  }

  /** The start point and all region-1 points of the arc have the midpoint above them on
      or outside the ellipse. */
  lemma Region1PartNotInside(rx: int, ry: int)
    requires ry >= 0
    ensures NotInside(rx, ry, [(0, ry)] + Region1From(rx, ry, 0, ry))
  {
    AboveStart(rx, ry);
    Region1NotInside(rx, ry, 0, ry);
    NotInsideCons(rx, ry, (0, ry), Region1From(rx, ry, 0, ry));
  }

  /** The visited quadrant arc starts at (0, ry), stays in the first quadrant, moves between
      8-connected neighbours without going left or up, and ends on the x-axis. */
  lemma ArcShape(rx: int, ry: int)
    requires ry >= 0
    ensures var a := Arc(rx, ry);
      && a[0] == (0, ry) && Stepwise(a) && a[|a| - 1].1 == 0
      && forall i :: 0 <= i < |a| ==> a[i].0 >= 0 && a[i].1 >= 0
  {
    var r1 := Region1From(rx, ry, 0, ry);
    var e := Last((0, ry), r1);
    var r2 := Region2From(rx, ry, e.0, e.1);
    var h := [(0, ry)] + r1;
    Region1Stepwise(rx, ry, 0, ry);
    Region1Ends(rx, ry, 0, ry);
    Region2Stepwise(rx, ry, e.0, e.1);
    Region2Ends(rx, ry, e.0, e.1);
    assert h[|h| - 1] == e;
    StepwiseJoin(h, r2);
    var a := h + r2;
    assert a == Arc(rx, ry);
    assert a[|a| - 1] == Last(e, r2);
    forall i | 0 <= i < |a|
      ensures a[i].0 >= 0 && a[i].1 >= 0
    {
      if i == 0 {
      } else if i < |h| {
        assert a[i] == r1[i - 1];
      } else {
        assert a[i] == r2[i - |h|];
      }
    }
  }
}
