/** The DDA line rasterizer with real endpoints (Lab2/Question1.cpp, `drawLineDDA`).
    Each `glVertex2f(round(x), round(y))` becomes an append to the returned pixel sequence. */
module Dda {
  import opened Numeric

  /** `steps`: the larger of |dx| and |dy|, converted to `int` by truncation. */
  function Steps(dx: real, dy: real): (n: nat)
    ensures n as real <= MaxR(AbsR(dx), AbsR(dy)) < n as real + 1.0
  {
    Trunc(if AbsR(dx) > AbsR(dy) then AbsR(dx) else AbsR(dy))
  }

  /** The per-step increment `d / steps`. When `steps` is 0 the C++ division yields an
      infinity or NaN that is never observed (the single emitted point is taken before the
      first increment); the model uses 0 there. */
  function Increment(d: real, n: nat): real
  {
    if n == 0 then 0.0 else d / n as real
  }

  /** The running coordinate after `i` additions of `inc` to `start` (`x += xIncrement`). */
  function Advance(start: real, inc: real, i: nat): real
  {
    if i == 0 then start else Advance(start, inc, i - 1) + inc
  }

  /** The pixel emitted at step `i`. */
  function PixelAt(x1: real, y1: real, x2: real, y2: real, i: nat): (int, int)
  {
    var n := Steps(x2 - x1, y2 - y1);
    (Round(Advance(x1, Increment(x2 - x1, n), i)), Round(Advance(y1, Increment(y2 - y1, n), i)))
  }

  /** Everything `drawLineDDA` emits, in order: one pixel per i = 0..steps. */
  function DdaPixels(x1: real, y1: real, x2: real, y2: real): (r: seq<(int, int)>)
    ensures |r| == Steps(x2 - x1, y2 - y1) + 1
    ensures r[0] == (Round(x1), Round(y1))
  {
    seq(Steps(x2 - x1, y2 - y1) + 1, i requires i >= 0 => PixelAt(x1, y1, x2, y2, i))
  }

  /** The loop of `drawLineDDA`: x and y are advanced by the increments after each emission. */
  method DrawLineDda(x1: real, y1: real, x2: real, y2: real) returns (pixels: seq<(int, int)>)
    ensures pixels == DdaPixels(x1, y1, x2, y2)
  {
    var dx := x2 - x1;
    var dy := y2 - y1;
    var steps := Steps(dx, dy);
    var xIncrement := Increment(dx, steps);
    var yIncrement := Increment(dy, steps);
    var x, y := x1, y1;
    pixels := [];
    var i := 0;
    while i <= steps
      invariant 0 <= i <= steps + 1
      invariant x == Advance(x1, xIncrement, i) && y == Advance(y1, yIncrement, i)
      invariant pixels == DdaPixels(x1, y1, x2, y2)[..i]
    {
      pixels := pixels + [(Round(x), Round(y))];
      x := x + xIncrement;
      y := y + yIncrement;
      i := i + 1;
    }
  }

  /** Over the reals the accumulated coordinate is the closed form start + i·inc. */
  lemma {:induction false} AdvanceClosedForm(start: real, inc: real, i: nat)
    ensures Advance(start, inc, i) == start + i as real * inc
  {
    if i > 0 {
      AdvanceClosedForm(start, inc, i - 1);
    }
  }

  /** After `steps` increments the ideal point is exactly the far endpoint, so the last
      pixel is the rounded far endpoint whenever at least one step is taken. */
  lemma DdaLastIsRoundedEnd(x1: real, y1: real, x2: real, y2: real)
    requires Steps(x2 - x1, y2 - y1) >= 1
    ensures var r := DdaPixels(x1, y1, x2, y2); r[|r| - 1] == (Round(x2), Round(y2))
  {
    var n := Steps(x2 - x1, y2 - y1);
    var ix, iy := Increment(x2 - x1, n), Increment(y2 - y1, n);
    assert ix == (x2 - x1) / n as real && iy == (y2 - y1) / n as real;
    AdvanceClosedForm(x1, ix, n);
    AdvanceClosedForm(y1, iy, n);
    DivMul(x2 - x1, n as real);
    DivMul(y2 - y1, n as real);
    assert Advance(x1, ix, n) == x2 && Advance(y1, iy, n) == y2;
    assert DdaPixels(x1, y1, x2, y2)[n] == PixelAt(x1, y1, x2, y2, n);
  }

  lemma DivMul(d: real, n: real)
    requires n != 0.0
    ensures n * (d / n) == d
  {
  }

  /** With coincident endpoints, or both extents below one unit, exactly one pixel is
      emitted: the rounded start point. */
  lemma DdaShortSegment(x1: real, y1: real, x2: real, y2: real)
    requires AbsR(x2 - x1) < 1.0 && AbsR(y2 - y1) < 1.0
    ensures DdaPixels(x1, y1, x2, y2) == [(Round(x1), Round(y1))]
  {
    assert Steps(x2 - x1, y2 - y1) == 0;
  }

  function Sign(v: int): int
  {
    if v < 0 then -1 else if v > 0 then 1 else 0
  }

  /** Along an axis whose extent is the step count, the coordinate starts on an integer and
      moves by exactly one unit towards the far end each step. */
  lemma {:induction false} DominantAxis(a: int, d: int, n: nat, i: nat)
    requires n >= 1 && Abs(d) == n
    ensures Advance(a as real, Increment(d as real, n), i) == (a + i * Sign(d)) as real
  {
    assert Increment(d as real, n) == Sign(d) as real;
    if i > 0 {
      DominantAxis(a, d, n, i - 1);
      assert (a + (i - 1) * Sign(d)) + Sign(d) == a + i * Sign(d);
    }
  }

  /** Along an axis whose extent is at most the step count, consecutive rounded
      coordinates differ by at most one. */
  lemma MinorAxis(a: int, d: int, n: nat, i: nat)
    requires n >= 1 && Abs(d) <= n
    ensures var inc := Increment(d as real, n);
      -1 <= Round(Advance(a as real, inc, i + 1)) - Round(Advance(a as real, inc, i)) <= 1
  {
    var inc := Increment(d as real, n);
    if Abs(d) == n {
      DominantAxis(a, d, n, i);
      DominantAxis(a, d, n, i + 1);
      RoundOfInt(a + i * Sign(d));
      RoundOfInt(a + (i + 1) * Sign(d));
      assert a + (i + 1) * Sign(d) == a + i * Sign(d) + Sign(d);
    } else {
      assert -1.0 < inc < 1.0;
      RoundCloseValues(Advance(a as real, inc, i + 1), Advance(a as real, inc, i));
    }
  }

  /** One step of the DDA between integer endpoints: the coordinate along the longer
      extent moves by exactly one unit towards the far endpoint, the other by at most one. */
  lemma DdaIntegerStep(x1: int, y1: int, x2: int, y2: int, i: nat)
    requires i < Steps((x2 - x1) as real, (y2 - y1) as real)
    ensures var p, q := PixelAt(x1 as real, y1 as real, x2 as real, y2 as real, i),
                        PixelAt(x1 as real, y1 as real, x2 as real, y2 as real, i + 1);
      && (Abs(x2 - x1) >= Abs(y2 - y1) ==> q.0 - p.0 == Sign(x2 - x1))
      && (Abs(y2 - y1) >= Abs(x2 - x1) ==> q.1 - p.1 == Sign(y2 - y1))
      && -1 <= q.0 - p.0 <= 1 && -1 <= q.1 - p.1 <= 1
  {
    var dx, dy := x2 - x1, y2 - y1;
    var n := Steps(dx as real, dy as real);
    assert n == if Abs(dx) > Abs(dy) then Abs(dx) else Abs(dy);
    MinorAxis(x1, dx, n, i);
    MinorAxis(y1, dy, n, i);
    if Abs(dx) >= Abs(dy) {
      DominantAxis(x1, dx, n, i);
      DominantAxis(x1, dx, n, i + 1);
      RoundOfInt(x1 + i * Sign(dx));
      RoundOfInt(x1 + (i + 1) * Sign(dx));
    }
    if Abs(dy) >= Abs(dx) {
      DominantAxis(y1, dy, n, i);
      DominantAxis(y1, dy, n, i + 1);
      RoundOfInt(y1 + i * Sign(dy));
      RoundOfInt(y1 + (i + 1) * Sign(dy));
    }
  }

  /** With integer endpoints `steps` is max(|dx|, |dy|): that many steps plus one pixels
      are emitted, from exactly (x1, y1) to exactly (x2, y2). */
  lemma DdaIntegerEndpoints(x1: int, y1: int, x2: int, y2: int)
    ensures var r := DdaPixels(x1 as real, y1 as real, x2 as real, y2 as real);
      && |r| == (if Abs(x2 - x1) > Abs(y2 - y1) then Abs(x2 - x1) else Abs(y2 - y1)) + 1
      && r[0] == (x1, y1) && r[|r| - 1] == (x2, y2)
  {
    var n := Steps((x2 - x1) as real, (y2 - y1) as real);
    assert n == if Abs(x2 - x1) > Abs(y2 - y1) then Abs(x2 - x1) else Abs(y2 - y1);
    RoundOfInt(x1);
    RoundOfInt(y1);
    if n >= 1 {
      DdaLastIsRoundedEnd(x1 as real, y1 as real, x2 as real, y2 as real);
      RoundOfInt(x2);
      RoundOfInt(y2);
    } else {
      assert x1 == x2 && y1 == y2;
    }
  }

  /** With integer endpoints the emitted pixels form an 8-connected path that advances one
      unit towards the far endpoint along the longer extent per step. */
  lemma DdaIntegerPath(x1: int, y1: int, x2: int, y2: int)
    ensures var r := DdaPixels(x1 as real, y1 as real, x2 as real, y2 as real);
      forall i :: 0 <= i < |r| - 1 ==>
        && (Abs(x2 - x1) >= Abs(y2 - y1) ==> r[i + 1].0 - r[i].0 == Sign(x2 - x1))
        && (Abs(y2 - y1) >= Abs(x2 - x1) ==> r[i + 1].1 - r[i].1 == Sign(y2 - y1))
        && -1 <= r[i + 1].0 - r[i].0 <= 1 && -1 <= r[i + 1].1 - r[i].1 <= 1
  {
    var r := DdaPixels(x1 as real, y1 as real, x2 as real, y2 as real);
    forall i | 0 <= i < |r| - 1
      ensures && (Abs(x2 - x1) >= Abs(y2 - y1) ==> r[i + 1].0 - r[i].0 == Sign(x2 - x1))
              && (Abs(y2 - y1) >= Abs(x2 - x1) ==> r[i + 1].1 - r[i].1 == Sign(y2 - y1))
              && -1 <= r[i + 1].0 - r[i].0 <= 1 && -1 <= r[i + 1].1 - r[i].1 <= 1
    {
      assert r[i] == PixelAt(x1 as real, y1 as real, x2 as real, y2 as real, i);
      assert r[i + 1] == PixelAt(x1 as real, y1 as real, x2 as real, y2 as real, i + 1);
      DdaIntegerStep(x1, y1, x2, y2, i);
    }
  }
}
