/** Bresenham's integer line rasterizer (Lab2/Question2.cpp): a shallow routine that steps
    x, a steep routine that steps y, and the dispatcher that picks one and orders the
    endpoints. Each `glVertex2i(x, y)` becomes an append to the returned pixel sequence. */
module Bresenham {
  import opened Numeric

  /** The decision term before the pixel at major index i, after k minor steps, for minor
      extent a and major extent b: 2·a·(i + 1) − b·(2k + 1). */
  function Decision(a: int, b: int, i: int, k: int): int
  {
    2 * a * (i + 1) - b * (2 * k + 1)
  }

  /** The number of minor-axis steps taken before the pixel at major index i: one more
      than before the previous pixel exactly when that pixel's decision term was positive. */
  function Row(a: int, b: int, i: nat): int
  {
    if i == 0 then 0
    else
      var k := Row(a, b, i - 1);
      if Decision(a, b, i - 1, k) > 0 then k + 1 else k
  }

  /** k is the integer nearest to i·a/b (b > 0), a halfway case going to the smaller k. */
  predicate Nearest(a: int, b: int, i: int, k: int)
  {
    b * (2 * k - 1) < 2 * a * i <= b * (2 * k + 1)
  }

  /** How far v has moved from `from` in the direction of `to`: the routines step by −1
      exactly when the target lies below (or left of) the start, and by +1 otherwise. */
  function Rise(from: int, to: int, v: int): int
  {
    if to < from then from - v else v - from
  }

  /** What `bresenhamLow(x1, y1, x2, y2)` emits: x runs x1, x1+1, …, x2 (nothing when
      x1 > x2), and the i-th pixel lies Row(|dy|, dx, i) rows from y1 toward y2. */
  predicate LowSpec(x1: int, y1: int, x2: int, y2: int, pixels: seq<(int, int)>)
  {
    && |pixels| == (if x1 <= x2 then x2 - x1 + 1 else 0)
    && forall i :: 0 <= i < |pixels| ==>
         pixels[i].0 == x1 + i && Rise(y1, y2, pixels[i].1) == Row(Abs(y2 - y1), x2 - x1, i)
  }

  /** What `bresenhamHigh(x1, y1, x2, y2)` emits: the mirror image of `LowSpec`. */
  predicate HighSpec(x1: int, y1: int, x2: int, y2: int, pixels: seq<(int, int)>)
  {
    && |pixels| == (if y1 <= y2 then y2 - y1 + 1 else 0)
    && forall i :: 0 <= i < |pixels| ==>
         pixels[i].1 == y1 + i && Rise(x1, x2, pixels[i].0) == Row(Abs(x2 - x1), y2 - y1, i)
  }

  /** One major step changes the decision term by 2a, less 2b when a minor step is taken. */
  lemma DecisionStep(a: int, b: int, i: int, k: int)
    ensures Decision(a, b, i + 1, k + 1) == Decision(a, b, i, k) + 2 * (a - b)
    ensures Decision(a, b, i + 1, k) == Decision(a, b, i, k) + 2 * a
  {
  }

  /** `bresenhamLow`: x runs from x1 to x2; d > 0 moves y one row toward y2. */
  method BresenhamLow(x1: int, y1: int, x2: int, y2: int) returns (pixels: seq<(int, int)>)
    ensures LowSpec(x1, y1, x2, y2, pixels)
  {
    var dx := x2 - x1;
    var dy := y2 - y1;
    var yi := 1;
    if dy < 0 {
      yi := -1;
      dy := -dy;
    }
    var d := 2 * dy - dx;
    var y := y1;
    pixels := [];
    var x := x1;
    while x <= x2
      invariant x1 <= x && (x == x1 || x <= x2 + 1)
      invariant |pixels| == x - x1
      invariant dy == Abs(y2 - y1) && yi == (if y2 < y1 then -1 else 1)
      invariant Rise(y1, y2, y) == Row(dy, dx, x - x1)
      invariant d == Decision(dy, dx, x - x1, Row(dy, dx, x - x1))
      invariant forall i :: 0 <= i < |pixels| ==>
        pixels[i].0 == x1 + i && Rise(y1, y2, pixels[i].1) == Row(dy, dx, i)
    {
      ghost var i, k := x - x1, Row(dy, dx, x - x1);
      pixels := pixels + [(x, y)];
      DecisionStep(dy, dx, i, k);
      if d > 0 {
        y := y + yi;
        d := d + 2 * (dy - dx);
        assert Row(dy, dx, i + 1) == k + 1;
      } else {
        d := d + 2 * dy;
        assert Row(dy, dx, i + 1) == k;
      }
      x := x + 1;
    }
  }

  /** `bresenhamHigh`: y runs from y1 to y2; d > 0 moves x one column toward x2. */
  method BresenhamHigh(x1: int, y1: int, x2: int, y2: int) returns (pixels: seq<(int, int)>)
    ensures HighSpec(x1, y1, x2, y2, pixels)
  {
    var dx := x2 - x1;
    var dy := y2 - y1;
    var xi := 1;
    if dx < 0 {
      xi := -1;
      dx := -dx;
    }
    var d := 2 * dx - dy;
    var x := x1;
    pixels := [];
    var y := y1;
    while y <= y2
      invariant y1 <= y && (y == y1 || y <= y2 + 1)
      invariant |pixels| == y - y1
      invariant dx == Abs(x2 - x1) && xi == (if x2 < x1 then -1 else 1)
      invariant Rise(x1, x2, x) == Row(dx, dy, y - y1)
      invariant d == Decision(dx, dy, y - y1, Row(dx, dy, y - y1))
      invariant forall i :: 0 <= i < |pixels| ==>
        pixels[i].1 == y1 + i && Rise(x1, x2, pixels[i].0) == Row(dx, dy, i)
    {
      ghost var i, k := y - y1, Row(dx, dy, y - y1);
      pixels := pixels + [(x, y)];
      DecisionStep(dx, dy, i, k);
      if d > 0 {
        x := x + xi;
        d := d + 2 * (dx - dy);
        assert Row(dx, dy, i + 1) == k + 1;
      } else {
        d := d + 2 * dx;
        assert Row(dx, dy, i + 1) == k;
      }
      y := y + 1;
    }
  }

  /** Each pixel's minor coordinate is the one nearest to the ideal line: Row(a, b, i) is
      the integer nearest to i·a/b, a halfway case resolved toward the start point. */
  lemma {:induction false} RowIsNearest(a: int, b: int, i: nat)
    requires 0 <= a <= b && 0 < b
    ensures Nearest(a, b, i, Row(a, b, i))
  {
    if i > 0 {
      RowIsNearest(a, b, i - 1);
      var k := Row(a, b, i - 1);
      assert 2 * a * i == 2 * a * (i - 1) + 2 * a;
      assert b * (2 * (k + 1) + 1) == b * (2 * k + 1) + 2 * b;
      assert b * (2 * (k + 1) - 1) == b * (2 * k + 1);
    }
  }

  /** For b > 0 at most one integer is nearest in the sense of `Nearest`. */
  lemma NearestUnique(a: int, b: int, i: int, k1: int, k2: int)
    requires 0 < b && Nearest(a, b, i, k1) && Nearest(a, b, i, k2)
    ensures k1 == k2
  {
    assert b * (2 * k1 - 1) - b * (2 * k2 + 1) == b * (2 * (k1 - k2) - 2);
    PositiveFactor(b, 2 * (k1 - k2) - 2);
    assert b * (2 * k2 - 1) - b * (2 * k1 + 1) == b * (2 * (k2 - k1) - 2);
    PositiveFactor(b, 2 * (k2 - k1) - 2);
  }

  /** Multiplying by a positive factor keeps the sign. */
  lemma PositiveFactor(b: int, m: int)
    requires b > 0
    ensures b * m < 0 ==> m < 0
    ensures b * m >= 0 ==> m >= 0
  {
  }

  /** A nearest row for a major index within [0, b] lies between 0 and a. */
  lemma NearestInRange(a: int, b: int, i: int, k: int)
    requires 0 <= a && 0 < b && 0 <= i <= b && Nearest(a, b, i, k)
    ensures 0 <= k <= a
  {
    assert 2 * a * i <= 2 * a * b by {
      assert a * (b - i) >= 0;
    }
    assert b * (2 * k - 1 - 2 * a) == b * (2 * k - 1) - 2 * a * b;
    PositiveFactor(b, 2 * k - 1 - 2 * a);
    assert 2 * a * i >= 0;
    PositiveFactor(b, 2 * k + 1);
  }

  /** A minor-axis step count moves by zero or one from one pixel to the next. */
  lemma RowStep(a: int, b: int, i: nat)
    ensures 0 <= Row(a, b, i + 1) - Row(a, b, i) <= 1
  {
  }

  /** Along a shallow segment the minor coordinate stays between its start and its far end,
      and after b major steps it has moved exactly a: the line ends at its endpoint. */
  lemma RowRange(a: int, b: int, i: nat)
    requires 0 <= a <= b && 0 < b && i <= b
    ensures 0 <= Row(a, b, i) <= a
    ensures i == b ==> Row(a, b, i) == a
  {
    RowIsNearest(a, b, i);
    NearestInRange(a, b, i, Row(a, b, i));
    if i == b {
      assert b * (2 * a - 1) == 2 * a * b - b;
      assert b * (2 * a + 1) == 2 * a * b + b;
      NearestUnique(a, b, i, Row(a, b, i), a);
    }
  }

  /** The pixels exchanged coordinate for coordinate. */
  function Transpose(pixels: seq<(int, int)>): (r: seq<(int, int)>)
    ensures |r| == |pixels|
    ensures forall i :: 0 <= i < |r| ==> r[i] == (pixels[i].1, pixels[i].0)
  {
    seq(|pixels|, i requires 0 <= i < |pixels| => (pixels[i].1, pixels[i].0))
  }

  /** `bresenhamHigh` is `bresenhamLow` with the axes exchanged. */
  lemma HighIsTransposedLow(x1: int, y1: int, x2: int, y2: int, pixels: seq<(int, int)>)
    ensures HighSpec(x1, y1, x2, y2, pixels) <==> LowSpec(y1, x1, y2, x2, Transpose(pixels))
  {
  }

  /** A shallow segment drawn left to right: the first pixel is the start point, the last
      the end point; each pixel sits in the row nearest the ideal line, inside the segment's
      bounding rows; each step moves x by one and y by zero or one row toward y2. */
  lemma LowSpecLine(x1: int, y1: int, x2: int, y2: int, pixels: seq<(int, int)>)
    requires LowSpec(x1, y1, x2, y2, pixels)
    requires x1 <= x2 && Abs(y2 - y1) <= x2 - x1
    ensures pixels[0] == (x1, y1) && pixels[|pixels| - 1] == (x2, y2)
    ensures x1 < x2 ==> forall i :: 0 <= i < |pixels| ==>
      Nearest(Abs(y2 - y1), x2 - x1, i, Rise(y1, y2, pixels[i].1))
    ensures forall i :: 0 <= i < |pixels| ==> 0 <= Rise(y1, y2, pixels[i].1) <= Abs(y2 - y1)
    ensures forall i :: 0 < i < |pixels| ==>
      pixels[i].0 == pixels[i - 1].0 + 1
      && 0 <= Rise(y1, y2, pixels[i].1) - Rise(y1, y2, pixels[i - 1].1) <= 1
  {
    var a, b := Abs(y2 - y1), x2 - x1;
    if b == 0 {
      return;
    }
    forall i | 0 <= i < |pixels|
      ensures Nearest(a, b, i, Rise(y1, y2, pixels[i].1))
      ensures 0 <= Rise(y1, y2, pixels[i].1) <= a
      ensures i > 0 ==> 0 <= Rise(y1, y2, pixels[i].1) - Rise(y1, y2, pixels[i - 1].1) <= 1
    {
      RowIsNearest(a, b, i);
      RowRange(a, b, i);
      if i > 0 {
        RowStep(a, b, i - 1);
      }
    }
    RowRange(a, b, b);
  }

  /** The steep counterpart of `LowSpecLine`, with the axes exchanged. */
  lemma HighSpecLine(x1: int, y1: int, x2: int, y2: int, pixels: seq<(int, int)>)
    requires HighSpec(x1, y1, x2, y2, pixels)
    requires y1 <= y2 && Abs(x2 - x1) <= y2 - y1
    ensures pixels[0] == (x1, y1) && pixels[|pixels| - 1] == (x2, y2)
    ensures y1 < y2 ==> forall i :: 0 <= i < |pixels| ==>
      Nearest(Abs(x2 - x1), y2 - y1, i, Rise(x1, x2, pixels[i].0))
    ensures forall i :: 0 <= i < |pixels| ==> 0 <= Rise(x1, x2, pixels[i].0) <= Abs(x2 - x1)
    ensures forall i :: 0 < i < |pixels| ==>
      pixels[i].1 == pixels[i - 1].1 + 1
      && 0 <= Rise(x1, x2, pixels[i].0) - Rise(x1, x2, pixels[i - 1].0) <= 1
  {
    HighIsTransposedLow(x1, y1, x2, y2, pixels);
    LowSpecLine(y1, x1, y2, x2, Transpose(pixels));
  }

  /** The specification of each routine admits exactly one pixel sequence. */
  lemma SpecsAreDeterministic(x1: int, y1: int, x2: int, y2: int, p: seq<(int, int)>, q: seq<(int, int)>)
    ensures LowSpec(x1, y1, x2, y2, p) && LowSpec(x1, y1, x2, y2, q) ==> p == q
    ensures HighSpec(x1, y1, x2, y2, p) && HighSpec(x1, y1, x2, y2, q) ==> p == q
  {
    if LowSpec(x1, y1, x2, y2, p) && LowSpec(x1, y1, x2, y2, q) {
      forall i | 0 <= i < |p| ensures p[i] == q[i] {
        assert Rise(y1, y2, p[i].1) == Rise(y1, y2, q[i].1);
      }
    }
    if HighSpec(x1, y1, x2, y2, p) && HighSpec(x1, y1, x2, y2, q) {
      forall i | 0 <= i < |p| ensures p[i] == q[i] {
        assert Rise(x1, x2, p[i].0) == Rise(x1, x2, q[i].0);
      }
    }
  }

  /** `drawLineBresenham`: the shallow routine runs exactly when |dy| < |dx|, the steep one
      otherwise (slope ±1 and zero-length segments included), each with its endpoints
      ordered so that the stepped coordinate increases. Either way both endpoints are drawn,
      one pixel per unit of the longer extent. */
  method DrawLineBresenham(x1: int, y1: int, x2: int, y2: int) returns (pixels: seq<(int, int)>)
    ensures Abs(y2 - y1) < Abs(x2 - x1) ==>
      if x1 > x2 then LowSpec(x2, y2, x1, y1, pixels) else LowSpec(x1, y1, x2, y2, pixels)
    ensures Abs(x2 - x1) <= Abs(y2 - y1) ==>
      if y1 > y2 then HighSpec(x2, y2, x1, y1, pixels) else HighSpec(x1, y1, x2, y2, pixels)
    ensures |pixels| == (if Abs(y2 - y1) < Abs(x2 - x1) then Abs(x2 - x1) else Abs(y2 - y1)) + 1
    ensures {pixels[0], pixels[|pixels| - 1]} == {(x1, y1), (x2, y2)}
    ensures x1 == x2 && y1 == y2 ==> pixels == [(x1, y1)]
  {
    if Abs(y2 - y1) < Abs(x2 - x1) {
      if x1 > x2 {
        pixels := BresenhamLow(x2, y2, x1, y1);
        LowSpecLine(x2, y2, x1, y1, pixels);
      } else {
        pixels := BresenhamLow(x1, y1, x2, y2);
        LowSpecLine(x1, y1, x2, y2, pixels);
      }
    } else {
      if y1 > y2 {
        pixels := BresenhamHigh(x2, y2, x1, y1);
        HighSpecLine(x2, y2, x1, y1, pixels);
      } else {
        pixels := BresenhamHigh(x1, y1, x2, y2);
        HighSpecLine(x1, y1, x2, y2, pixels);
      }
    }
  }
}
