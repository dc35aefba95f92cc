/** The line-graph demo (Lab2/Question4.cpp): data points are scaled into the window
    inside a fixed margin and consecutive points are joined by DDA segments between
    integer pixel positions. The program's globals (`data` and the four bounds) are the
    fields of `Graph`. */
module LineGraph {
  import opened Numeric
  import opened Geometry
  import Dda

  const Width := 800
  const Height := 600
  const Margin := 60

  /** `drawLineDDA` with integer endpoints. The differences are converted to float before
      anything else, so this is the real-endpoint DDA on integral coordinates, and it emits
      an 8-connected path of max(|dx|, |dy|) + 1 pixels from (x1, y1) to (x2, y2). */
  method DrawLineDdaInt(x1: int, y1: int, x2: int, y2: int) returns (pixels: seq<(int, int)>)
    ensures pixels == Dda.DdaPixels(x1 as real, y1 as real, x2 as real, y2 as real)
    ensures |pixels| == (if Abs(x2 - x1) > Abs(y2 - y1) then Abs(x2 - x1) else Abs(y2 - y1)) + 1
    ensures pixels[0] == (x1, y1) && pixels[|pixels| - 1] == (x2, y2)
    ensures forall i :: 0 <= i < |pixels| - 1 ==>
      -1 <= pixels[i + 1].0 - pixels[i].0 <= 1 && -1 <= pixels[i + 1].1 - pixels[i].1 <= 1
  {
    pixels := Dda.DrawLineDda(x1 as real, y1 as real, x2 as real, y2 as real);
    Dda.DdaIntegerEndpoints(x1, y1, x2, y2);
    Dda.DdaIntegerPath(x1, y1, x2, y2);
  }

  /** The smallest element, as the scan of `loadData` finds it: a later element replaces
      the running minimum only when strictly smaller. */
  function Lo(s: seq<real>): real
    requires |s| > 0
  {
    if |s| == 1 then s[0]
    else
      var m := Lo(s[..|s| - 1]);
      if s[|s| - 1] < m then s[|s| - 1] else m
  }

  /** The largest element: a later element replaces the running maximum only when strictly larger. */
  function Hi(s: seq<real>): real
    requires |s| > 0
  {
    if |s| == 1 then s[0]
    else
      var m := Hi(s[..|s| - 1]);
      if s[|s| - 1] > m then s[|s| - 1] else m
  }

  /** The scan finds an element of the sequence below (above) every element. */
  lemma {:induction false} LoHiBounds(s: seq<real>)
    requires |s| > 0
    ensures Lo(s) in s && Hi(s) in s
    ensures forall i :: 0 <= i < |s| ==> Lo(s) <= s[i] <= Hi(s)
  {
    if |s| > 1 {
      var t := s[..|s| - 1];
      LoHiBounds(t);
      assert forall i :: 0 <= i < |t| ==> t[i] == s[i];
    }
  }

  /** Extending a sequence by v updates the running extremes as the scan does. */
  lemma LoHiSnoc(s: seq<real>, v: real)
    requires |s| > 0
    ensures Lo(s + [v]) == (if v < Lo(s) then v else Lo(s))
    ensures Hi(s + [v]) == (if v > Hi(s) then v else Hi(s))
  {
    assert (s + [v])[..|s|] == s;
  }

  function Xs(s: seq<Point>): (r: seq<real>)
    ensures |r| == |s| && forall i :: 0 <= i < |s| ==> r[i] == s[i].x
  {
    seq(|s|, i requires 0 <= i < |s| => s[i].x)
  }

  function Ys(s: seq<Point>): (r: seq<real>)
    ensures |r| == |s| && forall i :: 0 <= i < |s| ==> r[i] == s[i].y
  {
    seq(|s|, i requires 0 <= i < |s| => s[i].y)
  }

  /** The padding added on each side: 10% of the range. */
  function Pad(lo: real, hi: real): real
  {
    (hi - lo) * 0.1
  }

  /** Widening the scanned bounds by the padding never shrinks them, so the padded bounds
      still cover every sample. */
  lemma PaddedBounds(s: seq<Point>)
    requires |s| > 0
    ensures var lx, hx, ly, hy := Lo(Xs(s)), Hi(Xs(s)), Lo(Ys(s)), Hi(Ys(s));
      && lx - Pad(lx, hx) <= lx && hx <= hx + Pad(lx, hx)
      && ly - Pad(ly, hy) <= ly && hy <= hy + Pad(ly, hy)
      && forall i :: 0 <= i < |s| ==>
           lx - Pad(lx, hx) <= s[i].x <= hx + Pad(lx, hx) && ly - Pad(ly, hy) <= s[i].y <= hy + Pad(ly, hy)
  {
    LoHiBounds(Xs(s));
    LoHiBounds(Ys(s));
    assert Lo(Xs(s)) <= Xs(s)[0] <= Hi(Xs(s)) && Lo(Ys(s)) <= Ys(s)[0] <= Hi(Ys(s));
  }

  /** The ten samples `loadData` appends. */
  function DemoPoints(): seq<Point>
  {
    [Point(1.0, 45.0), Point(2.0, 52.0), Point(3.0, 48.0), Point(4.0, 65.0), Point(5.0, 58.0),
     Point(6.0, 73.0), Point(7.0, 81.0), Point(8.0, 76.0), Point(9.0, 88.0), Point(10.0, 95.0)]
  }

  /** `mapX`/`mapY`: the position of v in [lo, hi] scaled to the drawable extent
      size − 2·MARGIN and shifted by MARGIN; the float result is truncated to int. */
  function Map(v: real, lo: real, hi: real, size: int): int
    requires lo != hi
  {
    Trunc(Margin as real + (v - lo) / (hi - lo) * (size - 2 * Margin) as real)
  }

  /** The range ends map to the margins: lo to MARGIN and hi to size − MARGIN. */
  lemma MapEnds(lo: real, hi: real, size: int)
    requires lo != hi
    ensures Map(lo, lo, hi, size) == Margin && Map(hi, lo, hi, size) == size - Margin
  {
    var k := (size - 2 * Margin) as real;
    var d := hi - lo;
    assert (lo - lo) / d * k == 0.0;
    DivSelf(d);
    assert (hi - lo) / d * k == k;
    assert Margin as real + k == (size - Margin) as real;
    TruncOfInt(Margin);
    TruncOfInt(size - Margin);
  }

  lemma DivSelf(d: real)
    requires d != 0.0
    ensures d / d == 1.0
  {
  }

  /** Over a positive range the mapping never decreases (for a window at least two
      margins wide). */
  lemma MapMonotone(a: real, b: real, lo: real, hi: real, size: int)
    requires lo < hi && a <= b && size >= 2 * Margin
    ensures Map(a, lo, hi, size) <= Map(b, lo, hi, size)
  {
    var k := (size - 2 * Margin) as real;
    assert (a - lo) / (hi - lo) <= (b - lo) / (hi - lo);
    assert (a - lo) / (hi - lo) * k <= (b - lo) / (hi - lo) * k;
    TruncMonotone(Margin as real + (a - lo) / (hi - lo) * k, Margin as real + (b - lo) / (hi - lo) * k);
  }

  /** The scan of `loadData`: start from the first sample and let each later sample lower
      the minimum or raise the maximum when it lies strictly beyond. */
  method ScanBounds(data: seq<Point>) returns (minX: real, maxX: real, minY: real, maxY: real)
    requires |data| > 0
    ensures minX == Lo(Xs(data)) && maxX == Hi(Xs(data))
    ensures minY == Lo(Ys(data)) && maxY == Hi(Ys(data))
  {
    ghost var xs, ys := Xs(data), Ys(data);
    minX, maxX := data[0].x, data[0].x;
    minY, maxY := data[0].y, data[0].y;
    assert xs[..1] == [xs[0]] && ys[..1] == [ys[0]];
    var i := 1;
    while i < |data|
      invariant 1 <= i <= |data| == |xs| == |ys|
      invariant minX == Lo(xs[..i]) && maxX == Hi(xs[..i])
      invariant minY == Lo(ys[..i]) && maxY == Hi(ys[..i])
    {
      LoHiSnoc(xs[..i], xs[i]);
      LoHiSnoc(ys[..i], ys[i]);
      assert xs[..i + 1] == xs[..i] + [xs[i]] && ys[..i + 1] == ys[..i] + [ys[i]];
      if data[i].x < minX {
        minX := data[i].x;
      }
      if data[i].x > maxX {
        maxX := data[i].x;
      }
      if data[i].y < minY {
        minY := data[i].y;
      }
      if data[i].y > maxY {
        maxY := data[i].y;
      }
      i := i + 1;
    }
    assert xs[..i] == xs && ys[..i] == ys;
  }

  /** The globals of the line-graph program. */
  class Graph {
    var data: seq<Point>
    var minX: real
    var maxX: real
    var minY: real
    var maxY: real

    /** Every sample lies in the bounds. */
    predicate Covers()
      reads this
    {
      forall i :: 0 <= i < |data| ==> minX <= data[i].x <= maxX && minY <= data[i].y <= maxY
    }

    /** Static storage starts empty and zeroed. */
    constructor ()
      ensures data == [] && minX == 0.0 && maxX == 0.0 && minY == 0.0 && maxY == 0.0
    {
      data := [];
      minX, maxX, minY, maxY := 0.0, 0.0, 0.0, 0.0;
    }

    /** `loadData`: appends the samples, scans them for the bounds and widens each bound by
        10% of its range. */
    method LoadData()
      modifies this
      ensures data == old(data) + DemoPoints()
      ensures minX == Lo(Xs(data)) - Pad(Lo(Xs(data)), Hi(Xs(data)))
      ensures maxX == Hi(Xs(data)) + Pad(Lo(Xs(data)), Hi(Xs(data)))
      ensures minY == Lo(Ys(data)) - Pad(Lo(Ys(data)), Hi(Ys(data)))
      ensures maxY == Hi(Ys(data)) + Pad(Lo(Ys(data)), Hi(Ys(data)))
      ensures minX <= Lo(Xs(data)) && Hi(Xs(data)) <= maxX
      ensures minY <= Lo(Ys(data)) && Hi(Ys(data)) <= maxY
      ensures Covers()
    {
      var samples := data + DemoPoints();
      var lx, hx, ly, hy := ScanBounds(samples);
      PaddedBounds(samples);
      var xPad := (hx - lx) * 0.1;
      var yPad := (hy - ly) * 0.1;
      data := samples;
      minX, maxX, minY, maxY := lx - xPad, hx + xPad, ly - yPad, hy + yPad;
    }

    /** `mapX`, defined when the x range is not empty. */
    function MapX(x: real): (r: int)
      reads this
      requires minX != maxX
      ensures x == minX ==> r == Margin
      ensures x == maxX ==> r == Width - Margin
    {
      MapEnds(minX, maxX, Width);
      Map(x, minX, maxX, Width)
    }

    /** `mapY`, defined when the y range is not empty. */
    function MapY(y: real): (r: int)
      reads this
      requires minY != maxY
      ensures y == minY ==> r == Margin
      ensures y == maxY ==> r == Height - Margin
    {
      MapEnds(minY, maxY, Height);
      Map(y, minY, maxY, Height)
    }

    /** The pixel position of the k-th sample. */
    function Mapped(k: nat): (int, int)
      reads this
      requires k < |data| && minX != maxX && minY != maxY
    {
      (MapX(data[k].x), MapY(data[k].y))
    }

    /** The DDA segment drawn from the k-th mapped sample to the next one. */
    function Segment(k: nat): seq<(int, int)>
      reads this
      requires k + 1 < |data| && minX != maxX && minY != maxY
    {
      var p, q := Mapped(k), Mapped(k + 1);
      Dda.DdaPixels(p.0 as real, p.1 as real, q.0 as real, q.1 as real)
    }

    /** Each segment runs from the k-th mapped sample to the next one, so consecutive
        segments share their joining pixel and the segments form one polyline. */
    lemma SegmentsJoin(k: nat)
      requires k + 1 < |data| && minX != maxX && minY != maxY
      ensures |Segment(k)| >= 1
      ensures Segment(k)[0] == Mapped(k) && Segment(k)[|Segment(k)| - 1] == Mapped(k + 1)
      ensures k + 2 < |data| ==> Segment(k)[|Segment(k)| - 1] == Segment(k + 1)[0]
    {
      var p, q := Mapped(k), Mapped(k + 1);
      Dda.DdaIntegerEndpoints(p.0, p.1, q.0, q.1);
      if k + 2 < |data| {
        var r := Mapped(k + 2);
        Dda.DdaIntegerEndpoints(q.0, q.1, r.0, r.1);
      }
    }

    /** The segment loop and the marker loop of `drawGraph`: one DDA segment per pair of
        consecutive samples, then one marker per sample. The source reads `data[0]` and
        counts `size() − 1` pairs unsigned, so the data must not be empty. */
    method DrawGraph() returns (segments: seq<seq<(int, int)>>, markers: seq<(int, int)>)
      requires |data| >= 1 && minX != maxX && minY != maxY
      ensures |segments| == |data| - 1
      ensures forall k :: 0 <= k < |segments| ==> segments[k] == Segment(k)
      ensures |markers| == |data| && forall k :: 0 <= k < |data| ==> markers[k] == Mapped(k)
    {
      segments := [];
      var i := 0;
      while i < |data| - 1
        invariant 0 <= i <= |data| - 1
        invariant |segments| == i && forall k :: 0 <= k < i ==> segments[k] == Segment(k)
      {
        var x1 := MapX(data[i].x);
        var y1 := MapY(data[i].y);
        var x2 := MapX(data[i + 1].x);
        var y2 := MapY(data[i + 1].y);
        var seg := DrawLineDdaInt(x1, y1, x2, y2);
        segments := segments + [seg];
        i := i + 1;
      }
      markers := [];
      var j := 0;
      while j < |data|
        invariant 0 <= j <= |data|
        invariant |markers| == j && forall k :: 0 <= k < j ==> markers[k] == Mapped(k)
      {
        markers := markers + [(MapX(data[j].x), MapY(data[j].y))];
        j := j + 1;
      }
    }
  }

  /** For the demo samples alone the scanned x range spans at least [1, 10] and the y range
      at least [45, 95], so both padded ranges are non-empty and the mapping is defined. */
  lemma DemoBounds()
    ensures var s := DemoPoints(); var lx, hx, ly, hy := Lo(Xs(s)), Hi(Xs(s)), Lo(Ys(s)), Hi(Ys(s));
      && lx <= 1.0 && 10.0 <= hx && ly <= 45.0 && 95.0 <= hy
      && lx - Pad(lx, hx) < hx + Pad(lx, hx) && ly - Pad(ly, hy) < hy + Pad(ly, hy)
  {
    var s := DemoPoints();
    LoHiBounds(Xs(s));
    LoHiBounds(Ys(s));
    assert Xs(s)[0] == 1.0 && Xs(s)[9] == 10.0 && Ys(s)[0] == 45.0 && Ys(s)[9] == 95.0;
  }
}
