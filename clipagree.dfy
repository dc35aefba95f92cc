/** The two line clippers of Lab4 clip against the same window and compute the same
    thing: both accept exactly the segments with a visible point, and return its
    visible part, which is unique. */
module ClipAgreement {
  import opened Geometry
  import LiangBarsky
  import CohenSutherland

  /** Liang–Barsky and Cohen–Sutherland accept the same segments and return the same
      clipped endpoints. */
  lemma ClippersAgree(a: Point, b: Point)
    ensures LiangBarsky.Clip(a, b).Some? <==> CohenSutherland.Passes(a, b).0
    ensures LiangBarsky.Clip(a, b).Some? ==>
      LiangBarsky.Clip(a, b).value == (CohenSutherland.Passes(a, b).1, CohenSutherland.Passes(a, b).2)
  {
    assert LiangBarsky.Win == CohenSutherland.Win;
    LiangBarsky.ClipIsVisiblePart(a, b);
    LerpEnds(a, b);
    CohenSutherland.PassesCorrect(a, b, 0.0, 1.0, a, b);
    if LiangBarsky.Clip(a, b).Some? {
      var r := LiangBarsky.Clip(a, b).value;
      var c := CohenSutherland.Passes(a, b);
      ClippedToUnique(LiangBarsky.Win, a, b, r.0, r.1, c.1, c.2);
    }
  }
}
