/** Lab2/Question5.cpp: a triangle given in pixels, single transformation matrices about
    the origin, pixel → normalized-device-coordinate conversion, and the mode and
    animation state driven by the keyboard and idle callbacks. */
module TransformDemo {
  import opened Geometry
  import opened Affine
  import opened TransformModes

  /** `toNDCX` for a window `width` pixels wide: 0 ↦ −1 and width ↦ 1. */
  function NdcX(x: real, width: int): real
    requires width != 0
  {
    2.0 * x / width as real - 1.0
  }

  /** `toNDCY` for a window `height` pixels tall: 0 ↦ 1 and height ↦ −1 (y points down in
      pixels and up in NDC). */
  function NdcY(y: real, height: int): real
    requires height != 0
  {
    1.0 - 2.0 * y / height as real
  }

  /** The window's edges go to the edges of the NDC square, with y flipped. */
  lemma NdcEnds(width: int, height: int)
    requires width != 0 && height != 0
    ensures NdcX(0.0, width) == -1.0 && NdcX(width as real, width) == 1.0
    ensures NdcY(0.0, height) == 1.0 && NdcY(height as real, height) == -1.0
  {
    var w, h := width as real, height as real;
    assert 2.0 * w / w == 2.0;
    assert 2.0 * h / h == 2.0;
  }

  /** For a positive size the conversions preserve (x) and reverse (y) the order of pixels,
      in both directions. */
  lemma NdcMonotone(x1: real, x2: real, width: int, y1: real, y2: real, height: int)
    requires width > 0 && height > 0
    ensures x1 <= x2 <==> NdcX(x1, width) <= NdcX(x2, width)
    ensures y1 <= y2 <==> NdcY(y1, height) >= NdcY(y2, height)
  {
    var w, h := width as real, height as real;
    assert NdcX(x2, width) - NdcX(x1, width) == 2.0 * (x2 - x1) / w;
    assert NdcY(y1, height) - NdcY(y2, height) == 2.0 * (y2 - y1) / h;
  }

  /** A pixel lies in the window exactly when its NDC coordinates lie in [−1, 1]. */
  lemma NdcVisible(x: real, width: int, y: real, height: int)
    requires width > 0 && height > 0
    ensures 0.0 <= x <= width as real <==> -1.0 <= NdcX(x, width) <= 1.0
    ensures 0.0 <= y <= height as real <==> -1.0 <= NdcY(y, height) <= 1.0
  {
    NdcEnds(width, height);
    NdcMonotone(0.0, x, width, 0.0, y, height);
    NdcMonotone(x, width as real, width, y, height as real, height);
  }

  /** The matrix `display` applies in each mode, with c and s standing for
      cos(animationTime) and sin(animationTime); the original mode draws no second
      triangle. */
  function ModeMatrix(mode: TransformMode, c: real, s: real): Option<Mat3>
  {
    match mode
    case Original => None
    case Translate => Some(TranslateMat(200.0, -150.0))
    case Scale => Some(ScaleMat(1.8, 1.8))
    case Rotate => Some(RotateMat(c, s))
    case Shear => Some(ShearMat(0.6, 0.2))
    case ReflectX => Some(ReflectXMat())
    case ReflectY => Some(ReflectYMat())
  }

  /** The transformed triangle `display` draws in a mode, if any. */
  function DisplayImages(mode: TransformMode, p1: Point, p2: Point, p3: Point, c: real, s: real): seq<Point>
  {
    match ModeMatrix(mode, c, s)
    case None => []
    case Some(m) => Images(m, p1, p2, p3)
  }

  /** Only the original mode draws no second triangle; every matrix but the translation is
      linear, so it acts about the origin. */
  lemma ModeMatricesLinear(mode: TransformMode, c: real, s: real)
    ensures ModeMatrix(mode, c, s).None? <==> mode == Original
    ensures mode != Original ==> IsAffine(ModeMatrix(mode, c, s).value)
    ensures mode != Original && mode != Translate ==>
      && IsLinear(ModeMatrix(mode, c, s).value)
      && Apply(ModeMatrix(mode, c, s).value, Point(0.0, 0.0)) == Point(0.0, 0.0)
  {
    if mode != Original {
      BuildersAffine(200.0, -150.0, 1.8, 1.8, c, s, 0.6, 0.2);
      if mode != Translate {
        LinearFixesOrigin(ModeMatrix(mode, c, s).value);
      }
    }
  }

  /** What each mode's matrix does to a vertex: translate by (200, −150), scale by 1.8,
      rotate by the angle, shear by (0.6, 0.2), or negate one coordinate. */
  lemma ModeMatricesAct(mode: TransformMode, c: real, s: real, p: Point)
    ensures mode == Translate ==> Apply(ModeMatrix(mode, c, s).value, p) == Offset(p, 200.0, -150.0)
    ensures mode == Scale ==> Apply(ModeMatrix(mode, c, s).value, p) == Point(1.8 * p.x, 1.8 * p.y)
    ensures mode == Rotate ==> Apply(ModeMatrix(mode, c, s).value, p) == Point(c * p.x - s * p.y, s * p.x + c * p.y)
    ensures mode == Shear ==> Apply(ModeMatrix(mode, c, s).value, p) == Point(p.x + 0.6 * p.y, 0.2 * p.x + p.y)
    ensures mode == ReflectX ==> Apply(ModeMatrix(mode, c, s).value, p) == Point(p.x, -p.y)
    ensures mode == ReflectY ==> Apply(ModeMatrix(mode, c, s).value, p) == Point(-p.x, p.y)
  {
    BuildersAct(p, 200.0, -150.0, 1.8, 1.8, c, s, 0.6, 0.2);
  }

  /** The globals the callbacks update: the mode, the rotation angle and the window size. */
  class DemoState {
    var currentMode: TransformMode
    var animationTime: real
    var windowWidth: int
    var windowHeight: int

    constructor()
      ensures currentMode == Original && animationTime == 0.0
      ensures windowWidth == 800 && windowHeight == 600
    {
      currentMode := Original;
      animationTime := 0.0;
      windowWidth := 800;
      windowHeight := 600;
    }

    /** `toNDCX` with the current window width. */
    function ToNdcX(x: real): real
      reads this
      requires windowWidth != 0
    {
      NdcX(x, windowWidth)
    }

    /** `toNDCY` with the current window height. */
    function ToNdcY(y: real): real
      reads this
      requires windowHeight != 0
    {
      NdcY(y, windowHeight)
    }

    /** `idle`: the angle advances by 0.01 in the rotate mode and stands still otherwise. */
    method Idle()
      modifies this
      ensures currentMode == old(currentMode)
      ensures animationTime == if old(currentMode) == Rotate then old(animationTime) + 0.01 else old(animationTime)
      ensures windowWidth == old(windowWidth) && windowHeight == old(windowHeight)
    {
      if currentMode == Rotate {
        animationTime := animationTime + 0.01;
      }
    }

    /** `keyboard`: '1'–'6' select their mode, '3' and '0' also restart the angle at 0,
        ESC asks to quit, and every other key changes nothing. */
    method Keyboard(key: char) returns (quit: bool)
      modifies this
      ensures currentMode == KeyMode(old(currentMode), key)
      ensures animationTime == if key == '3' || key == '0' then 0.0 else old(animationTime)
      ensures windowWidth == old(windowWidth) && windowHeight == old(windowHeight)
      ensures quit <==> key == Escape
    {
      quit := false;
      match key {
        case '1' => currentMode := Translate;
        case '2' => currentMode := Scale;
        case '3' =>
          currentMode := Rotate;
          animationTime := 0.0;
        case '4' => currentMode := Shear;
        case '5' => currentMode := ReflectX;
        case '6' => currentMode := ReflectY;
        case '0' =>
          currentMode := Original;
          animationTime := 0.0;
        case _ =>
          if key == Escape {
            quit := true;
          }
      }
    }

    /** `reshape`: records the new size (which may be 0; the NDC conversions then divide by
        zero). */
    method Reshape(width: int, height: int)
      modifies this
      ensures windowWidth == width && windowHeight == height
      ensures currentMode == old(currentMode) && animationTime == old(animationTime)
    {
      windowWidth := width;
      windowHeight := height;
    }
  }

  /** The angle after n idle calls from angle t in a mode: idle never leaves the mode. */
  function AngleAfterIdles(mode: TransformMode, t: real, n: nat): real
  {
    if n == 0 then t
    else if mode == Rotate then AngleAfterIdles(mode, t, n - 1) + 0.01
    else AngleAfterIdles(mode, t, n - 1)
  }

  /** After pressing '3' the angle after n idle calls is 0.01·n; outside the rotate mode it
      never moves. */
  lemma {:induction false} AngleGrowsInRotate(t: real, n: nat, mode: TransformMode)
    ensures AngleAfterIdles(Rotate, 0.0, n) == 0.01 * n as real
    ensures mode != Rotate ==> AngleAfterIdles(mode, t, n) == t
  {
    if n > 0 {
      AngleGrowsInRotate(t, n - 1, mode);
    }
  }
}
