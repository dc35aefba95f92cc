/** Lab5/PerspectiveProjection.cpp: the `Perspective` camera. Its projection parameters
    (field of view, aspect, near and far planes), its view (eye, center, up) and the window
    size are fields that clamping, shifting and key-dispatching methods update in place. The
    GL calls that hand these values to `gluPerspective`, `gluLookAt` and `glViewport` change
    no field and are not modelled. */
module PerspectiveProjection {
  import opened Numeric
  import Geometry

  /** A point or direction: the source's `eyeX, eyeY, eyeZ` and so on, grouped. */
  datatype Vec3 = Vec3(x: real, y: real, z: real)

  function Shift(v: Vec3, dx: real, dy: real, dz: real): Vec3
  {
    Vec3(v.x + dx, v.y + dy, v.z + dz)
  }

  /** A snapshot of every field of a `Perspective` object. */
  datatype Camera = Camera(
    fovy: real, aspect: real, nearPlane: real, farPlane: real,
    eye: Vec3, center: Vec3, up: Vec3,
    windowWidth: int, windowHeight: int)

  /** The invariant the key handlers keep: a field of view within [1, 179] degrees and a
      near plane at least one unit in front of the far plane. */
  predicate Valid(c: Camera)
  {
    1.0 <= c.fovy <= 179.0 && c.nearPlane <= c.farPlane - 1.0
  }

  // ---------------------------------------------------------------------------------
  // The field updates, as functions of the previous state
  // ---------------------------------------------------------------------------------

  /** `adjustFOV`: add delta, then clamp to [1, 179]. */
  function AfterAdjustFov(c: Camera, delta: real): Camera
  {
    var f := c.fovy + delta;
    var f1 := if f < 1.0 then 1.0 else f;
    c.(fovy := if f1 > 179.0 then 179.0 else f1)
  }

  /** `adjustNearFar`: shift both planes by delta, raise the near plane to 0.1, then pull it
      back to one unit before the far plane; the second clamp has the last word. */
  function AfterAdjustNearFar(c: Camera, delta: real): Camera
  {
    var n := c.nearPlane + delta;
    var f := c.farPlane + delta;
    var n1 := if n <= 0.1 then 0.1 else n;
    c.(nearPlane := if n1 >= f - 1.0 then f - 1.0 else n1, farPlane := f)
  }

  /** `moveEye`. */
  function AfterMoveEye(c: Camera, dx: real, dy: real, dz: real): Camera
  {
    c.(eye := Shift(c.eye, dx, dy, dz))
  }

  /** `moveCenter`. */
  function AfterMoveCenter(c: Camera, dx: real, dy: real, dz: real): Camera
  {
    c.(center := Shift(c.center, dx, dy, dz))
  }

  /** `setupViewport`: the raw size is stored, but the aspect ratio divides by a height of 1
      in place of 0. */
  function AfterSetupViewport(c: Camera, width: int, height: int): Camera
  {
    var h := if height == 0 then 1 else height;
    c.(windowWidth := width, windowHeight := height, aspect := width as real / h as real)
  }

  /** `setPerspective`. */
  function AfterSetPerspective(c: Camera, fov: real, asp: real, n: real, f: real): Camera
  {
    c.(fovy := fov, aspect := asp, nearPlane := n, farPlane := f)
  }

  /** `setView`. */
  function AfterSetView(c: Camera, eye: Vec3, center: Vec3, up: Vec3): Camera
  {
    c.(eye := eye, center := center, up := up)
  }

  /** The aspect ratio `reset` computes as written: width / height, with no guard, so a
      zero height stored by `SetupViewport` has no value (a float division by zero). */
  function ResetAspectAsWritten(width: int, height: int): Geometry.Option<real>
  {
    if height == 0 then Geometry.None else Geometry.Some(width as real / height as real)
  }

  /** The aspect ratio `reset` evidently means: the same guarded ratio `setupViewport`
      computes. */
  function ResetAspect(width: int, height: int): real
  {
    width as real / (if height == 0 then 1 else height) as real
  }

  /** `reset` (with the guarded aspect): the default projection and view for the stored
      window size. */
  function AfterReset(c: Camera): Camera
  {
    Camera(45.0, ResetAspect(c.windowWidth, c.windowHeight), 0.1, 100.0,
      Vec3(5.0, 5.0, 10.0), Vec3(0.0, 0.0, 0.0), Vec3(0.0, 1.0, 0.0),
      c.windowWidth, c.windowHeight)
  }

  /** `handleKeyboard`: zoom, near/far, eye and center moves, and reset. 'p' only prints,
      and every other key changes nothing. */
  function AfterKey(c: Camera, key: char): Camera
  {
    match key
    case '+' => AfterAdjustFov(c, -5.0)
    case '=' => AfterAdjustFov(c, -5.0)
    case '-' => AfterAdjustFov(c, 5.0)
    case '_' => AfterAdjustFov(c, 5.0)
    case 'n' => AfterAdjustNearFar(c, 0.5)
    case 'N' => AfterAdjustNearFar(c, 0.5)
    case 'f' => AfterAdjustNearFar(c, -0.5)
    case 'F' => AfterAdjustNearFar(c, -0.5)
    case 'w' => AfterMoveEye(c, 0.0, 0.0, -0.5)
    case 'W' => AfterMoveEye(c, 0.0, 0.0, -0.5)
    case 's' => AfterMoveEye(c, 0.0, 0.0, 0.5)
    case 'S' => AfterMoveEye(c, 0.0, 0.0, 0.5)
    case 'a' => AfterMoveEye(c, -0.5, 0.0, 0.0)
    case 'A' => AfterMoveEye(c, -0.5, 0.0, 0.0)
    case 'd' => AfterMoveEye(c, 0.5, 0.0, 0.0)
    case 'D' => AfterMoveEye(c, 0.5, 0.0, 0.0)
    case 'q' => AfterMoveEye(c, 0.0, 0.5, 0.0)
    case 'Q' => AfterMoveEye(c, 0.0, 0.5, 0.0)
    case 'e' => AfterMoveEye(c, 0.0, -0.5, 0.0)
    case 'E' => AfterMoveEye(c, 0.0, -0.5, 0.0)
    case 'i' => AfterMoveCenter(c, 0.0, 0.0, -0.5)
    case 'I' => AfterMoveCenter(c, 0.0, 0.0, -0.5)
    case 'k' => AfterMoveCenter(c, 0.0, 0.0, 0.5)
    case 'K' => AfterMoveCenter(c, 0.0, 0.0, 0.5)
    case 'j' => AfterMoveCenter(c, -0.5, 0.0, 0.0)
    case 'J' => AfterMoveCenter(c, -0.5, 0.0, 0.0)
    case 'l' => AfterMoveCenter(c, 0.5, 0.0, 0.0)
    case 'L' => AfterMoveCenter(c, 0.5, 0.0, 0.0)
    case 'u' => AfterMoveCenter(c, 0.0, 0.5, 0.0)
    case 'U' => AfterMoveCenter(c, 0.0, 0.5, 0.0)
    case 'o' => AfterMoveCenter(c, 0.0, -0.5, 0.0)
    case 'O' => AfterMoveCenter(c, 0.0, -0.5, 0.0)
    case 'r' => AfterReset(c)
    case 'R' => AfterReset(c)
    case _ => c
  }

  /** GLUT's codes for the special keys the camera reacts to. */
  const KeyLeft: int := 100
  const KeyUp: int := 101
  const KeyRight: int := 102
  const KeyDown: int := 103
  const KeyPageUp: int := 104
  const KeyPageDown: int := 105

  /** `handleSpecialKeys`: the arrows and page keys move the eye by 0.5 along one axis. */
  function AfterSpecialKey(c: Camera, key: int): Camera
  {
    if key == KeyLeft then AfterMoveEye(c, -0.5, 0.0, 0.0)
    else if key == KeyRight then AfterMoveEye(c, 0.5, 0.0, 0.0)
    else if key == KeyUp then AfterMoveEye(c, 0.0, 0.5, 0.0)
    else if key == KeyDown then AfterMoveEye(c, 0.0, -0.5, 0.0)
    else if key == KeyPageUp then AfterMoveEye(c, 0.0, 0.0, -0.5)
    else if key == KeyPageDown then AfterMoveEye(c, 0.0, 0.0, 0.5)
    else c
  }

  // ---------------------------------------------------------------------------------
  // Properties of the updates
  // ---------------------------------------------------------------------------------

  /** Whatever delta, the field of view ends in [1, 179]; within range it moves by exactly
      delta, and only the field of view changes. */
  lemma AdjustFovClamps(c: Camera, delta: real)
    ensures var r := AfterAdjustFov(c, delta);
      && 1.0 <= r.fovy <= 179.0
      && (1.0 <= c.fovy + delta <= 179.0 ==> r.fovy == c.fovy + delta)
      && (c.fovy + delta < 1.0 ==> r.fovy == 1.0)
      && (c.fovy + delta > 179.0 ==> r.fovy == 179.0)
      && r == c.(fovy := r.fovy)
  {
  }

  /** Zooming in and back out restores the field of view whenever neither step clamps. */
  lemma ZoomRoundTrip(c: Camera)
    requires 6.0 <= c.fovy <= 179.0
    ensures AfterKey(AfterKey(c, '+'), '-') == c
    ensures c.fovy <= 174.0 ==> AfterKey(AfterKey(c, '-'), '+') == c
  {
    AdjustFovClamps(c, -5.0);
    AdjustFovClamps(AfterAdjustFov(c, -5.0), 5.0);
    AdjustFovClamps(c, 5.0);
    AdjustFovClamps(AfterAdjustFov(c, 5.0), -5.0);
  }

  /** The far plane moves by exactly delta; the near plane is min(max(near + delta, 0.1),
      far' − 1), so it always stays one unit before the far plane, and it is at least 0.1
      exactly when the far plane is at least 1.1. Nothing else changes. */
  lemma AdjustNearFarKeepsGap(c: Camera, delta: real)
    ensures var r := AfterAdjustNearFar(c, delta);
      && r.farPlane == c.farPlane + delta
      && r.nearPlane == MinR(MaxR(c.nearPlane + delta, 0.1), r.farPlane - 1.0)
      && r.nearPlane <= r.farPlane - 1.0
      && (r.nearPlane >= 0.1 <==> r.farPlane >= 1.1)
      && r == c.(nearPlane := r.nearPlane, farPlane := r.farPlane)
  {
  }

  /** `n` presses of the same key, one after the other. */
  function PressKey(c: Camera, key: char, n: nat): Camera
  {
    if n == 0 then c else AfterKey(PressKey(c, key, n - 1), key)
  }

  /** While the far plane stays at 1.5 or more, pressing 'f' keeps the near plane at 0.1
      and moves the far plane half a unit closer each time. */
  lemma {:induction false} FarPressesKeepNear(c: Camera, m: nat)
    requires c.nearPlane == 0.1 && c.farPlane - 0.5 * m as real >= 1.5
    ensures PressKey(c, 'f', m).nearPlane == 0.1
    ensures PressKey(c, 'f', m).farPlane == c.farPlane - 0.5 * m as real
  {
    if m > 0 {
      FarPressesKeepNear(c, m - 1);
    }
  }

  /** As written, the near plane does not stay positive: from the reset state, 198 presses
      of 'f' bring the far plane to 1.0 and the near plane to 0.0, and one more press makes
      the near plane −0.5, because the clamp to far − 1 comes after the clamp to 0.1. */
  lemma NearPlaneGoesNegative(c: Camera)
    ensures var p := PressKey(AfterReset(c), 'f', 198);
      && p.farPlane == 1.0 && p.nearPlane == 0.0
      && AfterKey(p, 'f').nearPlane == -0.5
  {
    var r := AfterReset(c);
    FarPressesKeepNear(r, 197);
    var q := PressKey(r, 'f', 197);
    assert q.nearPlane == 0.1 && q.farPlane == 1.5;
    assert PressKey(r, 'f', 198) == AfterKey(q, 'f');
  }

  /** `adjustNearFar` with the far plane also held at 1.1 or more, so that the final clamp
      to far − 1 can no longer push the near plane below 0.1. */
  function AfterAdjustNearFarKeepingFar(c: Camera, delta: real): Camera
  {
    var f := MaxR(c.farPlane + delta, 1.1);
    c.(nearPlane := MinR(MaxR(c.nearPlane + delta, 0.1), f - 1.0), farPlane := f)
  }

  /** The corrected update keeps the near plane at 0.1 or more and one unit before the far
      plane, and agrees with the source whenever the shifted far plane is at least 1.1. */
  lemma AdjustNearFarKeepingFarPositive(c: Camera, delta: real)
    ensures var r := AfterAdjustNearFarKeepingFar(c, delta);
      && 0.1 <= r.nearPlane <= r.farPlane - 1.0
      && r.farPlane >= c.farPlane + delta
      && (c.farPlane + delta >= 1.1 <==> r == AfterAdjustNearFar(c, delta))
  {
    AdjustNearFarKeepsGap(c, delta);
  }

  /** A move touches only its own vector, and the opposite move undoes it. */
  lemma MovesAreTranslations(c: Camera, dx: real, dy: real, dz: real)
    ensures AfterMoveEye(c, dx, dy, dz) == c.(eye := Vec3(c.eye.x + dx, c.eye.y + dy, c.eye.z + dz))
    ensures AfterMoveCenter(c, dx, dy, dz) == c.(center := Vec3(c.center.x + dx, c.center.y + dy, c.center.z + dz))
    ensures AfterMoveEye(AfterMoveEye(c, dx, dy, dz), -dx, -dy, -dz) == c
    ensures AfterMoveCenter(AfterMoveCenter(c, dx, dy, dz), -dx, -dy, -dz) == c
  {
  }

  /** The viewport keeps the raw size; for a non-zero height the aspect is width/height
      and for a zero height it is the width. */
  lemma ViewportAspect(c: Camera, width: int, height: int)
    ensures var r := AfterSetupViewport(c, width, height);
      && r.windowWidth == width && r.windowHeight == height
      && (height != 0 ==> r.aspect * height as real == width as real)
      && (height == 0 ==> r.aspect == width as real)
      && r == c.(windowWidth := width, windowHeight := height, aspect := r.aspect)
  {
  }

  /** `reset` restores the documented defaults, keeps the window size, and agrees with the
      aspect `setupViewport` last computed; the result satisfies the invariant. */
  lemma ResetDefaults(c: Camera, width: int, height: int)
    ensures var r := AfterReset(c);
      && r.fovy == 45.0 && r.nearPlane == 0.1 && r.farPlane == 100.0
      && r.eye == Vec3(5.0, 5.0, 10.0) && r.center == Vec3(0.0, 0.0, 0.0) && r.up == Vec3(0.0, 1.0, 0.0)
      && r.windowWidth == c.windowWidth && r.windowHeight == c.windowHeight
      && (c.windowHeight != 0 ==> r.aspect * c.windowHeight as real == c.windowWidth as real)
      && Valid(r)
    ensures AfterReset(AfterSetupViewport(c, width, height)).aspect == AfterSetupViewport(c, width, height).aspect
  {
  }

  /** As written, `reset` after `setupViewport(800, 0)` has no aspect ratio to compute (the
      stored height is 0), although the viewport itself guarded against that height. */
  lemma ResetAfterZeroHeight(c: Camera)
    ensures var v := AfterSetupViewport(c, 800, 0);
      && v.aspect == 800.0
      && ResetAspectAsWritten(v.windowWidth, v.windowHeight).None?
      && AfterReset(v).aspect == 800.0
  {
  }

  /** Every key (and every special key) keeps the invariant. */
  lemma KeysKeepValid(c: Camera, key: char, special: int)
    requires Valid(c)
    ensures Valid(AfterKey(c, key))
    ensures Valid(AfterSpecialKey(c, special))
  {
    AdjustFovClamps(c, -5.0);
    AdjustFovClamps(c, 5.0);
    AdjustNearFarKeepsGap(c, 0.5);
    AdjustNearFarKeepsGap(c, -0.5);
    ResetDefaults(c, 0, 1);
  }

  /** The up vector and the window size never change through a key, except the up vector on
      'r'/'R' (reset); only the movement keys touch the eye and the center. */
  lemma KeysKeepUp(c: Camera, key: char, special: int)
    ensures key != 'r' && key != 'R' ==> AfterKey(c, key).up == c.up
    ensures AfterKey(c, key).windowWidth == c.windowWidth
    ensures AfterKey(c, key).windowHeight == c.windowHeight
    ensures key !in "wWsSaAdDqQeErR" ==> AfterKey(c, key).eye == c.eye
    ensures key !in "iIkKjJlLuUoOrR" ==> AfterKey(c, key).center == c.center
    ensures AfterSpecialKey(c, special) == c.(eye := AfterSpecialKey(c, special).eye)
  {
  }

  /** Keys outside the dispatcher's table, and 'p', leave the camera as it was. */
  lemma UnmappedKeysIgnored(c: Camera, key: char)
    requires key !in "+=-_nNfFwWsSaAdDqQeEiIkKjJlLuUoOrR"
    ensures AfterKey(c, key) == c
  {
  }

  /** Each movement key has an opposite that undoes it. */
  lemma OppositeKeysCancel(c: Camera)
    ensures AfterKey(AfterKey(c, 'w'), 's') == c && AfterKey(AfterKey(c, 'a'), 'd') == c
    ensures AfterKey(AfterKey(c, 'q'), 'e') == c
    ensures AfterKey(AfterKey(c, 'i'), 'k') == c && AfterKey(AfterKey(c, 'j'), 'l') == c
    ensures AfterKey(AfterKey(c, 'u'), 'o') == c
    ensures AfterSpecialKey(AfterSpecialKey(c, KeyLeft), KeyRight) == c
    ensures AfterSpecialKey(AfterSpecialKey(c, KeyUp), KeyDown) == c
    ensures AfterSpecialKey(AfterSpecialKey(c, KeyPageUp), KeyPageDown) == c
  {
    MovesAreTranslations(c, 0.0, 0.0, -0.5);
    MovesAreTranslations(c, -0.5, 0.0, 0.0);
    MovesAreTranslations(c, 0.0, 0.5, 0.0);
  }

  // ---------------------------------------------------------------------------------
  // The class
  // ---------------------------------------------------------------------------------

  class Perspective {
    var fovy: real
    var aspect: real
    var nearPlane: real
    var farPlane: real
    var eye: Vec3
    var center: Vec3
    var up: Vec3
    var windowWidth: int
    var windowHeight: int

    function State(): Camera
      reads this
    {
      Camera(fovy, aspect, nearPlane, farPlane, eye, center, up, windowWidth, windowHeight)
    }

    /** An 800×600 window with the defaults of `reset`. */
    constructor()
      ensures State() == AfterReset(State()) && windowWidth == 800 && windowHeight == 600
    {
      windowWidth := 800;
      windowHeight := 600;
      new;
      Reset();
    }

    method SetupViewport(width: int, height: int)
      modifies this
      ensures State() == AfterSetupViewport(old(State()), width, height)
    {
      windowWidth := width;
      windowHeight := height;
      var h := height;
      if h == 0 {
        h := 1;
      }
      aspect := width as real / h as real;
    }

    method SetPerspective(fov: real, asp: real, n: real, f: real)
      modifies this
      ensures State() == AfterSetPerspective(old(State()), fov, asp, n, f)
    {
      fovy := fov;
      aspect := asp;
      nearPlane := n;
      farPlane := f;
    }

    method SetView(e: Vec3, c: Vec3, u: Vec3)
      modifies this
      ensures State() == AfterSetView(old(State()), e, c, u)
    {
      eye := e;
      center := c;
      up := u;
    }

    method AdjustFov(delta: real)
      modifies this
      ensures State() == AfterAdjustFov(old(State()), delta)
    {
      fovy := fovy + delta;
      if fovy < 1.0 {
        fovy := 1.0;
      }
      if fovy > 179.0 {
        fovy := 179.0;
      }
    }

    method AdjustNearFar(delta: real)
      modifies this
      ensures State() == AfterAdjustNearFar(old(State()), delta)
    {
      nearPlane := nearPlane + delta;
      farPlane := farPlane + delta;
      if nearPlane <= 0.1 {
        nearPlane := 0.1;
      }
      if nearPlane >= farPlane - 1.0 {
        nearPlane := farPlane - 1.0;
      }
    }

    method MoveEye(dx: real, dy: real, dz: real)
      modifies this
      ensures State() == AfterMoveEye(old(State()), dx, dy, dz)
    {
      eye := Vec3(eye.x + dx, eye.y + dy, eye.z + dz);
    }

    method MoveCenter(dx: real, dy: real, dz: real)
      modifies this
      ensures State() == AfterMoveCenter(old(State()), dx, dy, dz)
    {
      center := Vec3(center.x + dx, center.y + dy, center.z + dz);
    }

    method HandleKeyboard(key: char)
      modifies this
      ensures State() == AfterKey(old(State()), key)
    {
      match key {
        case '+' => AdjustFov(-5.0);
        case '=' => AdjustFov(-5.0);
        case '-' => AdjustFov(5.0);
        case '_' => AdjustFov(5.0);
        case 'n' => AdjustNearFar(0.5);
        case 'N' => AdjustNearFar(0.5);
        case 'f' => AdjustNearFar(-0.5);
        case 'F' => AdjustNearFar(-0.5);
        case 'w' => MoveEye(0.0, 0.0, -0.5);
        case 'W' => MoveEye(0.0, 0.0, -0.5);
        case 's' => MoveEye(0.0, 0.0, 0.5);
        case 'S' => MoveEye(0.0, 0.0, 0.5);
        case 'a' => MoveEye(-0.5, 0.0, 0.0);
        case 'A' => MoveEye(-0.5, 0.0, 0.0);
        case 'd' => MoveEye(0.5, 0.0, 0.0);
        case 'D' => MoveEye(0.5, 0.0, 0.0);
        case 'q' => MoveEye(0.0, 0.5, 0.0);
        case 'Q' => MoveEye(0.0, 0.5, 0.0);
        case 'e' => MoveEye(0.0, -0.5, 0.0);
        case 'E' => MoveEye(0.0, -0.5, 0.0);
        case 'i' => MoveCenter(0.0, 0.0, -0.5);
        case 'I' => MoveCenter(0.0, 0.0, -0.5);
        case 'k' => MoveCenter(0.0, 0.0, 0.5);
        case 'K' => MoveCenter(0.0, 0.0, 0.5);
        case 'j' => MoveCenter(-0.5, 0.0, 0.0);
        case 'J' => MoveCenter(-0.5, 0.0, 0.0);
        case 'l' => MoveCenter(0.5, 0.0, 0.0);
        case 'L' => MoveCenter(0.5, 0.0, 0.0);
        case 'u' => MoveCenter(0.0, 0.5, 0.0);
        case 'U' => MoveCenter(0.0, 0.5, 0.0);
        case 'o' => MoveCenter(0.0, -0.5, 0.0);
        case 'O' => MoveCenter(0.0, -0.5, 0.0);
        case 'r' => Reset();
        case 'R' => Reset();
        case _ =>
      }
    }

    method HandleSpecialKeys(key: int)
      modifies this
      ensures State() == AfterSpecialKey(old(State()), key)
    {
      if key == KeyLeft {
        MoveEye(-0.5, 0.0, 0.0);
      } else if key == KeyRight {
        MoveEye(0.5, 0.0, 0.0);
      } else if key == KeyUp {
        MoveEye(0.0, 0.5, 0.0);
      } else if key == KeyDown {
        MoveEye(0.0, -0.5, 0.0);
      } else if key == KeyPageUp {
        MoveEye(0.0, 0.0, -0.5);
      } else if key == KeyPageDown {
        MoveEye(0.0, 0.0, 0.5);
      }
    }

    /** `reset`, with the aspect guarded as in `setupViewport`. */
    method Reset()
      modifies this
      ensures State() == AfterReset(old(State()))
    {
      fovy := 45.0;
      aspect := ResetAspect(windowWidth, windowHeight);
      nearPlane := 0.1;
      farPlane := 100.0;
      eye := Vec3(5.0, 5.0, 10.0);
      center := Vec3(0.0, 0.0, 0.0);
      up := Vec3(0.0, 1.0, 0.0);
    }
  }
}
