/**
 * The three easing curves of `AnimationManager.smoothScrollTo`
 * (js/animations.js, `easeFunctions`) over the reals, and the lookup of a
 * curve by its name.
 *
 * `Math.pow(x, 3)` and `Math.pow(x, 2)` are written as products; floating
 * point rounding is not modelled.
 */
module Easing {
  import opened Wrappers

  datatype Curve = InOutCubic | OutCubic | InOutQuad

  function Cube(x: real): real
  {
    x * x * x
  }

  function CubicIn(t: real): real
  {
    4.0 * Cube(t)
  }

  function CubicOut(t: real): real
  {
    1.0 - Cube(-2.0 * t + 2.0) / 2.0
  }

  /** `easeInOutCubic`: `4t³` below one half, `1 - (2 - 2t)³ / 2` from there. */
  function EaseInOutCubic(t: real): real
  {
    if t < 0.5 then CubicIn(t) else CubicOut(t)
  }

  /** `easeOutCubic`: `1 - (1 - t)³`. */
  function EaseOutCubic(t: real): real
  {
    1.0 - Cube(1.0 - t)
  }

  function QuadIn(t: real): real
  {
    2.0 * t * t
  }

  function QuadOut(t: real): real
  {
    1.0 - (-2.0 * t + 2.0) * (-2.0 * t + 2.0) / 2.0
  }

  /** `easeInOutQuad`: `2t²` below one half, `1 - (2 - 2t)² / 2` from there. */
  function EaseInOutQuad(t: real): real
  {
    if t < 0.5 then QuadIn(t) else QuadOut(t)
  }

  function Apply(c: Curve, t: real): real
  {
    match c
    case InOutCubic => EaseInOutCubic(t)
    case OutCubic => EaseOutCubic(t)
    case InOutQuad => EaseInOutQuad(t)
  }

  /** `easeFunctions[easing]`: one of the three names, or nothing (calling
      what the lookup gives then throws a TypeError). */
  function CurveNamed(name: string): (r: Option<Curve>)
    ensures r.Some? <==> name in {"easeInOutCubic", "easeOutCubic", "easeInOutQuad"}
    ensures r == Some(InOutCubic) <==> name == "easeInOutCubic"
    ensures r == Some(OutCubic) <==> name == "easeOutCubic"
    ensures r == Some(InOutQuad) <==> name == "easeInOutQuad"
  {
    if name == "easeInOutCubic" then Some(InOutCubic)
    else if name == "easeOutCubic" then Some(OutCubic)
    else if name == "easeInOutQuad" then Some(InOutQuad)
    else None
  }

  /* ---------------------------------------------------------------
   * Properties of the curves
   * ------------------------------------------------------------- */

  lemma CubeMonotone(x: real, y: real)
    requires 0.0 <= x <= y
    ensures 0.0 <= Cube(x) <= Cube(y)
  {
    assert 0.0 <= x * x <= y * y by {
      assert x * x <= x * y <= y * y;
    }
    assert x * x * x <= y * y * x <= y * y * y;
  }

  lemma SquareMonotone(x: real, y: real)
    requires 0.0 <= x <= y
    ensures 0.0 <= x * x <= y * y
  {
    assert x * x <= x * y <= y * y;
  }

  /** Every curve starts at 0 and ends at 1: both ends of the unit
      interval are fixed points. */
  lemma FixesEnds(c: Curve, t: real)
    requires t == 0.0 || t == 1.0
    ensures Apply(c, t) == t
  {
    match c
    case InOutCubic => InOutCubicEnds(t);
    case OutCubic => OutCubicEnds(t);
    case InOutQuad => InOutQuadEnds(t);
  }

  lemma InOutCubicEnds(t: real)
    requires t == 0.0 || t == 1.0
    ensures EaseInOutCubic(t) == t
  {
    if t == 0.0 {
      assert Cube(t) == 0.0;
    } else {
      var u := -2.0 * t + 2.0;
      assert u == 0.0;
      assert Cube(u) == 0.0;
    }
  }

  lemma OutCubicEnds(t: real)
    requires t == 0.0 || t == 1.0
    ensures EaseOutCubic(t) == t
  {
    var u := 1.0 - t;
    if t == 0.0 {
      assert u == 1.0;
      assert Cube(u) == 1.0;
    } else {
      assert u == 0.0;
      assert Cube(u) == 0.0;
    }
  }

  lemma InOutQuadEnds(t: real)
    requires t == 0.0 || t == 1.0
    ensures EaseInOutQuad(t) == t
  {
    if t == 1.0 {
      var u := -2.0 * t + 2.0;
      assert u == 0.0;
      assert u * u == 0.0;
    }
  }

  /** The two branches of each in-out curve meet at one half, so the curves
      have no jump where they switch branch. */
  lemma BranchesMeet(t: real)
    requires t == 0.5
    ensures CubicIn(t) == CubicOut(t) == 0.5
    ensures QuadIn(t) == QuadOut(t) == 0.5
  {
    var u := -2.0 * t + 2.0;
    assert u == 1.0;
    assert Cube(u) == 1.0;
    assert t * t == 0.25;
    assert Cube(t) == 0.125;
  }

  /** Every curve maps the unit interval into itself. */
  lemma {:induction false} StaysInUnit(c: Curve, t: real)
    requires 0.0 <= t <= 1.0
    ensures 0.0 <= Apply(c, t) <= 1.0
  {
    match c
    case InOutCubic =>
      if t < 0.5 {
        CubeMonotone(t, 0.5);
      } else {
        CubeMonotone(-2.0 * t + 2.0, 1.0);
      }
    case OutCubic =>
      CubeMonotone(1.0 - t, 1.0);
    case InOutQuad =>
      if t < 0.5 {
        SquareMonotone(t, 0.5);
      } else {
        SquareMonotone(-2.0 * t + 2.0, 1.0);
      }
  }

  /** Every curve is non-decreasing on the unit interval, so the scroll
      position never moves back towards the start. */
  lemma {:induction false} Monotone(c: Curve, s: real, t: real)
    requires 0.0 <= s <= t <= 1.0
    ensures Apply(c, s) <= Apply(c, t)
  {
    match c
    case InOutCubic =>
      if t < 0.5 {
        CubeMonotone(s, t);
      } else if s >= 0.5 {
        CubeMonotone(-2.0 * t + 2.0, -2.0 * s + 2.0);
      } else {
        CubeMonotone(s, 0.5);
        CubeMonotone(-2.0 * t + 2.0, 1.0);
      }
    case OutCubic =>
      CubeMonotone(1.0 - t, 1.0 - s);
    case InOutQuad =>
      if t < 0.5 {
        SquareMonotone(s, t);
      } else if s >= 0.5 {
        SquareMonotone(-2.0 * t + 2.0, -2.0 * s + 2.0);
      } else {
        SquareMonotone(s, 0.5);
        SquareMonotone(-2.0 * t + 2.0, 1.0);
      }
  }
}
