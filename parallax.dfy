/**
 * `AnimationManager.setupParallaxEffects` (js/animations.js): every element
 * with a `data-parallax` attribute moves at its own speed while it is on
 * screen. On each scroll the element's geometry is read afresh; when the
 * page is strictly inside the element's visibility window the element is
 * translated by `-(scrolled - top) * speed` pixels, and otherwise its
 * transform is left as it was.
 *
 * `parseFloat(data-parallax)` is an input: `None` stands for `NaN`.
 */
module Parallax {
  import opened Wrappers

  const DefaultSpeed := 0.5

  /** `parseFloat(element.dataset.parallax) || 0.5`: a `NaN` or a zero
      speed falls back to the default. */
  function Speed(parsed: Option<real>): (speed: real)
    ensures speed != 0.0
    ensures parsed.Some? && parsed.value != 0.0 ==> speed == parsed.value
    ensures parsed.None? || parsed.value == 0.0 ==> speed == DefaultSpeed
  {
    match parsed
    case Some(v) => if v != 0.0 then v else DefaultSpeed
    case None => DefaultSpeed
  }

  /** The page is strictly between the point where the element's top enters
      at the bottom of the window and the point where its bottom leaves at
      the top. */
  predicate InWindow(scrolled: real, elementTop: real, elementHeight: real, innerHeight: real)
  {
    scrolled > elementTop - innerHeight && scrolled < elementTop + elementHeight
  }

  /** `yPos`: the vertical translation for the page at `scrolled`. */
  function Offset(scrolled: real, elementTop: real, speed: real): real
  {
    -(scrolled - elementTop) * speed
  }

  class Element {
    const speed: real
    /** The translation last written to `style.transform`, if any. */
    var transform: Option<real>

    /** The element as `setupParallax` finds it, with its speed read and
        nothing written yet; the `updateParallax()` call that the setup
        makes at once is the first call of `Update`. */
    constructor(parsed: Option<real>)
      ensures speed == Speed(parsed) && transform == None
    {
      speed := Speed(parsed);
      transform := None;
    }

    /** `updateParallax` with the page at `scrolled` and the element's
        current geometry. */
    method Update(scrolled: real, elementTop: real, elementHeight: real, innerHeight: real)
      modifies this
      ensures InWindow(scrolled, elementTop, elementHeight, innerHeight) ==>
        transform == Some(Offset(scrolled, elementTop, speed))
      ensures !InWindow(scrolled, elementTop, elementHeight, innerHeight) ==>
        transform == old(transform)
    {
      if scrolled > elementTop - innerHeight && scrolled < elementTop + elementHeight {
        var yPos := -(scrolled - elementTop) * speed;
        transform := Some(yPos);
      }
    }
  }

  /** The translation moves against the scroll, in proportion to the speed:
      scrolling by `d` changes it by `-d * speed`. */
  lemma OffsetShift(s: real, t: real, elementTop: real, speed: real)
    ensures Offset(t, elementTop, speed) - Offset(s, elementTop, speed) == -(t - s) * speed
  {
    assert (t - elementTop) * speed - (s - elementTop) * speed == (t - s) * speed;
  }

  /** The translation is zero when the page is scrolled to the element's
      top, whatever the speed. */
  lemma OffsetZeroAtTop(elementTop: real, speed: real)
    ensures Offset(elementTop, elementTop, speed) == 0.0
  {
    var d := elementTop - elementTop;
    assert d == 0.0;
    assert d * speed == 0.0;
  }

  /** Inside the window and with a positive speed, the translation stays
      strictly between `-elementHeight * speed` and `innerHeight * speed`. */
  lemma OffsetBounded(scrolled: real, elementTop: real, elementHeight: real, innerHeight: real,
                      speed: real)
    requires InWindow(scrolled, elementTop, elementHeight, innerHeight) && speed > 0.0
    ensures -elementHeight * speed < Offset(scrolled, elementTop, speed) < innerHeight * speed
  {
    var d := scrolled - elementTop;
    assert -innerHeight < d < elementHeight;
    MulStrict(-innerHeight, d, speed);
    MulStrict(d, elementHeight, speed);
  }

  lemma MulStrict(x: real, y: real, c: real)
    requires x < y && c > 0.0
    ensures x * c < y * c
  {
    assert y * c - x * c == (y - x) * c;
  }

  /** An element 1000 pixels down with the default speed, seen with the page
      at 1200, is translated by -100 pixels. */
  lemma OffsetExample(scrolled: real, elementTop: real)
    requires scrolled == 1200.0 && elementTop == 1000.0
    ensures Offset(scrolled, elementTop, Speed(None)) == -100.0
  {
    var d := scrolled - elementTop;
    assert d == 200.0;
  }
}
