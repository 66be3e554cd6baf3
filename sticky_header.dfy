/**
 * `AnimationManager.setupStickyHeader` (js/animations.js): on every
 * delivered animation frame the header is slid out of view when the page
 * scrolled down past the header's height and shown otherwise, the body is
 * marked `scrolled` past 50 pixels, and the position is remembered for the
 * next frame. Scroll events are throttled: while a frame is pending
 * (`ticking`), further scroll events schedule nothing.
 *
 * Scroll positions are whole pixels; the frame's scroll position is the
 * argument of `RunFrame`.
 */
module StickyHeader {

  const HiddenTransform := "translateY(-100%)"
  const ShownTransform := "translateY(0)"

  /** The `scrolled` class threshold on the body. */
  const ScrolledAbove := 50

  /** The header hides exactly when the page moved down since the last
      frame and is past the header's height. */
  predicate Hides(lastScroll: int, headerHeight: int, current: int)
  {
    current > lastScroll && current > headerHeight
  }

  /** Whether the header is hidden after each of the frames at the scroll
      positions `positions`, starting from the remembered position `last`. */
  function Trace(last: int, headerHeight: int, positions: seq<int>): (r: seq<bool>)
    ensures |r| == |positions|
    decreases |positions|
  {
    if positions == [] then []
    else [Hides(last, headerHeight, positions[0])] + Trace(positions[0], headerHeight, positions[1..])
  }

  /** Each frame's verdict depends only on its own position, the one
      before it and the header's height. */
  lemma {:induction false} TraceAt(last: int, headerHeight: int, positions: seq<int>, k: nat)
    requires k < |positions|
    ensures Trace(last, headerHeight, positions)[k]
      == Hides(if k == 0 then last else positions[k - 1], headerHeight, positions[k])
    decreases k
  {
    if k > 0 {
      TraceAt(positions[0], headerHeight, positions[1..], k - 1);
    }
  }

  /** With the header 80 pixels high and the page at the top, frames at 60,
      120 and 90 leave the header shown, hidden, shown: 60 is below the
      header's height, 120 moves down past it, 90 moves up. */
  lemma TraceExample()
    ensures Trace(0, 80, [60, 120, 90]) == [false, true, false]
  {
    var r := Trace(0, 80, [60, 120, 90]);
    assert !r[0] && r[1] && !r[2];
  }

  /** A frame that is not further down than the one before never hides the
      header, whatever happened before. */
  lemma UpwardShows(last: int, headerHeight: int, positions: seq<int>, k: nat)
    requires 0 < k < |positions| && positions[k] <= positions[k - 1]
    ensures !Trace(last, headerHeight, positions)[k]
  {
    TraceAt(last, headerHeight, positions, k);
  }

  /** The header is never hidden while the page is within the header's
      height of the top. */
  lemma NearTopShows(last: int, headerHeight: int, positions: seq<int>, k: nat)
    requires k < |positions| && positions[k] <= headerHeight
    ensures !Trace(last, headerHeight, positions)[k]
  {
    TraceAt(last, headerHeight, positions, k);
  }

  class Header {
    /** The position remembered from the last handled frame. */
    var lastScroll: int
    /** `header.offsetHeight`, read once when the handler is set up. */
    const headerHeight: int
    /** `header.style.transform`; empty until the first frame. */
    var transform: string
    /** Whether the body carries the `scrolled` class. */
    var bodyScrolled: bool
    var ticking: bool
    /** The number of animation frames requested and not yet run. */
    var pendingFrames: nat

    /** At most one frame is pending, and `ticking` says whether one is. */
    predicate Valid()
      reads this
    {
      pendingFrames <= 1 && (ticking <==> pendingFrames == 1)
    }

    constructor(headerHeight: int, bodyScrolled: bool)
      ensures Valid()
      ensures this.headerHeight == headerHeight && this.bodyScrolled == bodyScrolled
      ensures lastScroll == 0 && transform == "" && !ticking && pendingFrames == 0
    {
      this.headerHeight := headerHeight;
      this.bodyScrolled := bodyScrolled;
      lastScroll := 0;
      transform := "";
      ticking := false;
      pendingFrames := 0;
    }

    /** `handleScroll` with the page at `current`. */
    method HandleScroll(current: int)
      modifies this
      ensures transform == (if Hides(old(lastScroll), headerHeight, current) then HiddenTransform else ShownTransform)
      ensures bodyScrolled == (current > ScrolledAbove)
      ensures lastScroll == current
      ensures ticking == old(ticking) && pendingFrames == old(pendingFrames)
    {
      if current > lastScroll && current > headerHeight {
        transform := HiddenTransform;
      } else {
        transform := ShownTransform;
      }
      if current > ScrolledAbove {
        bodyScrolled := true;
      } else {
        bodyScrolled := false;
      }
      lastScroll := current;
    }

    /** The scroll listener: requests a frame unless one is pending. */
    method OnScroll()
      requires Valid()
      modifies this
      ensures Valid() && pendingFrames == 1 && ticking
      ensures old(ticking) ==> pendingFrames == old(pendingFrames)
      ensures lastScroll == old(lastScroll) && transform == old(transform)
      ensures bodyScrolled == old(bodyScrolled)
    {
      if !ticking {
        pendingFrames := pendingFrames + 1;
        ticking := true;
      }
    }

    /** The pending frame runs with the page at `current`: it handles the
        position then clears `ticking`. */
    method RunFrame(current: int)
      requires Valid() && pendingFrames == 1
      modifies this
      ensures Valid() && pendingFrames == 0 && !ticking
      ensures transform == (if Hides(old(lastScroll), headerHeight, current) then HiddenTransform else ShownTransform)
      ensures bodyScrolled == (current > ScrolledAbove)
      ensures lastScroll == current
    {
      pendingFrames := pendingFrames - 1;
      HandleScroll(current);
      ticking := false;
    }
  }
}
