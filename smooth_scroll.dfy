/**
 * `AnimationManager.smoothScrollTo` (js/animations.js): a scroll from the
 * current position to a target, one write per animation frame, where the
 * frame's progress is the elapsed fraction of the duration clamped to 1 and
 * the position is `start + distance * ease(progress)`.
 *
 * The frames the browser delivers are given as the list of their timestamps,
 * in delivery order; the method returns the positions written, in order.
 */
module SmoothScroll {
  import opened Easing

  /** `Math.min(elapsed / duration, 1)`. */
  function Progress(startTime: real, duration: real, now: real): (p: real)
    requires duration > 0.0
    ensures p <= 1.0
    ensures now >= startTime ==> 0.0 <= p
    ensures p == 1.0 <==> now - startTime >= duration
  {
    var q := (now - startTime) / duration;
    Ratio(now - startTime, duration);
    if q < 1.0 then q else 1.0
  }

  lemma Ratio(a: real, d: real)
    requires d > 0.0
    ensures a / d < 1.0 <==> a < d
    ensures a >= 0.0 ==> a / d >= 0.0
  {
    var q := a / d;
    assert q * d == a;
    if q < 1.0 {
      MulLess(q, 1.0, d);
    } else {
      MulLess(1.0, q, d);
    }
    if q < 0.0 {
      MulLess(q, 0.0, d);
    }
  }

  lemma MulLess(x: real, y: real, d: real)
    requires x <= y && d > 0.0
    ensures x * d <= y * d
    ensures x < y ==> x * d < y * d
  {
    assert y * d - x * d == (y - x) * d;
  }

  /** The position written when the eased progress is `e`. */
  function PositionAt(start: real, distance: real, e: real): real
  {
    start + distance * e
  }

  /** The positions written for the frames `frames`: one per frame, until
      (and including) the first frame whose progress reaches 1, after which
      no further frame is requested. */
  function Writes(start: real, distance: real, startTime: real, duration: real, c: Curve,
                  frames: seq<real>): seq<real>
    requires duration > 0.0
  {
    if frames == [] then []
    else
      var p := Progress(startTime, duration, frames[0]);
      [PositionAt(start, distance, Apply(c, p))]
        + (if p < 1.0 then Writes(start, distance, startTime, duration, c, frames[1..]) else [])
  }

  /** The frame callback `scroll(currentTime)`: looks the easing up (an
      unknown name throws before anything is written), writes the eased
      position of the frame's progress, and asks for another frame while
      the progress is below 1. */
  method Scroll(startPosition: real, distance: real, startTime: real, duration: real,
                easing: string, currentTime: real)
    returns (threw: bool, position: real, again: bool)
    requires duration > 0.0
    ensures threw <==> CurveNamed(easing).None?
    ensures !threw ==>
      var p := Progress(startTime, duration, currentTime);
      position == PositionAt(startPosition, distance, Apply(CurveNamed(easing).value, p))
      && (again <==> p < 1.0)
  {
    var progress := Progress(startTime, duration, currentTime);
    var curve := CurveNamed(easing);
    if curve.None? {
      return true, 0.0, false;
    }
    var easeProgress := Apply(curve.value, progress);
    threw, position, again := false, PositionAt(startPosition, distance, easeProgress), progress < 1.0;
  }

  /** `smoothScrollTo` from `startPosition` to `targetPosition`, started at
      `startTime`, over the frames delivered at the timestamps `frames`:
      the first frame is requested, and each frame that asks for another
      gets the next one. An unknown easing name throws in the first frame,
      before anything is written. */
  method SmoothScrollTo(startPosition: real, targetPosition: real, startTime: real,
                        duration: real, easing: string, frames: seq<real>)
    returns (writes: seq<real>, threw: bool)
    requires duration > 0.0
    ensures threw <==> frames != [] && CurveNamed(easing).None?
    ensures CurveNamed(easing).None? ==> writes == []
    ensures CurveNamed(easing).Some? ==>
      writes == Writes(startPosition, targetPosition - startPosition, startTime, duration,
                       CurveNamed(easing).value, frames)
  {
    var distance := targetPosition - startPosition;
    ghost var named := CurveNamed(easing);
    writes, threw := [], false;
    var i := 0;
    var requested := true;
    while i < |frames| && requested
      invariant 0 <= i <= |frames|
      invariant named.None? ==> i == 0 && writes == []
      invariant i == 0 ==> requested
      invariant named.Some? ==>
        Resumes(startPosition, distance, startTime, duration, named.value, frames, writes, i, requested)
    {
      var frameThrew, position, again := Scroll(startPosition, distance, startTime, duration, easing, frames[i]);
      if frameThrew {
        threw := true;
        return;
      }
      ResumesStep(startPosition, distance, startTime, duration, named.value, frames, writes, i);
      writes := writes + [position];
      requested := again;
      i := i + 1;
    }
    if named.Some? {
      ResumesDone(startPosition, distance, startTime, duration, named.value, frames, writes, i, requested);
    }
  }

  /** After the frames before `i`, `writes` followed by what the remaining
      frames write (none once no frame is requested) is the whole scroll. */
  ghost predicate Resumes(start: real, distance: real, startTime: real, duration: real, c: Curve,
                          frames: seq<real>, writes: seq<real>, i: nat, requested: bool)
    requires duration > 0.0 && i <= |frames|
  {
    writes + (if requested then Writes(start, distance, startTime, duration, c, frames[i..]) else [])
      == Writes(start, distance, startTime, duration, c, frames)
  }

  /** Delivering frame `i` appends its position and keeps requesting
      frames while its progress is below 1. */
  lemma ResumesStep(start: real, distance: real, startTime: real, duration: real, c: Curve,
                    frames: seq<real>, writes: seq<real>, i: nat)
    requires duration > 0.0 && i < |frames|
    requires Resumes(start, distance, startTime, duration, c, frames, writes, i, true)
    ensures var p := Progress(startTime, duration, frames[i]);
      Resumes(start, distance, startTime, duration, c, frames,
              writes + [PositionAt(start, distance, Apply(c, p))], i + 1, p < 1.0)
  {
    var p := Progress(startTime, duration, frames[i]);
    var x := PositionAt(start, distance, Apply(c, p));
    var rest := if p < 1.0 then Writes(start, distance, startTime, duration, c, frames[i + 1..]) else [];
    WritesFrom(start, distance, startTime, duration, c, frames, i);
    Regroup(writes, x, rest);
  }

  /** `Writes` from the `i`-th frame on: that frame's position, then the
      rest when the frame did not reach progress 1. */
  lemma WritesFrom(start: real, distance: real, startTime: real, duration: real, c: Curve,
                   frames: seq<real>, i: nat)
    requires duration > 0.0 && i < |frames|
    ensures var p := Progress(startTime, duration, frames[i]);
      Writes(start, distance, startTime, duration, c, frames[i..])
        == [PositionAt(start, distance, Apply(c, p))]
           + (if p < 1.0 then Writes(start, distance, startTime, duration, c, frames[i + 1..]) else [])
  {
    assert frames[i..][0] == frames[i];
    assert frames[i..][1..] == frames[i + 1..];
  }

  lemma Regroup<T>(a: seq<T>, x: T, b: seq<T>)
    ensures a + [x] + b == a + ([x] + b)
  {
  }

  /** Once the frames run out or no frame is requested, `writes` is the
      whole scroll. */
  lemma ResumesDone(start: real, distance: real, startTime: real, duration: real, c: Curve,
                    frames: seq<real>, writes: seq<real>, i: nat, requested: bool)
    requires duration > 0.0 && i <= |frames|
    requires Resumes(start, distance, startTime, duration, c, frames, writes, i, requested)
    requires i == |frames| || !requested
    ensures writes == Writes(start, distance, startTime, duration, c, frames)
  {
    if requested {
      assert frames[i..] == [];
    }
  }

  /* ---------------------------------------------------------------
   * What the written positions are
   * ------------------------------------------------------------- */

  /** At most one position per delivered frame, and at least one when a
      frame is delivered; every frame but the last written one has progress
      below 1, and when frames are left over, the last written one reached
      progress 1. */
  lemma {:induction false} WritesShape(start: real, distance: real, startTime: real, duration: real,
                                       c: Curve, frames: seq<real>)
    requires duration > 0.0
    ensures var w := Writes(start, distance, startTime, duration, c, frames);
      && |w| <= |frames| && (frames != [] ==> |w| >= 1)
      && (forall k :: 0 <= k < |w| - 1 ==> Progress(startTime, duration, frames[k]) < 1.0)
      && (0 < |w| < |frames| ==> Progress(startTime, duration, frames[|w| - 1]) == 1.0)
  {
    if frames != [] {
      var p := Progress(startTime, duration, frames[0]);
      WritesFrom(start, distance, startTime, duration, c, frames, 0);
      assert frames[0..] == frames;
      if p < 1.0 {
        WritesShape(start, distance, startTime, duration, c, frames[1..]);
        var rest := Writes(start, distance, startTime, duration, c, frames[1..]);
        var w := Writes(start, distance, startTime, duration, c, frames);
        assert |w| == 1 + |rest|;
        forall k | 0 < k < |w| - 1
          ensures Progress(startTime, duration, frames[k]) < 1.0
        {
          assert frames[k] == frames[1..][k - 1];
        }
        if 0 < |w| < |frames| {
          assert frames[|w| - 1] == frames[1..][|rest| - 1];
        }
      }
    }
  }

  /** The `k`-th written position is the eased position of the `k`-th
      frame's progress. */
  lemma {:induction false} WriteAt(start: real, distance: real, startTime: real, duration: real,
                                   c: Curve, frames: seq<real>, k: nat)
    requires duration > 0.0
    requires k < |Writes(start, distance, startTime, duration, c, frames)|
    ensures k < |frames|
    ensures Writes(start, distance, startTime, duration, c, frames)[k]
      == PositionAt(start, distance, Apply(c, Progress(startTime, duration, frames[k])))
  {
    if k > 0 {
      WriteAt(start, distance, startTime, duration, c, frames[1..], k - 1);
    }
  }

  /** A frame that reaches progress 1 writes exactly the target position. */
  lemma FinalWriteIsTarget(start: real, target: real, c: Curve, p: real)
    requires p == 1.0
    ensures PositionAt(start, target - start, Apply(c, p)) == target
  {
    FixesEnds(c, p);
  }

  /** Once some frame arrives at or after the end of the duration, the
      scroll stops at the first such frame and its write is the target. */
  lemma LastWriteIsTarget(start: real, target: real, startTime: real, duration: real, c: Curve,
                          frames: seq<real>, i: nat)
    requires duration > 0.0
    requires i < |frames| && frames[i] - startTime >= duration
    ensures var w := Writes(start, target - start, startTime, duration, c, frames);
      && 0 < |w| <= i + 1
      && frames[|w| - 1] - startTime >= duration
      && w[|w| - 1] == target
  {
    var w := Writes(start, target - start, startTime, duration, c, frames);
    WritesShape(start, target - start, startTime, duration, c, frames);
    var n := |w|;
    assert Progress(startTime, duration, frames[i]) == 1.0;
    assert Progress(startTime, duration, frames[n - 1]) == 1.0;
    WriteAt(start, target - start, startTime, duration, c, frames, n - 1);
    FinalWriteIsTarget(start, target, c, Progress(startTime, duration, frames[n - 1]));
  }

  /** `start + distance * e` for `e` in the unit interval lies between the
      start and `start + distance`. */
  lemma Between(start: real, distance: real, e: real)
    requires 0.0 <= e <= 1.0
    ensures distance >= 0.0 ==> start <= PositionAt(start, distance, e) <= start + distance
    ensures distance < 0.0 ==> start + distance <= PositionAt(start, distance, e) <= start
  {
    Scaled(distance, 0.0, e);
    Scaled(distance, e, 1.0);
  }

  /** When no frame is delivered before the start time, every written
      position lies between the start and the target. */
  lemma WritesBetween(start: real, target: real, startTime: real, duration: real, c: Curve,
                      frames: seq<real>, k: nat)
    requires duration > 0.0
    requires forall i :: 0 <= i < |frames| ==> frames[i] >= startTime
    requires k < |Writes(start, target - start, startTime, duration, c, frames)|
    ensures var w := Writes(start, target - start, startTime, duration, c, frames);
      if start <= target then start <= w[k] <= target else target <= w[k] <= start
  {
    WriteAt(start, target - start, startTime, duration, c, frames, k);
    var p := Progress(startTime, duration, frames[k]);
    StaysInUnit(c, p);
    Between(start, target - start, Apply(c, p));
  }

  /** When frames arrive in time order, each written position is at least
      as far along as the one before it. */
  lemma WritesAdvance(start: real, target: real, startTime: real, duration: real, c: Curve,
                      frames: seq<real>, k: nat)
    requires duration > 0.0
    requires forall i, j :: 0 <= i <= j < |frames| ==> startTime <= frames[i] <= frames[j]
    requires k + 1 < |Writes(start, target - start, startTime, duration, c, frames)|
    ensures var w := Writes(start, target - start, startTime, duration, c, frames);
      if start <= target then w[k] <= w[k + 1] else w[k + 1] <= w[k]
  {
    WriteAt(start, target - start, startTime, duration, c, frames, k);
    WriteAt(start, target - start, startTime, duration, c, frames, k + 1);
    var p, q := Progress(startTime, duration, frames[k]), Progress(startTime, duration, frames[k + 1]);
    ProgressMonotone(startTime, duration, frames[k], frames[k + 1]);
    Monotone(c, p, q);
    Advances(start, target - start, Apply(c, p), Apply(c, q));
  }

  /** A larger eased value gives a position at least as far along. */
  lemma Advances(start: real, distance: real, a: real, b: real)
    requires a <= b
    ensures distance >= 0.0 ==> PositionAt(start, distance, a) <= PositionAt(start, distance, b)
    ensures distance < 0.0 ==> PositionAt(start, distance, b) <= PositionAt(start, distance, a)
  {
    Scaled(distance, a, b);
  }

  lemma ProgressMonotone(startTime: real, duration: real, s: real, t: real)
    requires duration > 0.0 && startTime <= s <= t
    ensures 0.0 <= Progress(startTime, duration, s) <= Progress(startTime, duration, t)
  {
    var qs, qt := (s - startTime) / duration, (t - startTime) / duration;
    assert qs * duration == s - startTime && qt * duration == t - startTime;
    if qt < qs {
      MulLess(qt, qs, duration);
    }
  }

  lemma Scaled(distance: real, a: real, b: real)
    requires a <= b
    ensures distance >= 0.0 ==> distance * a <= distance * b
    ensures distance < 0.0 ==> distance * b <= distance * a
  {
    if distance > 0.0 {
      MulLess(a, b, distance);
    } else if distance < 0.0 {
      MulLess(a, b, -distance);
    }
  }
}
