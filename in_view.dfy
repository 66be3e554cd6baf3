/**
 * Scroll-triggered animation marking in `AnimationManager`
 * (js/animations.js): an element watched by the intersection observer
 * gets `animate-in` and dispatches `animationStart` once the delay named by
 * its `data-animation-delay` has passed after each notification that it
 * is in view; a resize rebuilds the observer; the hero's elements are
 * marked one after the other, 150 milliseconds apart, after the page
 * loads.
 *
 * Timers are explicit: scheduling one appends its delay to the element's
 * pending timers, and the host firing one is a method call.
 */
module InView {
  import opened Wrappers
  import opened JsNumbers

  /** `element.dataset.animationDelay || '0'`. */
  function DelayText(attribute: Option<string>): (text: string)
    ensures text != ""
    ensures attribute.Some? && attribute.value != "" ==> text == attribute.value
    ensures !(attribute.Some? && attribute.value != "") ==> text == "0"
  {
    if attribute.Some? && attribute.value != "" then attribute.value else "0"
  }

  /** The delay the timer waits: `setTimeout(..., parseInt(text))`. */
  function Delay(attribute: Option<string>): nat
  {
    TimerDelay(ParseInt(DelayText(attribute)))
  }

  /** An element with no delay attribute, or an empty one, is marked with
      no delay. */
  lemma NoAttributeNoDelay(attribute: Option<string>)
    requires attribute.None? || attribute.value == ""
    ensures Delay(attribute) == 0
  {
    assert DelayText(attribute) == Decimal(0);
    ParseDecimal(0);
  }

  /** A delay written in decimal below 2^31 milliseconds is waited exactly. */
  lemma DecimalDelay(ms: nat)
    requires ms < TwoTo31
    ensures Delay(Some(Decimal(ms))) == ms
  {
    ParseDecimal(ms);
  }

  class AnimatedElement {
    /** `data-animation-delay`, if present. */
    const delayAttribute: Option<string>
    /** Whether the element carries `animate-in`. */
    var animateIn: bool
    /** How many `animationStart` events it has dispatched. */
    var dispatched: nat
    /** The delays of the timers scheduled and not yet fired. */
    var timers: seq<nat>

    constructor(delayAttribute: Option<string>, animateIn: bool)
      ensures this.delayAttribute == delayAttribute && this.animateIn == animateIn
      ensures dispatched == 0 && timers == []
    {
      this.delayAttribute := delayAttribute;
      this.animateIn := animateIn;
      dispatched := 0;
      timers := [];
    }

    /** The observer's callback for this element: an entry in view calls
        `handleElementInView`, which schedules one timer. */
    method OnEntry(isIntersecting: bool)
      modifies this
      ensures timers == old(timers) + if isIntersecting then [Delay(delayAttribute)] else []
      ensures animateIn == old(animateIn) && dispatched == old(dispatched)
    {
      if isIntersecting {
        timers := timers + [Delay(delayAttribute)];
      }
    }

    /** The host fires pending timer `i`: the element gains `animate-in`
        (adding a class it has is no change) and dispatches one more
        event. Nothing stops a second notification from doing it again. */
    method FireTimer(i: nat)
      requires i < |timers|
      modifies this
      ensures animateIn
      ensures dispatched == old(dispatched) + 1
      ensures timers == old(timers[..i] + timers[i + 1..])
    {
      timers := timers[..i] + timers[i + 1..];
      animateIn := true;
      dispatched := dispatched + 1;
    }
  }

  /** The observer and the elements it watches, by position in the page. */
  class Observer {
    var watching: seq<nat>

    constructor(watching: seq<nat>)
      ensures this.watching == watching
    {
      this.watching := watching;
    }

    /** `handleResize`: disconnects and observes every matching element
        again. It touches no element, so no element loses `animate-in`. */
    method Resize(matching: seq<nat>)
      modifies this
      ensures watching == matching
    {
      watching := [];
      watching := matching;
    }
  }

  /** The gap between two hero elements' timers. */
  const HeroStagger := 150

  /** `handlePageLoad`: the delays of the timers scheduled for the hero's
      `count` elements, in document order. */
  method ScheduleHero(count: nat) returns (delays: seq<nat>)
    ensures |delays| == count
    ensures forall i :: 0 <= i < count ==> delays[i] == i * HeroStagger
    ensures forall i, j :: 0 <= i < j < count ==> delays[i] + HeroStagger <= delays[j]
  {
    delays := [];
    var index := 0;
    while index < count
      invariant 0 <= index <= count && |delays| == index
      invariant forall i :: 0 <= i < index ==> delays[i] == i * HeroStagger
      invariant forall i, j :: 0 <= i < j < index ==> delays[i] + HeroStagger <= delays[j]
    {
      delays := delays + [index * HeroStagger];
      index := index + 1;
    }
  }
}
