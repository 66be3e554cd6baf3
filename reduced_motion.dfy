/**
 * `AnimationManager.applyReducedMotionAlternatives` (js/animations.js): when
 * the visitor prefers reduced motion, smooth scrolling is turned off, the
 * parallax layers and floating elements are stilled, the first scroll
 * progress bar is hidden, and every focusable element gets the
 * accessibility focus style.
 *
 * The page's elements are an array of records updated in place; which
 * selectors an element matches is fixed.
 */
module ReducedMotion {

  /** Which of the selectors the element matches. */
  datatype Kind = Kind(
    parallaxLayer: bool,    // .parallax-layer, -background, -midground, -foreground
    floating: bool,         // .floating-element, [class*="floating-element-delay"]
    scrollProgress: bool,   // .scroll-progress
    focusable: bool)        // a, button, input, select, textarea, [tabindex]

  /** The inline styles and the class this code writes. */
  datatype Style = Style(transform: string, transition: string, animation: string,
                         display: string, accessibilityFocus: bool)

  datatype Element = Element(kind: Kind, style: Style)

  const NoneValue := "none"
  const AutoBehavior := "auto"

  /** Stilling a parallax layer: no transform and no transition. */
  function StillLayer(e: Element): Element
  {
    if e.kind.parallaxLayer then e.(style := e.style.(transform := NoneValue, transition := NoneValue)) else e
  }

  function StillFloating(e: Element): Element
  {
    if e.kind.floating then e.(style := e.style.(animation := NoneValue)) else e
  }

  function Hide(e: Element): Element
  {
    e.(style := e.style.(display := NoneValue))
  }

  function MarkFocus(e: Element): Element
  {
    if e.kind.focusable then e.(style := e.style.(accessibilityFocus := true)) else e
  }

  /** The first element that is a scroll progress bar, as
      `document.querySelector` finds it; `|elements|` when there is none. */
  function FirstProgress(elements: seq<Element>): (r: nat)
    ensures r <= |elements|
    ensures r < |elements| ==> elements[r].kind.scrollProgress
    ensures forall j :: 0 <= j < r ==> !elements[j].kind.scrollProgress
  {
    if elements == [] || elements[0].kind.scrollProgress then 0
    else 1 + FirstProgress(elements[1..])
  }

  /** An element after the parallax and floating passes. */
  function Still(e: Element): Element
  {
    StillFloating(StillLayer(e))
  }

  /** Each element after the four passes. */
  function Reduce(elements: seq<Element>, j: nat): Element
    requires j < |elements|
  {
    var e := Still(elements[j]);
    MarkFocus(if j == FirstProgress(elements) then Hide(e) else e)
  }

  /** The page's elements after `applyReducedMotionAlternatives`. */
  function Reduced(elements: seq<Element>): (r: seq<Element>)
    ensures |r| == |elements|
    ensures forall j :: 0 <= j < |r| ==> r[j].kind == elements[j].kind
  {
    seq(|elements|, j requires 0 <= j < |elements| => Reduce(elements, j))
  }

  class Document {
    /** `document.documentElement.style.scrollBehavior`. */
    var scrollBehavior: string

    constructor(scrollBehavior: string)
      ensures this.scrollBehavior == scrollBehavior
    {
      this.scrollBehavior := scrollBehavior;
    }
  }

  method ApplyReducedMotion(doc: Document, elements: array<Element>)
    modifies doc, elements
    ensures doc.scrollBehavior == AutoBehavior
    ensures elements[..] == Reduced(old(elements[..]))
  {
    ghost var original := elements[..];
    doc.scrollBehavior := AutoBehavior;
    StillParallaxLayers(elements);
    StillFloatingElements(elements);
    HideFirstProgress(elements);
    ghost var hidden := elements[..];
    MarkFocusable(elements);
    ReducedByPasses(original, hidden, elements[..]);
  }

  /** `querySelectorAll('.parallax-layer, ...').forEach(...)`. */
  method StillParallaxLayers(elements: array<Element>)
    modifies elements
    ensures forall j :: 0 <= j < elements.Length ==> elements[j] == StillLayer(old(elements[j]))
  {
    var i := 0;
    while i < elements.Length
      invariant 0 <= i <= elements.Length
      invariant forall j :: 0 <= j < elements.Length ==>
        elements[j] == if j < i then StillLayer(old(elements[j])) else old(elements[j])
    {
      if elements[i].kind.parallaxLayer {
        elements[i] := StillLayer(elements[i]);
      }
      i := i + 1;
    }
  }

  method StillFloatingElements(elements: array<Element>)
    modifies elements
    ensures forall j :: 0 <= j < elements.Length ==> elements[j] == StillFloating(old(elements[j]))
  {
    var i := 0;
    while i < elements.Length
      invariant 0 <= i <= elements.Length
      invariant forall j :: 0 <= j < elements.Length ==>
        elements[j] == if j < i then StillFloating(old(elements[j])) else old(elements[j])
    {
      if elements[i].kind.floating {
        elements[i] := StillFloating(elements[i]);
      }
      i := i + 1;
    }
  }

  /** `querySelector('.scroll-progress')` finds the first progress bar, if
      any, and hides it. */
  method HideFirstProgress(elements: array<Element>)
    modifies elements
    ensures forall j :: 0 <= j < elements.Length ==>
      elements[j] == if j == FirstProgress(old(elements[..])) then Hide(old(elements[j])) else old(elements[j])
  {
    ghost var original := elements[..];
    var i := 0;
    while i < elements.Length && !elements[i].kind.scrollProgress
      invariant 0 <= i <= elements.Length
      invariant forall j :: 0 <= j < i ==> !original[j].kind.scrollProgress
    {
      i := i + 1;
    }
    FirstProgressIs(original, i);
    if i < elements.Length {
      elements[i] := Hide(elements[i]);
    }
  }

  method MarkFocusable(elements: array<Element>)
    modifies elements
    ensures forall j :: 0 <= j < elements.Length ==> elements[j] == MarkFocus(old(elements[j]))
  {
    var k := 0;
    while k < elements.Length
      invariant 0 <= k <= elements.Length
      invariant forall j :: 0 <= j < elements.Length ==>
        elements[j] == if j < k then MarkFocus(old(elements[j])) else old(elements[j])
    {
      if elements[k].kind.focusable {
        elements[k] := MarkFocus(elements[k]);
      }
      k := k + 1;
    }
  }

  /** The fourth pass over the elements the third one left gives the
      reduced page. */
  lemma ReducedByPasses(original: seq<Element>, hidden: seq<Element>, final: seq<Element>)
    requires |hidden| == |original| == |final|
    requires forall j :: 0 <= j < |hidden| ==>
      hidden[j] == if j == FirstProgress(original) then Hide(Still(original[j])) else Still(original[j])
    requires forall j :: 0 <= j < |final| ==> final[j] == MarkFocus(hidden[j])
    ensures final == Reduced(original)
  {
  }

  lemma {:induction false} FirstProgressIs(elements: seq<Element>, i: nat)
    requires i <= |elements| && forall j :: 0 <= j < i ==> !elements[j].kind.scrollProgress
    requires i < |elements| ==> elements[i].kind.scrollProgress
    ensures FirstProgress(elements) == i
  {
    if i > 0 {
      FirstProgressIs(elements[1..], i - 1);
    }
  }

  /** Applying the alternatives a second time changes nothing. */
  lemma ReducedIdempotent(elements: seq<Element>)
    ensures Reduced(Reduced(elements)) == Reduced(elements)
  {
    var r := Reduced(elements);
    FirstProgressSameKinds(elements, r);
    assert forall j :: 0 <= j < |r| ==> Reduce(r, j) == r[j];
  }

  /** `FirstProgress` only looks at the kinds. */
  lemma {:induction false} FirstProgressSameKinds(a: seq<Element>, b: seq<Element>)
    requires |a| == |b| && forall j :: 0 <= j < |a| ==> a[j].kind == b[j].kind
    ensures FirstProgress(a) == FirstProgress(b)
  {
    if a != [] {
      FirstProgressSameKinds(a[1..], b[1..]);
    }
  }

  /** Only the first scroll progress bar is hidden: a later one keeps its
      display. */
  lemma OnlyFirstProgressHidden(elements: seq<Element>, j: nat)
    requires j < |elements| && elements[j].kind.scrollProgress
    requires exists i :: 0 <= i < j && elements[i].kind.scrollProgress
    ensures Reduced(elements)[j].style.display == elements[j].style.display
  {
  }

  /** Every focusable element carries the focus style afterwards, and every
      parallax layer has neither transform nor transition. */
  lemma Stilled(elements: seq<Element>, j: nat)
    requires j < |elements|
    ensures elements[j].kind.focusable ==> Reduced(elements)[j].style.accessibilityFocus
    ensures elements[j].kind.parallaxLayer ==>
      Reduced(elements)[j].style.transform == NoneValue && Reduced(elements)[j].style.transition == NoneValue
    ensures elements[j].kind.floating ==> Reduced(elements)[j].style.animation == NoneValue
  {
  }
}
