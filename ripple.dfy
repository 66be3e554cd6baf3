/**
 * `AnimationManager.createRippleEffect` (js/animations.js): a click on a
 * button adds a circular `ripple` span as big as the button's larger side,
 * after removing the ripple a previous click left, if any.
 *
 * The button's children are a sequence updated in place; a ripple is only
 * ever added as a direct child, so the first ripple in the button is its
 * first ripple child.
 */
module Ripple {

  /** A child of the button: a ripple of the given diameter, or anything
      else the button holds (its label, an icon). */
  datatype Child = RippleSpan(diameter: int) | Other(id: nat)

  function Max(a: int, b: int): (m: int)
    ensures m >= a && m >= b && (m == a || m == b)
  {
    if a >= b then a else b
  }

  function RippleCount(children: seq<Child>): (n: nat)
    ensures n <= |children|
  {
    if children == [] then 0
    else (if children[0].RippleSpan? then 1 else 0) + RippleCount(children[1..])
  }

  /** The children that are not ripples, in order. */
  function Others(children: seq<Child>): (r: seq<Child>)
    ensures forall c :: c in r ==> c.Other?
  {
    if children == [] then []
    else (if children[0].Other? then [children[0]] else []) + Others(children[1..])
  }

  /** The index of the first ripple child, as `getElementsByClassName(...)[0]`
      finds it. */
  function FirstRipple(children: seq<Child>): (r: nat)
    ensures r <= |children|
    ensures r < |children| ==> children[r].RippleSpan?
    ensures forall j :: 0 <= j < r ==> children[j].Other?
  {
    if children == [] || children[0].RippleSpan? then 0 else 1 + FirstRipple(children[1..])
  }

  /** The children after a click: the first ripple, if any, removed and the
      new ripple appended. */
  function AfterClick(children: seq<Child>, diameter: int): (r: seq<Child>)
    ensures r != [] && r[|r| - 1] == RippleSpan(diameter)
  {
    var i := FirstRipple(children);
    (if i < |children| then children[..i] + children[i + 1..] else children) + [RippleSpan(diameter)]
  }

  class Button {
    const clientWidth: int
    const clientHeight: int
    var children: seq<Child>

    constructor(clientWidth: int, clientHeight: int, children: seq<Child>)
      ensures this.clientWidth == clientWidth && this.clientHeight == clientHeight
      ensures this.children == children
    {
      this.clientWidth, this.clientHeight, this.children := clientWidth, clientHeight, children;
    }

    /** `createRippleEffect` for a click on this button. */
    method CreateRipple()
      modifies this
      ensures children == AfterClick(old(children), Max(clientWidth, clientHeight))
    {
      var diameter := Max(clientWidth, clientHeight);
      var circle := RippleSpan(diameter);
      var i := 0;
      while i < |children| && !children[i].RippleSpan?
        invariant 0 <= i <= |children|
        invariant forall j :: 0 <= j < i ==> children[j].Other?
      {
        i := i + 1;
      }
      FirstRippleIs(children, i);
      if i < |children| {
        children := children[..i] + children[i + 1..];
      }
      children := children + [circle];
    }
  }

  /** `FirstRipple` is the first index holding a ripple. */
  lemma {:induction false} FirstRippleIs(children: seq<Child>, i: nat)
    requires i <= |children| && forall j :: 0 <= j < i ==> children[j].Other?
    requires i < |children| ==> children[i].RippleSpan?
    ensures FirstRipple(children) == i
  {
    if i > 0 {
      FirstRippleIs(children[1..], i - 1);
    }
  }

  lemma {:induction false} CountConcat(a: seq<Child>, b: seq<Child>)
    ensures RippleCount(a + b) == RippleCount(a) + RippleCount(b)
    ensures Others(a + b) == Others(a) + Others(b)
  {
    if a == [] {
      assert a + b == b;
    } else {
      assert (a + b)[1..] == a[1..] + b;
      CountConcat(a[1..], b);
    }
  }

  /** Removing a ripple takes one ripple away and keeps every other child
      in order. */
  lemma RemoveRipple(children: seq<Child>, i: nat)
    requires i < |children| && children[i].RippleSpan?
    ensures RippleCount(children[..i] + children[i + 1..]) == RippleCount(children) - 1
    ensures Others(children[..i] + children[i + 1..]) == Others(children)
  {
    var a, b := children[..i], children[i + 1..];
    assert children == a + [children[i]] + b;
    SplitAround(a, children[i], b);
  }

  /** Counting across a single child between two runs of children. */
  lemma SplitAround(a: seq<Child>, x: Child, b: seq<Child>)
    requires x.RippleSpan?
    ensures RippleCount(a + [x] + b) == RippleCount(a + b) + 1
    ensures Others(a + [x] + b) == Others(a + b)
  {
    CountConcat(a + [x], b);
    CountConcat(a, [x]);
    CountConcat(a, b);
    assert RippleCount([x]) == 1 && Others([x]) == [] by {
      assert [x][1..] == [];
    }
  }

  /** A click keeps the button's number of ripples, or raises it to one
      when it had none; the new ripple is the last child and the other
      children are kept in order. So a button that holds at most one ripple
      holds exactly one after a click, the new one. */
  lemma RipplesAfterClick(children: seq<Child>, diameter: int)
    ensures var r := AfterClick(children, diameter);
      && RippleCount(r) == Max(RippleCount(children), 1)
      && r[|r| - 1] == RippleSpan(diameter)
      && Others(r) == Others(children)
  {
    var i := FirstRipple(children);
    var kept := if i < |children| then children[..i] + children[i + 1..] else children;
    if i < |children| {
      RemoveRipple(children, i);
    } else {
      NoRippleFound(children);
    }
    CountConcat(kept, [RippleSpan(diameter)]);
    assert RippleCount([RippleSpan(diameter)]) == 1 && Others([RippleSpan(diameter)]) == [] by {
      assert [RippleSpan(diameter)][1..] == [];
    }
  }

  /** With no ripple found, there is no ripple at all. */
  lemma {:induction false} NoRippleFound(children: seq<Child>)
    requires FirstRipple(children) == |children|
    ensures RippleCount(children) == 0
  {
    if children != [] {
      NoRippleFound(children[1..]);
    }
  }
}
