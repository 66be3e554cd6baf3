/**
 * Small list updates around the page's widgets (js/main.js): the carousel
 * indicators generated from the carousel's items, the Isotope layout's
 * attribute defaults, and the portfolio filter list where exactly one item
 * carries `filter-active`.
 */
module Widgets {
  import opened Wrappers

  /* ---------------------------------------------------------------
   * Carousel indicators
   * ------------------------------------------------------------- */

  /** `<li data-bs-target="#id" data-bs-slide-to="k" [class="active"]>`. */
  datatype Indicator = Indicator(target: string, slideTo: nat, active: bool)

  /** Appends one indicator per carousel item to the indicators already in
      the list, the first item's marked active. */
  method GenerateIndicators(existing: seq<Indicator>, carouselId: string, itemCount: nat)
    returns (indicators: seq<Indicator>)
    ensures |indicators| == |existing| + itemCount
    ensures indicators[..|existing|] == existing
    ensures forall k :: |existing| <= k < |indicators| ==>
      indicators[k] == Indicator("#" + carouselId, k - |existing|, k == |existing|)
  {
    indicators := existing;
    var index := 0;
    while index < itemCount
      invariant 0 <= index <= itemCount
      invariant |indicators| == |existing| + index
      invariant indicators[..|existing|] == existing
      invariant forall k :: |existing| <= k < |indicators| ==>
        indicators[k] == Indicator("#" + carouselId, k - |existing|, k == |existing|)
    {
      if index == 0 {
        indicators := indicators + [Indicator("#" + carouselId, index, true)];
      } else {
        indicators := indicators + [Indicator("#" + carouselId, index, false)];
      }
      index := index + 1;
    }
  }

  /* ---------------------------------------------------------------
   * Isotope layout defaults
   * ------------------------------------------------------------- */

  datatype IsotopeOptions = IsotopeOptions(layout: string, filter: string, sort: string)

  /** `getAttribute(name) ?? default` for the three layout attributes: only
      a missing attribute falls back, an empty one is kept. */
  function IsotopeDefaults(layout: Option<string>, filter: Option<string>, sort: Option<string>)
    : (o: IsotopeOptions)
    ensures layout.Some? ==> o.layout == layout.value
    ensures layout.None? ==> o.layout == "masonry"
    ensures filter.Some? ==> o.filter == filter.value
    ensures filter.None? ==> o.filter == "*"
    ensures sort.Some? ==> o.sort == sort.value
    ensures sort.None? ==> o.sort == "original-order"
  {
    IsotopeOptions(layout.GetOr("masonry"), filter.GetOr("*"), sort.GetOr("original-order"))
  }

  /* ---------------------------------------------------------------
   * Filter click
   * ------------------------------------------------------------- */

  /** The first item carrying `filter-active`, as `querySelector` finds it. */
  function FirstActive(active: seq<bool>): (r: Option<nat>)
    ensures r.Some? ==> r.value < |active| && active[r.value]
    ensures r.Some? ==> forall j :: 0 <= j < r.value ==> !active[j]
    ensures r.None? ==> forall j :: 0 <= j < |active| ==> !active[j]
  {
    if active == [] then None
    else if active[0] then Some(0)
    else match FirstActive(active[1..])
      case Some(i) => Some(i + 1)
      case None => None
  }

  /** The `filter-active` classes after a click on item `clicked`, or `None`
      when no item was active and the lookup threw before changing
      anything. */
  function AfterClick(active: seq<bool>, clicked: nat): (r: Option<seq<bool>>)
    requires clicked < |active|
    ensures r.None? <==> true !in active
    ensures r.Some? ==> |r.value| == |active| && r.value[clicked]
  {
    match FirstActive(active)
    case None => None
    case Some(f) => Some(active[f := false][clicked := true])
  }

  /** The outcome of a click for the caller: whether it threw, and the
      filter passed to `arrange` when it did not. */
  datatype ClickOutcome = Threw | Arranged(filter: Option<string>)

  /** The click handler of filter item `clicked` in a list whose items'
      `filter-active` classes are `active` and whose `data-filter`
      attributes are `filters`. When no item is active the lookup throws
      and nothing changes; when the layout has not been built yet the call
      to `arrange` throws after the classes have changed. */
  method FilterClick(active: array<bool>, filters: seq<Option<string>>, clicked: nat,
                     layoutReady: bool)
    returns (outcome: ClickOutcome)
    requires active.Length == |filters| && clicked < active.Length
    modifies active
    ensures AfterClick(old(active[..]), clicked).None? ==> outcome == Threw && active[..] == old(active[..])
    ensures AfterClick(old(active[..]), clicked).Some? ==>
      active[..] == AfterClick(old(active[..]), clicked).value
      && outcome == (if layoutReady then Arranged(filters[clicked]) else Threw)
  {
    var current := FirstActive(active[..]);
    if current.None? {
      return Threw;
    }
    active[current.value] := false;
    active[clicked] := true;
    if !layoutReady {
      return Threw;
    }
    outcome := Arranged(filters[clicked]);
  }

  function CountTrue(s: seq<bool>): (n: nat)
    ensures n <= |s|
    ensures n == 0 <==> true !in s
  {
    if s == [] then 0 else (if s[0] then 1 else 0) + CountTrue(s[1..])
  }

  /** When exactly one item is active, `j` is it. */
  predicate OnlyActive(active: seq<bool>, j: nat)
  {
    j < |active| && forall i :: 0 <= i < |active| ==> (active[i] <==> i == j)
  }

  /** A click in a list with exactly one active item leaves exactly one,
      the clicked one. */
  lemma ClickMovesActive(active: seq<bool>, previous: nat, clicked: nat)
    requires OnlyActive(active, previous) && clicked < |active|
    ensures AfterClick(active, clicked).Some?
    ensures OnlyActive(AfterClick(active, clicked).value, clicked)
  {
    assert active[previous];
    var f := FirstActive(active);
    assert f.Some? && f.value == previous;
  }

  /** With two or more active items, only the first loses the class, so a
      click does not restore a single active item. */
  lemma ClickKeepsLaterActive(active: seq<bool>, clicked: nat, j: nat)
    requires clicked < |active| && j < |active| && active[j] && j != clicked
    requires exists i :: 0 <= i < j && active[i]
    ensures AfterClick(active, clicked).Some? && AfterClick(active, clicked).value[j]
  {
  }

  /** A list whose only active item is `j` holds exactly one active
      item. */
  lemma {:induction false} OnlyActiveCount(active: seq<bool>, j: nat)
    requires OnlyActive(active, j)
    ensures CountTrue(active) == 1
  {
    if j == 0 {
      assert true !in active[1..] by {
        forall i | 0 <= i < |active[1..]| ensures !active[1..][i] {
          assert active[1..][i] == active[i + 1];
        }
      }
    } else {
      assert OnlyActive(active[1..], j - 1) by {
        forall i | 0 <= i < |active[1..]| ensures active[1..][i] <==> i == j - 1 {
          assert active[1..][i] == active[i + 1];
        }
      }
      OnlyActiveCount(active[1..], j - 1);
    }
  }
}
