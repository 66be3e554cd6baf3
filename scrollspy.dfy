/**
 * `navmenuScrollspy` (js/main.js): on every scroll, the navigation links
 * are walked in document order. A link whose hash names an existing
 * section is tracked; when the reading position (200 pixels below the top
 * of the window) lies within the tracked section, every link loses
 * `active` and this one gains it, and otherwise this link loses `active`.
 * Links without a hash or a section are skipped. `querySelector` throws
 * on a hash that is not a valid selector (`#1-intro`); the exception ends
 * the pass there, and the links after it are not visited.
 *
 * The links' `active` classes are an array updated in place; the sections'
 * geometry is read in the same pass and given with the links.
 */
module Scrollspy {
  import opened Wrappers

  /** A section's `offsetTop` and `offsetHeight`. */
  datatype Section = Section(top: int, height: int)

  /** What `document.querySelector(hash)` does: find a section, find
      nothing, or throw because the hash is not a valid selector. */
  datatype Lookup = Found(section: Section) | Missing | Invalid

  /** A navigation link: its `hash` (empty when it has none) and what
      looking that hash up gives. */
  datatype Link = Link(hash: string, lookup: Lookup)

  /** How far below the top of the window the reading position is. */
  const ReadingOffset := 200

  predicate Tracked(link: Link)
  {
    link.hash != "" && link.lookup.Found?
  }

  /** Looking the link's hash up throws. */
  predicate Throws(link: Link)
  {
    link.hash != "" && link.lookup.Invalid?
  }

  /** The reading position lies in the section, both ends included. */
  predicate Contains(s: Section, position: int)
  {
    position >= s.top && position <= s.top + s.height
  }

  predicate Matches(link: Link, position: int)
  {
    Tracked(link) && Contains(link.lookup.section, position)
  }

  /** How many links a pass visits: all of them, or those before the first
      one whose lookup throws. */
  function Stop(links: seq<Link>): (n: nat)
    ensures n <= |links|
    ensures forall j :: 0 <= j < n ==> !Throws(links[j])
    ensures n < |links| ==> Throws(links[n])
  {
    if links == [] || Throws(links[0]) then 0 else 1 + Stop(links[1..])
  }

  /** The last of the first `n` links whose section holds the position. */
  function LastMatch(links: seq<Link>, position: int, n: nat): (r: Option<nat>)
    requires n <= |links|
    ensures r.Some? ==> r.value < n && Matches(links[r.value], position)
    ensures r.Some? ==> forall j :: r.value < j < n ==> !Matches(links[j], position)
    ensures r.None? ==> forall j :: 0 <= j < n ==> !Matches(links[j], position)
  {
    if n == 0 then None
    else if Matches(links[n - 1], position) then Some(n - 1)
    else LastMatch(links, position, n - 1)
  }

  /** The `active` classes once the first `n` links are visited, reading
      at `position`: when some of their sections holds it, only the last
      such link is active; otherwise those that are tracked are inactive
      and every other link keeps its class. */
  function Visited(links: seq<Link>, before: seq<bool>, position: int, n: nat): (after: seq<bool>)
    requires |before| == |links| && n <= |links|
    ensures |after| == |links|
  {
    match LastMatch(links, position, n)
    case Some(m) => seq(|links|, j => j == m)
    case None => seq(|links|, j requires 0 <= j < |links| => if j < n && Tracked(links[j]) then false else before[j])
  }

  /** The `active` classes after one pass with the window at `scrollY`. */
  function Spied(links: seq<Link>, before: seq<bool>, scrollY: int): (after: seq<bool>)
    requires |before| == |links|
    ensures |after| == |links|
  {
    Visited(links, before, scrollY + ReadingOffset, Stop(links))
  }

  /** One scrollspy pass over `links`, whose `active` classes are `active`;
      `threw` tells whether a lookup threw and ended the pass. */
  method NavmenuScrollspy(links: seq<Link>, active: array<bool>, scrollY: int) returns (threw: bool)
    requires active.Length == |links|
    modifies active
    ensures threw <==> Stop(links) < |links|
    ensures active[..] == Spied(links, old(active[..]), scrollY)
  {
    threw := false;
    var i := 0;
    assert active[..] == Visited(links, old(active[..]), scrollY + ReadingOffset, 0);
    while i < |links|
      invariant 0 <= i <= Stop(links)
      invariant active[..] == Visited(links, old(active[..]), scrollY + ReadingOffset, i)
    {
      threw := VisitLink(links, active, i, scrollY, old(active[..]));
      if threw {
        break;
      }
      i := i + 1;
    }
  }

  /** The pass's callback for the `i`th link: a link without a hash or a
      section is skipped, an invalid hash throws (`threw`) before anything
      changes, and a tracked link is made the only active one or made
      inactive. */
  method VisitLink(links: seq<Link>, active: array<bool>, i: nat, scrollY: int, ghost before: seq<bool>)
      returns (threw: bool)
    requires i < |links| && active.Length == |links| && |before| == |links|
    requires active[..] == Visited(links, before, scrollY + ReadingOffset, i)
    modifies active
    ensures threw <==> Throws(links[i])
    ensures threw ==> active[..] == old(active[..])
    ensures !threw ==> active[..] == Visited(links, before, scrollY + ReadingOffset, i + 1)
  {
    threw := false;
    var link := links[i];
    if link.hash != "" {
      match link.lookup
      case Invalid =>
        threw := true;
      case Missing =>
      case Found(section) =>
        var position := scrollY + ReadingOffset;
        if position >= section.top && position <= section.top + section.height {
          forall j | 0 <= j < active.Length {
            active[j] := false;
          }
          active[i] := true;
        } else {
          active[i] := false;
        }
    }
  }

  /* ---------------------------------------------------------------
   * What a pass leaves behind
   * ------------------------------------------------------------- */

  /** After a pass, a visited tracked link and any later tracked link are
      not both active. (Two links after one that threw keep whatever class
      they had.) */
  lemma AtMostOneActive(links: seq<Link>, before: seq<bool>, scrollY: int, j: nat, k: nat)
    requires |before| == |links| && j < k < |links| && j < Stop(links)
    requires Tracked(links[j]) && Tracked(links[k])
    ensures !(Spied(links, before, scrollY)[j] && Spied(links, before, scrollY)[k])
  {
    var after := Visited(links, before, scrollY + ReadingOffset, Stop(links));
    assert after[j] ==> after[k] ==> false;
  }

  /** A hash that is not a valid selector ends the pass before the links
      after it, so two of them that were active stay active. */
  lemma ThrowLeavesTwoActive()
    ensures var s := Section(0, 100);
      var links := [Link("#1-intro", Invalid), Link("#about", Found(s)), Link("#team", Found(s))];
      Stop(links) == 0 && Spied(links, [true, true, true], 0)[1] && Spied(links, [true, true, true], 0)[2]
  {
    var s := Section(0, 100);
    var links := [Link("#1-intro", Invalid), Link("#about", Found(s)), Link("#team", Found(s))];
    assert Throws(links[0]);
  }

  /** A visited tracked link is active after a pass exactly when its section
      holds the reading position and no later visited link's section does. */
  lemma ActiveIsLastMatch(links: seq<Link>, before: seq<bool>, scrollY: int, j: nat)
    requires |before| == |links| && j < Stop(links) && Tracked(links[j])
    ensures Spied(links, before, scrollY)[j] <==>
      Matches(links[j], scrollY + ReadingOffset)
      && forall k :: j < k < Stop(links) ==> !Matches(links[k], scrollY + ReadingOffset)
  {
    var r := LastMatch(links, scrollY + ReadingOffset, Stop(links));
    if r.Some? && r.value != j && Matches(links[j], scrollY + ReadingOffset) {
      assert j < r.value;
    }
  }

  /** When no visited section holds the reading position, a pass changes
      only visited tracked links, and only by making them inactive: links
      without a hash or a section, and every link from the one that threw
      on, keep their class. */
  lemma NoMatchKeepsUnvisited(links: seq<Link>, before: seq<bool>, scrollY: int, j: nat)
    requires |before| == |links| && j < |links|
    requires !Tracked(links[j]) || Stop(links) <= j
    requires forall k :: 0 <= k < Stop(links) ==> !Matches(links[k], scrollY + ReadingOffset)
    ensures Spied(links, before, scrollY)[j] == before[j]
  {
    if LastMatch(links, scrollY + ReadingOffset, Stop(links)).Some? {
      assert false;
    }
  }
}
