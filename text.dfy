/**
 * String helpers shared by the browser scripts and the PHP mail relay:
 * the whitespace sets that JavaScript's `trim`/`\s` and PHP's `trim` strip,
 * trimming by a character class, joining a list with a separator
 * (`Array.prototype.join`, PHP `implode`), substring search
 * (`String.prototype.includes`) and character counting.
 *
 * A `char` here stands for one UTF-16 code unit of the original strings.
 */
module Text {

  /** ECMAScript WhiteSpace and LineTerminator code points: the set that both
      `String.prototype.trim` and the regular-expression class `\s` use. */
  predicate IsJsSpace(c: char)
  {
    || c == '\t' || c == '\n' || c == '\U{B}' || c == '\U{C}' || c == '\r'
    || c == ' ' || c == '\U{A0}' || c == '\U{1680}'
    || ('\U{2000}' <= c <= '\U{200A}')
    || c == '\U{2028}' || c == '\U{2029}' || c == '\U{202F}' || c == '\U{205F}'
    || c == '\U{3000}' || c == '\U{FEFF}'
  }

  /** The characters PHP's `trim` strips by default: " \t\n\r\0\x0B". */
  predicate IsPhpSpace(c: char)
  {
    c == ' ' || c == '\t' || c == '\n' || c == '\r' || c == '\0' || c == '\U{B}'
  }

  /** Strips the leading characters that satisfy `strip`. */
  function TrimStart(s: string, strip: char -> bool): (r: string)
    ensures |r| <= |s| && r == s[|s| - |r|..]
    ensures forall k :: 0 <= k < |s| - |r| ==> strip(s[k])
    ensures r == [] || !strip(r[0])
    decreases |s|
  {
    if |s| > 0 && strip(s[0]) then TrimStart(s[1..], strip) else s
  }

  /** Strips the trailing characters that satisfy `strip`. */
  function TrimEnd(s: string, strip: char -> bool): (r: string)
    ensures |r| <= |s| && r == s[..|r|]
    ensures forall k :: |r| <= k < |s| ==> strip(s[k])
    ensures r == [] || !strip(r[|r| - 1])
    decreases |s|
  {
    if |s| > 0 && strip(s[|s| - 1]) then TrimEnd(s[..|s| - 1], strip) else s
  }

  /** `r` is `s[i..]` cut to `|r|` characters, and everything of `s` outside
      that window satisfies `strip`. */
  ghost predicate StrippedWindow(s: string, r: string, i: int, strip: char -> bool)
  {
    && 0 <= i <= |s| - |r| && r == s[i..i + |r|]
    && (forall k :: 0 <= k < i ==> strip(s[k]))
    && (forall k :: i + |r| <= k < |s| ==> strip(s[k]))
  }

  /** Strips both ends: the result is the infix of `s` that is left after
      removing the stripped characters at either end, and it neither starts
      nor ends with one. */
  function Trim(s: string, strip: char -> bool): (r: string)
    ensures |r| <= |s|
    ensures exists i :: StrippedWindow(s, r, i, strip)
    ensures r == [] || (!strip(r[0]) && !strip(r[|r| - 1]))
  {
    var t := TrimStart(s, strip);
    var r := TrimEnd(t, strip);
    TrimWindow(s, t, r, strip);
    r
  }

  lemma TrimWindow(s: string, t: string, r: string, strip: char -> bool)
    requires |t| <= |s| && t == s[|s| - |t|..]
    requires forall k :: 0 <= k < |s| - |t| ==> strip(s[k])
    requires |r| <= |t| && r == t[..|r|]
    requires forall k :: |r| <= k < |t| ==> strip(t[k])
    ensures StrippedWindow(s, r, |s| - |t|, strip)
  {
    var i := |s| - |t|;
    assert t == s[i..];
    assert r == t[..|r|];
    assert r == s[i..i + |r|];
    forall k | i + |r| <= k < |s| ensures strip(s[k]) {
      assert s[k] == t[k - i];
    }
  }

  /** JavaScript `String.prototype.trim`. */
  function JsTrim(s: string): string
  {
    Trim(s, IsJsSpace)
  }

  /** PHP `trim` with its default character list. */
  function PhpTrim(s: string): string
  {
    Trim(s, IsPhpSpace)
  }

  /** `Array.prototype.join(sep)` / PHP `implode(sep, xs)`. */
  function Join(sep: string, xs: seq<string>): string
  {
    if |xs| == 0 then ""
    else if |xs| == 1 then xs[0]
    else xs[0] + sep + Join(sep, xs[1..])
  }

  /** Joining leaves every item in place between separators: the first item
      is a prefix of the result, and a single item is the whole result. */
  lemma {:induction false} JoinStartsWithFirst(sep: string, xs: seq<string>)
    requires |xs| > 0
    ensures Join(sep, xs)[..|xs[0]|] == xs[0]
    ensures |xs| == 1 ==> Join(sep, xs) == xs[0]
    ensures |Join(sep, xs)| >= |xs[0]| + (|xs| - 1) * |sep|
  {
    if |xs| > 1 {
      JoinStartsWithFirst(sep, xs[1..]);
      assert (xs[0] + sep + Join(sep, xs[1..]))[..|xs[0]|] == xs[0];
    }
  }

  /** Joining one more item adds a separator and the item at the end: the
      result holds the items in order, one separator between each two. */
  lemma {:induction false} JoinAppend(sep: string, xs: seq<string>, y: string)
    requires |xs| > 0
    ensures Join(sep, xs + [y]) == Join(sep, xs) + sep + y
    decreases |xs|
  {
    if |xs| == 1 {
      assert (xs + [y])[1..] == [y];
    } else {
      assert (xs + [y])[1..] == xs[1..] + [y];
      JoinAppend(sep, xs[1..], y);
    }
  }

  predicate IsPrefix(p: string, s: string)
  {
    |p| <= |s| && s[..|p|] == p
  }

  /** `sub` occurs in `s` starting at index `i`. */
  predicate OccursAt(s: string, sub: string, i: int)
  {
    0 <= i <= |s| - |sub| && s[i..i + |sub|] == sub
  }

  /** `s.includes(sub)`: `sub` occurs in `s` at some position. */
  function Contains(s: string, sub: string): (b: bool)
    ensures b <==> exists i :: OccursAt(s, sub, i)
    decreases |s|
  {
    if IsPrefix(sub, s) then
      assert OccursAt(s, sub, 0);
      true
    else if |s| == 0 then
      assert forall i :: !OccursAt(s, sub, i);
      false
    else
      var rest := Contains(s[1..], sub);
      assert forall i :: OccursAt(s[1..], sub, i) <==> OccursAt(s, sub, i + 1);
      assert !OccursAt(s, sub, 0);
      assert (exists i :: OccursAt(s, sub, i)) ==> exists i :: OccursAt(s[1..], sub, i) by {
        forall i | OccursAt(s, sub, i) ensures OccursAt(s[1..], sub, i - 1) {
          assert i != 0;
          assert OccursAt(s, sub, (i - 1) + 1);
        }
      }
      rest
  }

  /** The number of occurrences of `c` in `s`. */
  function Count(s: string, c: char): (n: nat)
    ensures n <= |s|
    ensures n == 0 <==> c !in s
  {
    if |s| == 0 then 0
    else (if s[0] == c then 1 else 0) + Count(s[1..], c)
  }

  lemma {:induction false} CountConcat(s: string, t: string, c: char)
    ensures Count(s + t, c) == Count(s, c) + Count(t, c)
  {
    if |s| > 0 {
      assert (s + t)[1..] == s[1..] + t;
      CountConcat(s[1..], t, c);
    } else {
      assert s + t == t;
    }
  }
}
