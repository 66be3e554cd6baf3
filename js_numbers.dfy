/**
 * The two JavaScript number conversions the animation delays go through:
 * `parseInt(string)` with no radix (section 19.2.5 of ECMA-262), and the
 * conversion of a timer delay to a WebIDL `long` (ECMA-262 `ToInt32`)
 * followed by the HTML timer rule that a negative delay is zero.
 *
 * Numbers are mathematical integers: `parseInt` of a digit string longer
 * than a double's precision is exact here, and `NaN` is `None`.
 */
module JsNumbers {
  import opened Wrappers
  import opened Text

  /** The value of `c` as a digit in base `radix` (10 or 16), if it is one. */
  function DigitValue(c: char, radix: nat): (r: Option<nat>)
    requires radix == 10 || radix == 16
    ensures r.Some? ==> r.value < radix
    ensures radix == 10 ==> (r.Some? <==> '0' <= c <= '9')
  {
    if '0' <= c <= '9' then Some(c as int - '0' as int)
    else if radix == 16 && 'a' <= c <= 'f' then Some(c as int - 'a' as int + 10)
    else if radix == 16 && 'A' <= c <= 'F' then Some(c as int - 'A' as int + 10)
    else None
  }

  /** The length of the longest prefix of `s` made of digits in base
      `radix`. */
  function DigitRun(s: string, radix: nat): (n: nat)
    requires radix == 10 || radix == 16
    ensures n <= |s|
    ensures forall k :: 0 <= k < n ==> DigitValue(s[k], radix).Some?
    ensures n < |s| ==> DigitValue(s[n], radix).None?
  {
    if s != [] && DigitValue(s[0], radix).Some? then 1 + DigitRun(s[1..], radix) else 0
  }

  /** The number that the digit string `s` writes in base `radix`. */
  function DigitsValue(s: string, radix: nat): nat
    requires radix == 10 || radix == 16
    requires forall k :: 0 <= k < |s| ==> DigitValue(s[k], radix).Some?
  {
    if s == [] then 0
    else DigitsValue(s[..|s| - 1], radix) * radix + DigitValue(s[|s| - 1], radix).value
  }

  /** The digits after an optional `0x`/`0X` prefix: the base and where the
      digits start. */
  function Radix(s: string): (r: (nat, nat))
    ensures r.1 <= |s| && (r.0 == 10 || r.0 == 16)
    ensures r.0 == 16 <==> |s| >= 2 && s[0] == '0' && (s[1] == 'x' || s[1] == 'X')
    ensures r.1 == (if r.0 == 16 then 2 else 0)
  {
    if |s| >= 2 && s[0] == '0' && (s[1] == 'x' || s[1] == 'X') then (16, 2) else (10, 0)
  }

  /** The unsigned part of `parseInt`: a `0x`/`0X` prefix switches to base
      16, and the longest run of digits that follows is the value; with no
      digit the result is `NaN`. */
  function ParseDigits(u: string): (r: Option<nat>)
  {
    var (radix, start) := Radix(u);
    var digits := u[start..];
    var n := DigitRun(digits, radix);
    if n == 0 then None else Some(DigitsValue(digits[..n], radix))
  }

  /** `parseInt(s)`: leading whitespace is skipped and an optional sign
      read before the digits. The result is `NaN` exactly when the first
      character after the whitespace, the sign and a `0x` prefix is missing
      or not a digit of the base. */
  function ParseInt(s: string): (r: Option<int>)
    ensures var u := Unsigned(TrimStart(s, IsJsSpace));
      var (radix, start) := Radix(u);
      r.None? <==> start == |u| || DigitValue(u[start], radix).None?
  {
    var t := TrimStart(s, IsJsSpace);
    match ParseDigits(Unsigned(t))
    case None => None
    case Some(v) => Some(if t != [] && t[0] == '-' then -(v as int) else v)
  }

  /** `t` without a leading sign. */
  function Unsigned(t: string): (u: string)
    ensures |u| <= |t|
    ensures t != [] && (t[0] == '-' || t[0] == '+') ==> u == t[1..]
    ensures !(t != [] && (t[0] == '-' || t[0] == '+')) ==> u == t
  {
    if t != [] && (t[0] == '-' || t[0] == '+') then t[1..] else t
  }

  /** The decimal rendering of `n`, as `String(n)` writes a non-negative
      integer. */
  function Decimal(n: nat): (s: string)
    ensures s != [] && forall k :: 0 <= k < |s| ==> '0' <= s[k] <= '9'
    ensures s[0] == '0' ==> n == 0 && |s| == 1
  {
    if n < 10 then ['0' + n as char] else Decimal(n / 10) + ['0' + (n % 10) as char]
  }

  /** Reading back a decimal rendering gives the number: `parseInt` inverts
      `String` on non-negative integers. */
  lemma ParseDecimal(n: nat)
    ensures ParseInt(Decimal(n)) == Some(n)
  {
    var s := Decimal(n);
    assert TrimStart(s, IsJsSpace) == s by {
      assert !IsJsSpace(s[0]);
    }
    assert Unsigned(s) == s;
    ParseDigitsDecimal(n);
  }

  lemma ParseDigitsDecimal(n: nat)
    ensures ParseDigits(Decimal(n)) == Some(n)
  {
    var s := Decimal(n);
    assert Radix(s) == (10, 0);
    assert s[0..] == s;
    DigitRunAll(s);
    assert s[..|s|] == s;
    DecimalValue(n);
  }

  /** A string of decimal digits is one run of digits. */
  lemma {:induction false} DigitRunAll(s: string)
    requires forall k :: 0 <= k < |s| ==> '0' <= s[k] <= '9'
    ensures DigitRun(s, 10) == |s|
  {
    if s != [] {
      DigitRunAll(s[1..]);
    }
  }

  lemma {:induction false} DecimalValue(n: nat)
    ensures DigitsValue(Decimal(n), 10) == n
  {
    if n >= 10 {
      var s := Decimal(n);
      assert s[..|s| - 1] == Decimal(n / 10);
      DecimalValue(n / 10);
    }
  }

  /** `parseInt` of a decimal number written after whitespace and an
      optional sign, and followed by anything that does not continue it:
      the whitespace is skipped, the sign applied, and only the leading run
      of digits counts. */
  lemma ParseSignedDecimal(w: string, sign: string, n: nat, rest: string)
    requires forall k :: 0 <= k < |w| ==> IsJsSpace(w[k])
    requires sign == "" || sign == "+" || sign == "-"
    requires rest == [] || !('0' <= rest[0] <= '9')
    requires n == 0 && rest != [] ==> rest[0] != 'x' && rest[0] != 'X'
    ensures ParseInt(w + (sign + Decimal(n) + rest)) == Some(if sign == "-" then -(n as int) else n as int)
  {
    SignedStart(sign, n, rest);
    TrimStartSkips(w, sign + Decimal(n) + rest, IsJsSpace);
    ParseDigitsPrefix(n, rest);
    ParseIntOf(w + (sign + Decimal(n) + rest), sign + Decimal(n) + rest, n, sign == "-");
  }

  /** `parseInt` once the whitespace is skipped and the digits are read. */
  lemma ParseIntOf(s: string, t: string, n: nat, negative: bool)
    requires TrimStart(s, IsJsSpace) == t && t != []
    requires ParseDigits(Unsigned(t)) == Some(n)
    requires t[0] == '-' <==> negative
    ensures ParseInt(s) == Some(if negative then -(n as int) else n as int)
  {
  }

  /** After a sign, or none, comes the digit text itself. */
  lemma SignedStart(sign: string, n: nat, rest: string)
    requires sign == "" || sign == "+" || sign == "-"
    ensures var t := sign + Decimal(n) + rest;
      t != [] && !IsJsSpace(t[0]) && Unsigned(t) == Decimal(n) + rest
      && (t[0] == '-' <==> sign == "-")
  {
    var u := Decimal(n) + rest;
    assert u[0] == Decimal(n)[0];
    if sign == "" {
      assert sign + Decimal(n) + rest == u;
      UnsignedDigits(u);
    } else {
      assert sign + Decimal(n) + rest == [sign[0]] + u;
      UnsignedSigned(sign[0], u);
    }
  }

  /** A text that starts with a digit has no sign to drop. */
  lemma UnsignedDigits(u: string)
    requires u != [] && '0' <= u[0] <= '9'
    ensures !IsJsSpace(u[0]) && u[0] != '-' && Unsigned(u) == u
  {
    SignOrDigitIsNotSpace(u[0]);
  }

  /** A leading sign is dropped. */
  lemma UnsignedSigned(c: char, u: string)
    requires c == '-' || c == '+'
    ensures !IsJsSpace(c) && Unsigned([c] + u) == u
  {
    assert ([c] + u)[1..] == u;
    SignOrDigitIsNotSpace(c);
  }

  lemma SignOrDigitIsNotSpace(c: char)
    requires c == '-' || c == '+' || '0' <= c <= '9'
    ensures !IsJsSpace(c)
  {
  }

  /** Stripping skips exactly the given run of stripped characters when the
      text after it does not start with one. */
  lemma {:induction false} TrimStartSkips(w: string, t: string, strip: char -> bool)
    requires forall k :: 0 <= k < |w| ==> strip(w[k])
    requires t == [] || !strip(t[0])
    ensures TrimStart(w + t, strip) == t
    decreases |w|
  {
    if w == [] {
      assert w + t == t;
    } else {
      assert (w + t)[1..] == w[1..] + t;
      TrimStartSkips(w[1..], t, strip);
    }
  }

  /** The digits of `Decimal(n)` followed by a non-digit that does not make
      a `0x` prefix parse as `n`. */
  lemma ParseDigitsPrefix(n: nat, rest: string)
    requires rest == [] || !('0' <= rest[0] <= '9')
    requires n == 0 && rest != [] ==> rest[0] != 'x' && rest[0] != 'X'
    ensures ParseDigits(Decimal(n) + rest) == Some(n)
  {
    var d := Decimal(n);
    var s := d + rest;
    if |s| >= 2 && s[0] == '0' {
      assert n == 0 && |d| == 1;
      assert s[1] == rest[0];
    }
    assert Radix(s) == (10, 0);
    assert s[0..] == s;
    DigitRunAll(d);
    DigitRunStops(d, rest);
    assert s[..|d|] == d;
    DecimalValue(n);
  }

  /** A run of decimal digits ends where a non-digit follows. */
  lemma {:induction false} DigitRunStops(d: string, rest: string)
    requires forall k :: 0 <= k < |d| ==> '0' <= d[k] <= '9'
    requires rest == [] || !('0' <= rest[0] <= '9')
    ensures DigitRun(d + rest, 10) == |d|
    decreases |d|
  {
    if d == [] {
      assert d + rest == rest;
    } else {
      assert (d + rest)[1..] == d[1..] + rest;
      DigitRunStops(d[1..], rest);
    }
  }

  const TwoTo31 := 0x8000_0000
  const TwoTo32 := 0x1_0000_0000

  /** `ToInt32`: the 32-bit two's-complement integer equal to `x` modulo
      2^32. */
  function ToInt32(x: int): (r: int)
    ensures -TwoTo31 <= r < TwoTo31
    ensures (x - r) % TwoTo32 == 0
    ensures -TwoTo31 <= x < TwoTo31 ==> r == x
  {
    var m := x % TwoTo32;
    if m >= TwoTo31 then m - TwoTo32 else m
  }

  /** The delay a timer waits for the argument `parsed` (`None` for `NaN`):
      converted to a 32-bit integer, and zero when that is negative. */
  function TimerDelay(parsed: Option<int>): (d: nat)
    ensures d < TwoTo31
    ensures parsed.Some? && 0 <= parsed.value < TwoTo31 ==> d == parsed.value
    ensures parsed.None? || (-TwoTo31 <= parsed.value < 0) ==> d == 0
  {
    match parsed
    case None => 0
    case Some(v) => var w := ToInt32(v); if w < 0 then 0 else w
  }

  /** A delay of 2^31 milliseconds or more wraps around: 2^32 + 5 waits 5
      milliseconds, and 2^31 does not wait at all. */
  lemma TimerDelayWraps()
    ensures TimerDelay(Some(TwoTo32 + 5)) == 5
    ensures TimerDelay(Some(TwoTo31)) == 0
  {
  }
}
