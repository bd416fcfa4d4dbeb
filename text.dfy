/**
 * The handful of JavaScript string operations the habit logic relies on:
 * `trim`, `toLowerCase`, decimal `toString`, `padStart`, `parseInt`, and the
 * code-unit order behind `<`, `>=` and the default `Array.prototype.sort`.
 */
module Text {
  import opened Optional

  // ---------------------------------------------------------------------------
  // trim
  // ---------------------------------------------------------------------------

  /** The code points JavaScript's `trim` removes: WhiteSpace and LineTerminator. */
  predicate IsSpace(c: char) {
    || c == ' ' || c == '\t' || c == '\n' || c == '\r' || c == '\U{B}' || c == '\U{C}'
    || c == '\U{A0}' || c == '\U{1680}' || ('\U{2000}' <= c <= '\U{200A}')
    || c == '\U{2028}' || c == '\U{2029}' || c == '\U{202F}' || c == '\U{205F}'
    || c == '\U{3000}' || c == '\U{FEFF}'
  }

  /** Every character of `s` is white space (the empty string too). */
  predicate IsBlank(s: string) {
    forall k :: 0 <= k < |s| ==> IsSpace(s[k])
  }

  /** `s` without its leading white space. */
  function TrimStart(s: string): (r: string)
    ensures |r| <= |s| && r == s[|s| - |r|..]
    ensures r != [] ==> !IsSpace(r[0])
    ensures forall k :: 0 <= k < |s| - |r| ==> IsSpace(s[k])
  {
    if s != [] && IsSpace(s[0]) then TrimStart(s[1..]) else s
  }

  /** `s` without its trailing white space. */
  function TrimEnd(s: string): (r: string)
    ensures |r| <= |s| && r == s[..|r|]
    ensures r != [] ==> !IsSpace(r[|r| - 1])
    ensures forall k :: |r| <= k < |s| ==> IsSpace(s[k])
  {
    if s != [] && IsSpace(s[|s| - 1]) then TrimEnd(s[..|s| - 1]) else s
  }

  /** JavaScript's `String.prototype.trim`. */
  function Trim(s: string): (r: string)
    ensures |r| <= |s|
    ensures r != [] ==> !IsSpace(r[0]) && !IsSpace(r[|r| - 1])
    ensures r == [] <==> IsBlank(s)
  {
    var t := TrimStart(s);
    var r := TrimEnd(t);
    TrimPieces(s, t, r);
    r
  }

  lemma TrimPieces(s: string, t: string, r: string)
    requires t == TrimStart(s) && r == TrimEnd(t)
    ensures r == s[|s| - |t|..|s| - |t| + |r|]
    ensures r == [] ==> IsBlank(s)
  {
    TrimSlice(s, t, r);
    if r == [] {
      TrimBlank(s, t);
    }
  }

  lemma TrimSlice(s: string, t: string, r: string)
    requires |t| <= |s| && t == s[|s| - |t|..]
    requires |r| <= |t| && r == t[..|r|]
    ensures r == s[|s| - |t|..|s| - |t| + |r|]
  {
  }

  lemma TrimBlank(s: string, t: string)
    requires t == TrimStart(s) && TrimEnd(t) == []
    ensures IsBlank(s)
  {
    BlankJoin(s, |s| - |t|);
  }

  /** Blanks up to `off` followed by a blank rest make a blank string. */
  lemma BlankJoin(s: string, off: int)
    requires 0 <= off <= |s|
    requires forall k :: 0 <= k < off ==> IsSpace(s[k])
    requires IsBlank(s[off..])
    ensures IsBlank(s)
  {
    forall k | off <= k < |s| ensures IsSpace(s[k]) {
      assert s[k] == s[off..][k - off];
    }
  }

  /** Trimming twice is trimming once. */
  lemma TrimIdempotent(s: string)
    ensures Trim(Trim(s)) == Trim(s)
  {
    var r := Trim(s);
    assert TrimStart(r) == r;
    assert TrimEnd(r) == r;
  }

  // ---------------------------------------------------------------------------
  // toLowerCase
  // ---------------------------------------------------------------------------

  function LowerChar(c: char): char {
    if 'A' <= c <= 'Z' then (c as int + 32) as char else c
  }

  /** `toLowerCase`, on the ASCII letters. */
  function ToLower(s: string): (r: string)
    ensures |r| == |s|
    ensures forall k :: 0 <= k < |s| ==> r[k] == LowerChar(s[k])
  {
    if s == [] then [] else [LowerChar(s[0])] + ToLower(s[1..])
  }

  /** `a.toLowerCase() === b.toLowerCase()`. */
  predicate SameIgnoringCase(a: string, b: string) {
    ToLower(a) == ToLower(b)
  }

  /** Lower-casing is idempotent, so names that differ only in case collide. */
  lemma ToLowerIdempotent(s: string)
    ensures ToLower(ToLower(s)) == ToLower(s)
  {
    assert forall k :: 0 <= k < |s| ==> LowerChar(LowerChar(s[k])) == LowerChar(s[k]);
  }

  // ---------------------------------------------------------------------------
  // Decimal digits, toString, padStart
  // ---------------------------------------------------------------------------

  predicate IsDigit(c: char) {
    '0' <= c <= '9'
  }

  predicate AllDigits(s: string) {
    forall k :: 0 <= k < |s| ==> IsDigit(s[k])
  }

  function Digit(k: int): (c: char)
    requires 0 <= k < 10
  {
    ('0' as int + k) as char
  }

  function DigitValue(c: char): int {
    if IsDigit(c) then c as int - '0' as int else 0
  }

  /** The number a string of decimal digits denotes, most significant first. */
  function ParseDigits(s: string): int {
    if s == [] then 0 else ParseDigits(s[..|s| - 1]) * 10 + DigitValue(s[|s| - 1])
  }

  /** `n.toString()` for a non-negative integer: no leading zero except for 0 itself. */
  function DecimalString(n: nat): (r: string)
    ensures r != [] && AllDigits(r)
    ensures (r[0] == '0') == (n == 0)
    ensures |r| == 1 <==> n < 10
  {
    if n < 10 then [Digit(n)] else DecimalString(n / 10) + [Digit(n % 10)]
  }

  /** Reading back a decimal rendering gives the number. */
  lemma {:induction false} DecimalStringRoundTrip(n: nat)
    ensures ParseDigits(DecimalString(n)) == n
  {
    if n >= 10 {
      DecimalStringRoundTrip(n / 10);
      var s := DecimalString(n);
      assert s[..|s| - 1] == DecimalString(n / 10);
    }
  }

  /** `i.toString()` for an integer. */
  function IntToString(i: int): string {
    if i < 0 then "-" + DecimalString(-i) else DecimalString(i)
  }

  /** `s.padStart(width, c)`. */
  function PadStart(s: string, width: nat, c: char): (r: string)
    ensures |s| >= width ==> r == s
    ensures |s| < width ==> |r| == width && r[width - |s|..] == s
    ensures forall k :: 0 <= k < |r| - |s| ==> r[k] == c
    decreases width - |s|
  {
    if |s| >= width then s else PadStart([c] + s, width, c)
  }

  function Pow10(n: nat): (p: nat)
    ensures p >= 1
  {
    if n == 0 then 1 else 10 * Pow10(n - 1)
  }

  /** The `n`-digit zero-padded rendering of `x` (its last `n` digits). */
  function DigitsOf(x: nat, n: nat): (r: string)
    ensures |r| == n && AllDigits(r)
  {
    if n == 0 then [] else DigitsOf(x / 10, n - 1) + [Digit(x % 10)]
  }

  /** `x.toString().padStart(2, '0')` is the two-digit rendering of `x` below 100. */
  lemma PadStartTwoDigits(x: nat)
    requires x < 100
    ensures PadStart(DecimalString(x), 2, '0') == DigitsOf(x, 2)
  {
    if x >= 10 {
      assert DecimalString(x) == DecimalString(x / 10) + [Digit(x % 10)];
      assert DecimalString(x / 10) == [Digit(x / 10)];
    }
  }

  /** Reading back an `n`-digit rendering gives the number when it fits. */
  lemma {:induction false} DigitsOfRoundTrip(x: nat, n: nat)
    requires x < Pow10(n)
    ensures ParseDigits(DigitsOf(x, n)) == x
  {
    if n > 0 {
      var q, r := x / 10, x % 10;
      assert x == 10 * q + r;
      assert Pow10(n) == 10 * Pow10(n - 1);
      assert q < Pow10(n - 1);
      DigitsOfRoundTrip(q, n - 1);
      var s := DigitsOf(x, n);
      assert s == DigitsOf(q, n - 1) + [Digit(r)];
      assert s[..|s| - 1] == DigitsOf(q, n - 1);
      assert DigitValue(s[|s| - 1]) == r;
    }
  }

  // ---------------------------------------------------------------------------
  // The order of JavaScript's string comparison
  // ---------------------------------------------------------------------------

  /** `a < b` on JavaScript strings: code-unit-wise lexicographic order. */
  predicate LexLess(a: string, b: string) {
    if a == [] then b != []
    else if b == [] then false
    else if a[0] != b[0] then a[0] < b[0]
    else LexLess(a[1..], b[1..])
  }

  /** Comparing two strings whose first parts have equal length compares the first parts, then the rest. */
  lemma {:induction false} LexLessConcat(a1: string, a2: string, b1: string, b2: string)
    requires |a1| == |b1|
    ensures LexLess(a1 + a2, b1 + b2) <==> LexLess(a1, b1) || (a1 == b1 && LexLess(a2, b2))
  {
    if a1 != [] {
      assert (a1 + a2)[0] == a1[0] && (b1 + b2)[0] == b1[0];
      assert (a1 + a2)[1..] == a1[1..] + a2 && (b1 + b2)[1..] == b1[1..] + b2;
      LexLessConcat(a1[1..], a2, b1[1..], b2);
      if a1[0] == b1[0] {
        assert a1 == b1 <==> a1[1..] == b1[1..] by {
          if a1[1..] == b1[1..] { assert a1 == [a1[0]] + a1[1..]; assert b1 == [b1[0]] + b1[1..]; }
        }
      }
    } else {
      assert a1 + a2 == a2 && b1 + b2 == b2;
    }
  }

  /**
   * Joining equal-length first parts and any second parts with the same
   * one-character separator compares and equates the first parts, then the
   * second parts.
   */
  lemma SeparatedOrder(p: string, q: string, r: string, t: string, sep: string)
    requires |p| == |r| && |sep| == 1
    ensures LexLess(p + sep + q, r + sep + t) <==> LexLess(p, r) || (p == r && LexLess(q, t))
    ensures p + sep + q == r + sep + t <==> p == r && q == t
  {
    assert p + sep + q == p + (sep + q) && r + sep + t == r + (sep + t);
    LexLessConcat(p, sep + q, r, sep + t);
    LexLessConcat(sep, q, sep, t);
    assert !LexLess(sep, sep) by {
      assert sep[1..] == [];
    }
    if p + sep + q == r + sep + t {
      var u := p + sep + q;
      assert p == u[..|p|] && r == u[..|p|];
      assert q == u[|p| + 1..] && t == u[|p| + 1..];
    }
  }

  /** Fixed-width digit renderings compare as strings exactly as the numbers compare. */
  lemma {:induction false} DigitsOfOrder(x: nat, y: nat, n: nat)
    requires x < Pow10(n) && y < Pow10(n)
    ensures LexLess(DigitsOf(x, n), DigitsOf(y, n)) <==> x < y
    ensures DigitsOf(x, n) == DigitsOf(y, n) <==> x == y
  {
    if n > 0 {
      var a, b := DigitsOf(x / 10, n - 1), DigitsOf(y / 10, n - 1);
      var dx, dy := Digit(x % 10), Digit(y % 10);
      DigitsOfOrder(x / 10, y / 10, n - 1);
      LexLessConcat(a, [dx], b, [dy]);
      assert LexLess([dx], [dy]) <==> x % 10 < y % 10 by {
        assert [dx][1..] == [] && [dy][1..] == [];
      }
      assert a + [dx] == b + [dy] <==> a == b && dx == dy by {
        if a + [dx] == b + [dy] {
          assert a == (a + [dx])[..|a|] && b == (b + [dy])[..|b|];
          assert dx == (a + [dx])[|a|];
        }
      }
    }
  }

  // ---------------------------------------------------------------------------
  // parseInt
  // ---------------------------------------------------------------------------

  predicate IsHexDigit(c: char) {
    IsDigit(c) || 'a' <= c <= 'f' || 'A' <= c <= 'F'
  }

  function HexDigitValue(c: char): int {
    if IsDigit(c) then c as int - '0' as int
    else if 'a' <= c <= 'f' then c as int - 'a' as int + 10
    else if 'A' <= c <= 'F' then c as int - 'A' as int + 10
    else 0
  }

  function ParseHexDigits(s: string): int {
    if s == [] then 0 else ParseHexDigits(s[..|s| - 1]) * 16 + HexDigitValue(s[|s| - 1])
  }

  /** The longest prefix of `s` whose characters satisfy `ok`. */
  function LongestPrefix(s: string, ok: char -> bool): (r: string)
    ensures |r| <= |s| && r == s[..|r|]
    ensures forall k :: 0 <= k < |r| ==> ok(r[k])
    ensures |r| < |s| ==> !ok(s[|r|])
  {
    if s == [] || !ok(s[0]) then [] else [s[0]] + LongestPrefix(s[1..], ok)
  }

  /**
   * JavaScript's `parseInt(s)` without a radix, `None` standing for NaN:
   * leading white space is skipped, one sign is allowed, a `0x`/`0X` prefix
   * selects base 16, and the longest run of digits that follows is read.
   */
  function ParseInt(s: string): Option<int> {
    ParseSigned(TrimStart(s))
  }

  /** `parseInt` after the leading white space: an optional sign, then the magnitude. */
  function ParseSigned(t: string): Option<int> {
    if t != [] && t[0] == '-' then Negated(ParseMagnitude(t[1..]))
    else if t != [] && t[0] == '+' then ParseMagnitude(t[1..])
    else ParseMagnitude(t)
  }

  /** The value of a leading minus sign; NaN stays NaN. */
  function Negated(m: Option<int>): Option<int> {
    match m
    case Some(v) => Some(-v)
    case None => None
  }

  /** The unsigned part of `parseInt`: hexadecimal after `0x`/`0X`, decimal otherwise. */
  function ParseMagnitude(u: string): Option<int> {
    if |u| >= 2 && u[0] == '0' && (u[1] == 'x' || u[1] == 'X') then
      var h := LongestPrefix(u[2..], IsHexDigit);
      if h == [] then None else Some(ParseHexDigits(h))
    else
      var d := LongestPrefix(u, IsDigit);
      if d == [] then None else Some(ParseDigits(d))
  }

  /** `parseInt` reads back what `toString` wrote, after any leading white space. */
  lemma ParseIntDecimal(pad: string, n: nat)
    requires IsBlank(pad)
    ensures ParseInt(pad + DecimalString(n)) == Some(n)
  {
    MagnitudeOfDecimal(n);
    UnsignedAfterBlanks(pad, DecimalString(n));
  }

  /** After blanks, a digit starts the magnitude, with no sign. */
  lemma UnsignedAfterBlanks(pad: string, d: string)
    requires IsBlank(pad) && d != [] && IsDigit(d[0])
    ensures ParseInt(pad + d) == ParseMagnitude(d)
  {
    assert !IsSpace(d[0]);
    BlankPrefixTrimmed(pad, d);
  }

  /** `parseInt` reads a leading minus sign. */
  lemma ParseIntNegative(pad: string, n: nat)
    requires IsBlank(pad)
    ensures ParseInt(pad + ("-" + DecimalString(n))) == Some(-(n as int))
  {
    MagnitudeOfDecimal(n);
    NegativeAfterBlanks(pad, DecimalString(n));
  }

  /** Without leading blanks, a digit starts the magnitude, with no sign. */
  lemma UnsignedDigits(d: string)
    requires d != [] && IsDigit(d[0])
    ensures ParseInt(d) == ParseMagnitude(d)
  {
    assert !IsSpace(d[0]);
    assert TrimStart(d) == d;
  }

  /** After blanks, a minus sign negates the magnitude that follows it. */
  lemma NegativeAfterBlanks(pad: string, d: string)
    requires IsBlank(pad)
    ensures ParseInt(pad + ("-" + d)) == Negated(ParseMagnitude(d))
  {
    MinusFirst(d);
    BlankPrefixTrimmed(pad, "-" + d);
  }

  lemma MinusFirst(d: string)
    ensures ("-" + d) != [] && !IsSpace(("-" + d)[0])
    ensures ParseSigned("-" + d) == Negated(ParseMagnitude(d))
  {
    assert ("-" + d)[1..] == d;
  }

  lemma MagnitudeOfDecimal(n: nat)
    ensures ParseMagnitude(DecimalString(n)) == Some(n)
  {
    var d := DecimalString(n);
    assert !(|d| >= 2 && d[0] == '0');
    DigitPrefixWhole(d);
    DecimalStringRoundTrip(n);
  }

  lemma {:induction false} BlankPrefixTrimmed(pad: string, s: string)
    requires IsBlank(pad) && (s == [] || !IsSpace(s[0]))
    ensures TrimStart(pad + s) == s
  {
    if pad != [] {
      assert (pad + s)[1..] == pad[1..] + s;
      BlankPrefixTrimmed(pad[1..], s);
    }
  }

  lemma {:induction false} DigitPrefixWhole(d: string)
    requires AllDigits(d)
    ensures LongestPrefix(d, IsDigit) == d
  {
    if d != [] {
      DigitPrefixWhole(d[1..]);
    }
  }
}
