/**
 * The pieces of JavaScript's string semantics that the modelled code relies on:
 * the whitespace class shared by `String.prototype.trim` and the regular
 * expression class `\s`, lower-casing, `includes`, and the rendering and
 * parsing of non-negative integers in a radix.
 */
module JsText {
  import opened Wrappers

  /** WhiteSpace or LineTerminator in the ECMAScript grammar (the `\s` class). */
  predicate IsJsWhitespace(c: char) {
    || c == '\t' || c == '\n' || c == '\U{000B}' || c == '\U{000C}' || c == '\r' || c == ' '
    || c == '\U{00A0}' || c == '\U{1680}' || ('\U{2000}' <= c <= '\U{200A}')
    || c == '\U{2028}' || c == '\U{2029}' || c == '\U{202F}' || c == '\U{205F}'
    || c == '\U{3000}' || c == '\U{FEFF}'
  }

  predicate AllWhitespace(s: string) {
    forall i | 0 <= i < |s| :: IsJsWhitespace(s[i])
  }

  /** The length of the leading run of whitespace. */
  function LeadingSpace(s: string): (k: nat)
    ensures k <= |s| && AllWhitespace(s[..k])
    ensures k < |s| ==> !IsJsWhitespace(s[k])
  {
    if |s| > 0 && IsJsWhitespace(s[0]) then
      var k := 1 + LeadingSpace(s[1..]);
      assert s[..k] == [s[0]] + s[1..][..k - 1];
      k
    else 0
  }

  /** Where the trailing run of whitespace starts. */
  function TrailingSpace(s: string): (k: nat)
    ensures k <= |s| && AllWhitespace(s[k..])
    ensures 0 < k ==> !IsJsWhitespace(s[k - 1])
  {
    if |s| > 0 && IsJsWhitespace(s[|s| - 1]) then
      var k := TrailingSpace(s[..|s| - 1]);
      assert s[k..] == s[..|s| - 1][k..] + [s[|s| - 1]];
      k
    else |s|
  }

  /** `s.trim()`: drops leading and trailing whitespace. */
  function Trim(s: string): string {
    var m := s[LeadingSpace(s)..];
    m[..TrailingSpace(m)]
  }

  /** `Trim(s) == t` exactly when `s` is `t` padded with whitespace on both sides. */
  lemma TrimIsPadding(s: string, t: string)
    requires |t| > 0 && !IsJsWhitespace(t[0]) && !IsJsWhitespace(t[|t| - 1])
    ensures Trim(s) == t <==>
      exists a, b | AllWhitespace(a) && AllWhitespace(b) :: s == a + t + b
  {
    if Trim(s) == t {
      TrimmedIsCore(s, t);
    }
    if exists a, b | AllWhitespace(a) && AllWhitespace(b) :: s == a + t + b {
      var a, b :| AllWhitespace(a) && AllWhitespace(b) && s == a + t + b;
      PaddedTrims(a, t, b);
    }
  }

  lemma TrimmedIsCore(s: string, t: string)
    requires Trim(s) == t
    ensures exists a, b | AllWhitespace(a) && AllWhitespace(b) :: s == a + t + b
  {
    var i := LeadingSpace(s);
    var m := s[i..];
    var j := TrailingSpace(m);
    var a, b := s[..i], m[j..];
    assert AllWhitespace(a) && AllWhitespace(b);
    SplitsAt(s, i, j);
  }

  lemma SplitsAt(s: string, i: nat, j: nat)
    requires i <= |s| && j <= |s| - i
    ensures s == s[..i] + s[i..][..j] + s[i..][j..]
  {
    assert s[i..] == s[i..][..j] + s[i..][j..];
  }

  lemma PaddedTrims(a: string, t: string, b: string)
    requires |t| > 0 && !IsJsWhitespace(t[0]) && !IsJsWhitespace(t[|t| - 1])
    requires AllWhitespace(a) && AllWhitespace(b)
    ensures Trim(a + t + b) == t
  {
    var s := a + t + b;
    assert s == a + (t + b);
    LeadingSpaceOfPadded(a, t + b);
    assert s[|a|..] == t + b;
    TrailingSpaceOfPadded(t, b);
  }

  lemma {:induction false} LeadingSpaceOfPadded(a: string, u: string)
    requires AllWhitespace(a) && |u| > 0 && !IsJsWhitespace(u[0])
    ensures LeadingSpace(a + u) == |a|
  {
    if |a| > 0 {
      assert (a + u)[1..] == a[1..] + u;
      LeadingSpaceOfPadded(a[1..], u);
    }
  }

  lemma {:induction false} TrailingSpaceOfPadded(u: string, b: string)
    requires AllWhitespace(b) && |u| > 0 && !IsJsWhitespace(u[|u| - 1])
    ensures TrailingSpace(u + b) == |u|
  {
    if |b| > 0 {
      assert (u + b)[..|u + b| - 1] == u + b[..|b| - 1];
      TrailingSpaceOfPadded(u, b[..|b| - 1]);
    }
  }

  /** ASCII case folding; every other character is left as it is. */
  function LowerChar(c: char): char {
    if 'A' <= c <= 'Z' then (c as int - 'A' as int + 'a' as int) as char else c
  }

  function Lower(s: string): (r: string)
    ensures |r| == |s|
    ensures forall i | 0 <= i < |s| :: r[i] == LowerChar(s[i])
  {
    seq(|s|, i requires 0 <= i < |s| => LowerChar(s[i]))
  }

  /** `s.includes(sub)`. */
  predicate Contains(s: string, sub: string) {
    exists i | 0 <= i <= |s| - |sub| :: OccursAt(s, sub, i)
  }

  predicate OccursAt(s: string, sub: string, i: nat) {
    i + |sub| <= |s| && s[i..i + |sub|] == sub
  }

  /** The value of a digit in radix 16 (`0-9`, `a-f`, `A-F`), if it is one. */
  function HexDigitValue(c: char): (v: Option<nat>)
    ensures v.Some? ==> v.value < 16
  {
    if '0' <= c <= '9' then Some(c as int - '0' as int)
    else if 'a' <= c <= 'f' then Some(c as int - 'a' as int + 10)
    else if 'A' <= c <= 'F' then Some(c as int - 'A' as int + 10)
    else None
  }

  predicate IsDigit(c: char, radix: nat) {
    HexDigitValue(c).Some? && HexDigitValue(c).value < radix
  }

  predicate AllDigits(s: string, radix: nat) {
    forall i | 0 <= i < |s| :: IsDigit(s[i], radix)
  }

  /** The lower-case digit character for `d`. */
  function DigitChar(d: nat): (c: char)
    requires d < 16
    ensures HexDigitValue(c) == Some(d)
  {
    if d < 10 then ('0' as int + d) as char else ('a' as int + d - 10) as char
  }

  /** The digits of `n` in `radix`, most significant first, without leading zeros. */
  function ToDigits(n: nat, radix: nat): (s: string)
    requires 2 <= radix <= 16
    ensures |s| > 0 && AllDigits(s, radix)
    decreases n
  {
    if n < radix then [DigitChar(n)]
    else
      DivFacts(n, radix);
      ToDigits(n / radix, radix) + [DigitChar(n % radix)]
  }

  lemma DivFacts(n: nat, radix: nat)
    requires 2 <= radix <= n
    ensures n == (n / radix) * radix + n % radix && n % radix < radix && 1 <= n / radix < n
  {
    var q, r := n / radix, n % radix;
    assert n == q * radix + r && 0 <= r < radix;
    var extra: nat := radix - 2;
    assert q * radix == q * 2 + q * extra;
    assert q * extra >= 0;
  }

  /** The value of a string of digits in `radix`. */
  function FromDigits(s: string, radix: nat): nat
    requires AllDigits(s, radix)
  {
    if |s| == 0 then 0
    else FromDigits(s[..|s| - 1], radix) * radix + HexDigitValue(s[|s| - 1]).value
  }

  lemma {:induction false} FromToDigits(n: nat, radix: nat)
    requires 2 <= radix <= 16
    ensures FromDigits(ToDigits(n, radix), radix) == n
    decreases n
  {
    if n >= radix {
      DivFacts(n, radix);
      var s := ToDigits(n, radix);
      assert s[..|s| - 1] == ToDigits(n / radix, radix);
      FromToDigits(n / radix, radix);
    }
  }

  /** `String(n)` for a non-negative integer. */
  function DecimalString(n: nat): string {
    ToDigits(n, 10)
  }

  /** Distinct numbers render to distinct decimal strings. */
  lemma DecimalStringInjective(m: nat, n: nat)
    ensures DecimalString(m) == DecimalString(n) <==> m == n
  {
    FromToDigits(m, 10);
    FromToDigits(n, 10);
  }
}
