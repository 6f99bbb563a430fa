/** String primitives the application relies on: white-space trimming in the
    two languages it is written in, prefix slicing, prefix tests and the
    decimal rendering of integers. */
module Text {

  /** Python's `str.strip()` and JavaScript's `trim()` (and the regular
      expression class `\s`) disagree on a few code points, so every trim
      says whose notion of white space it uses. */
  datatype Dialect = Python | JavaScript

  /** White space as Python's `str.isspace` sees it (adds the separators
      U+001C..U+001F and U+0085) or as ECMAScript's WhiteSpace and
      LineTerminator productions see it (adds U+FEFF). */
  predicate IsSpace(c: char, d: Dialect) {
    || c == ' ' || c == '\t' || c == '\n' || c == '\r' || c == '\U{000B}' || c == '\U{000C}'
    || c == '\U{00A0}' || c == '\U{1680}' || ('\U{2000}' <= c <= '\U{200A}')
    || c == '\U{2028}' || c == '\U{2029}' || c == '\U{202F}' || c == '\U{205F}' || c == '\U{3000}'
    || (match d
        case Python => ('\U{001C}' <= c <= '\U{001F}') || c == '\U{0085}'
        case JavaScript => c == '\U{FEFF}')
  }

  /** Empty or made of white space only: what `not s.strip()` and
      `!s.trim()` test. */
  predicate IsBlank(s: string, d: Dialect) {
    forall i :: 0 <= i < |s| ==> IsSpace(s[i], d)
  }

  /** Drops leading white space; what is dropped is blank and what is left
      does not start with white space. */
  function TrimStart(s: string, d: Dialect): (r: string)
    ensures |r| <= |s| && r == s[|s| - |r|..]
    ensures IsBlank(s[..|s| - |r|], d)
    ensures r == [] || !IsSpace(r[0], d)
  {
    if s != [] && IsSpace(s[0], d) then
      var r := TrimStart(s[1..], d);
      assert s[..|s| - |r|] == [s[0]] + s[1..][..|s| - 1 - |r|];
      BlankConcat([s[0]], s[1..][..|s| - 1 - |r|], d);
      r
    else s
  }

  /** Drops trailing white space; what is dropped is blank and what is left
      does not end with white space. */
  function TrimEnd(s: string, d: Dialect): (r: string)
    ensures |r| <= |s| && r == s[..|r|]
    ensures IsBlank(s[|r|..], d)
    ensures r == [] || !IsSpace(r[|r| - 1], d)
  {
    if s != [] && IsSpace(s[|s| - 1], d) then
      var r := TrimEnd(s[..|s| - 1], d);
      assert s[|r|..] == s[..|s| - 1][|r|..] + [s[|s| - 1]];
      BlankConcat(s[..|s| - 1][|r|..], [s[|s| - 1]], d);
      r
    else s
  }

  /** `s.strip()` in Python, `s.trim()` in JavaScript. */
  function Strip(s: string, d: Dialect): (r: string)
    ensures |r| <= |s|
    ensures r == [] || (!IsSpace(r[0], d) && !IsSpace(r[|r| - 1], d))
  {
    TrimEnd(TrimStart(s, d), d)
  }

  /** Stripping yields the empty string exactly for blank input. */
  lemma StripEmptyIffBlank(s: string, d: Dialect)
    ensures Strip(s, d) == [] <==> IsBlank(s, d)
  {
    var t := TrimStart(s, d);
    var i := |s| - |t|;
    if IsBlank(s, d) {
      BlankTrimsAway(s, d);
    }
    if Strip(s, d) == [] {
      assert s == s[..i] + t && t[0..] == t;
      BlankConcat(s[..i], t, d);
    }
  }

  /** A blank string trims to nothing. */
  lemma {:induction false} BlankTrimsAway(s: string, d: Dialect)
    requires IsBlank(s, d)
    ensures TrimStart(s, d) == []
    decreases |s|
  {
    if s != [] {
      assert IsSpace(s[0], d);
      assert IsBlank(s[1..], d) by {
        forall k | 0 <= k < |s| - 1 ensures IsSpace(s[1..][k], d) {
          assert s[1..][k] == s[k + 1];
        }
      }
      BlankTrimsAway(s[1..], d);
    }
  }

  lemma BlankConcat(a: string, b: string, d: Dialect)
    requires IsBlank(a, d) && IsBlank(b, d)
    ensures IsBlank(a + b, d)
  {
    forall k | 0 <= k < |a + b| ensures IsSpace((a + b)[k], d) {
      if k < |a| { assert (a + b)[k] == a[k]; } else { assert (a + b)[k] == b[k - |a|]; }
    }
  }

  /** A string without white space at either end is its own strip. */
  lemma StripFixesTrimmed(s: string, d: Dialect)
    requires s == [] || (!IsSpace(s[0], d) && !IsSpace(s[|s| - 1], d))
    ensures Strip(s, d) == s
  {
  }

  /** Stripping twice is stripping once. */
  lemma StripIdempotent(s: string, d: Dialect)
    ensures Strip(Strip(s, d), d) == Strip(s, d)
  {
    StripFixesTrimmed(Strip(s, d), d);
  }

  /** The strip of `s` is the run of `s` that starts after its blank head
      of length `k`: nothing is added, reordered or dropped inside it. */
  lemma StripIsInfix(s: string, d: Dialect)
    ensures var r, k := Strip(s, d), |s| - |TrimStart(s, d)|;
            && 0 <= k <= k + |r| <= |s|
            && r == s[k..][..|r|]
            && IsBlank(s[..k], d)
  {
  }

  /** What follows the strip of `s` in `s` is blank. */
  lemma StripDropsBlankTail(s: string, d: Dialect)
    ensures var r, k := Strip(s, d), |s| - |TrimStart(s, d)|;
            k + |r| <= |s| && IsBlank(s[k + |r|..], d)
  {
    var t := TrimStart(s, d);
    var k := |s| - |t|;
    assert t[|Strip(s, d)|..] == s[k + |Strip(s, d)|..];
  }

  /** Python's `s[:n]` and JavaScript's `s.slice(0, n)` for `n >= 0`: the
      first `n` characters, or all of `s` when it is shorter. */
  function Take(s: string, n: nat): (r: string)
    ensures |r| == if |s| <= n then |s| else n
    ensures r == s[..|r|]
  {
    if |s| <= n then s else s[..n]
  }

  /** `s.startsWith(prefix)` in JavaScript. */
  predicate StartsWith(s: string, prefix: string) {
    |prefix| <= |s| && s[..|prefix|] == prefix
  }

  predicate IsDigit(c: char) {
    '0' <= c <= '9'
  }

  function DigitChar(n: nat): (c: char)
    requires n < 10
    ensures IsDigit(c)
  {
    ('0' as int + n) as char
  }

  function DigitValue(c: char): (n: nat)
    requires IsDigit(c)
    ensures n < 10 && DigitChar(n) == c
  {
    c as int - '0' as int
  }

  /** The decimal digits of a natural number, without leading zeros. */
  function NatToDecimal(n: nat): (r: string)
    ensures r != [] && forall i :: 0 <= i < |r| ==> IsDigit(r[i])
    ensures r[0] == '0' <==> n == 0
    decreases n
  {
    if n < 10 then [DigitChar(n)] else NatToDecimal(n / 10) + [DigitChar(n % 10)]
  }

  /** Python's `str(n)` for an `int`. */
  function IntToDecimal(n: int): (r: string)
    ensures r != []
    ensures forall i :: 0 <= i < |r| ==> IsDigit(r[i]) || (i == 0 && r[i] == '-')
    ensures r[0] == '-' <==> n < 0
    ensures n < 0 ==> |r| >= 2 && r[1] != '0'
  {
    if n < 0 then "-" + NatToDecimal(-n) else NatToDecimal(n)
  }

  /** The number a string of decimal digits denotes. */
  function DecimalValue(s: string): nat
    requires forall i :: 0 <= i < |s| ==> IsDigit(s[i])
  {
    if s == [] then 0 else 10 * DecimalValue(s[..|s| - 1]) + DigitValue(s[|s| - 1])
  }

  /** Reading back the rendered digits gives the number: the rendering loses
      nothing. */
  lemma {:induction false} DecimalRoundTrip(n: nat)
    ensures DecimalValue(NatToDecimal(n)) == n
    decreases n
  {
    var r := NatToDecimal(n);
    if n >= 10 {
      DecimalRoundTrip(n / 10);
      assert r[..|r| - 1] == NatToDecimal(n / 10);
    }
  }

  /** Python's `str` is injective on integers. */
  lemma IntToDecimalInjective(a: int, b: int)
    requires IntToDecimal(a) == IntToDecimal(b)
    ensures a == b
  {
    var ra, rb := IntToDecimal(a), IntToDecimal(b);
    assert ra[0] == '-' <==> a < 0;
    assert rb[0] == '-' <==> b < 0;
    if a < 0 {
      assert NatToDecimal(-a) == ra[1..] == rb[1..] == NatToDecimal(-b);
      DecimalRoundTrip(-a);
      DecimalRoundTrip(-b);
    } else {
      DecimalRoundTrip(a);
      DecimalRoundTrip(b);
    }
  }
}
