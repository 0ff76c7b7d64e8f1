/**
 * Decimal text as the C library reads and writes it: the digits of a
 * number, printf's %u, %d and %02d, and strtol's scan of a base-10 long.
 */
module Decimal {
  predicate IsDigit(c: char)
  {
    '0' <= c <= '9'
  }

  predicate AllDigits(s: string)
  {
    forall i :: 0 <= i < |s| ==> IsDigit(s[i])
  }

  function DigitValue(c: char): (d: nat)
    requires IsDigit(c)
    ensures d < 10
  {
    c as int - '0' as int
  }

  function DigitChar(d: nat): (c: char)
    requires d < 10
    ensures IsDigit(c) && DigitValue(c) == d
  {
    ('0' as int + d) as char
  }

  /** The number a run of digits denotes (atoi on a string of digits only). */
  function ParseDecimal(s: string): nat
    requires AllDigits(s)
  {
    if |s| == 0 then 0 else ParseDecimal(s[..|s| - 1]) * 10 + DigitValue(s[|s| - 1])
  }

  /** printf's %u of a non-negative number: the shortest digit string, "0" for zero. */
  function NatToString(n: nat): (s: string)
    ensures |s| >= 1 && AllDigits(s)
    ensures s[0] == '0' <==> n == 0
  {
    if n < 10 then [DigitChar(n)] else NatToString(n / 10) + [DigitChar(n % 10)]
  }

  lemma {:induction false} ParseNatToString(n: nat)
    ensures ParseDecimal(NatToString(n)) == n
  {
    if n >= 10 {
      var s := NatToString(n);
      assert s[..|s| - 1] == NatToString(n / 10);
      ParseNatToString(n / 10);
    }
  }

  lemma NatToStringInjective(a: nat, b: nat)
    requires NatToString(a) == NatToString(b)
    ensures a == b
  {
    ParseNatToString(a);
    ParseNatToString(b);
  }

  /** printf's %02d of a non-negative number: at least two digits, zero-padded. */
  function Pad2(n: nat): (s: string)
    ensures |s| >= 2 && AllDigits(s)
  {
    if n < 10 then ['0', DigitChar(n)] else NatToString(n)
  }

  lemma ParsePad2(n: nat)
    ensures ParseDecimal(Pad2(n)) == n
  {
    if n < 10 {
      var s := Pad2(n);
      assert s[..1] == ['0'];
      assert ParseDecimal(['0']) == 0 by {
        assert ['0'][..0] == [];
      }
    } else {
      ParseNatToString(n);
    }
  }

  lemma Pad2Injective(a: nat, b: nat)
    requires Pad2(a) == Pad2(b)
    ensures a == b
  {
    ParsePad2(a);
    ParsePad2(b);
  }

  /** printf's %d. */
  function IntToString(i: int): (s: string)
    ensures |s| >= 1
  {
    if i < 0 then "-" + NatToString(-i) else NatToString(i)
  }

  /** Different numbers print differently with %d. */
  lemma IntToStringInjective(a: int, b: int)
    requires IntToString(a) == IntToString(b)
    ensures a == b
  {
    if a < 0 && b < 0 {
      assert IntToString(a)[1..] == NatToString(-a);
      assert IntToString(b)[1..] == NatToString(-b);
      NatToStringInjective(-a, -b);
    } else if a >= 0 && b >= 0 {
      NatToStringInjective(a, b);
    }
  }

  /** isspace in the C locale. */
  predicate IsSpace(c: char)
  {
    c == ' ' || c == '\t' || c == '\n' || c == '\r' || c == '\U{0B}' || c == '\U{0C}'
  }

  /** End of the run of digits from j. */
  function DigitsEnd(s: string, j: nat): (e: nat)
    requires j <= |s|
    ensures j <= e <= |s|
    decreases |s| - j
  {
    if j < |s| && IsDigit(s[j]) then DigitsEnd(s, j + 1) else j
  }

  /** DigitsEnd stops at the first non-digit, after nothing but digits. */
  lemma {:induction false} DigitsEndRun(s: string, j: nat)
    requires j <= |s|
    ensures AllDigits(s[j..DigitsEnd(s, j)])
    ensures DigitsEnd(s, j) == |s| || !IsDigit(s[DigitsEnd(s, j)])
    decreases |s| - j
  {
    if j < |s| && IsDigit(s[j]) {
      DigitsEndRun(s, j + 1);
      var e := DigitsEnd(s, j);
      assert s[j..e] == [s[j]] + s[j + 1..e];
    }
  }

  /** End of the run of white space from j. */
  function SpacesEnd(s: string, j: nat): (e: nat)
    requires j <= |s|
    ensures j <= e <= |s|
    decreases |s| - j
  {
    if j < |s| && IsSpace(s[j]) then SpacesEnd(s, j + 1) else j
  }

  const LONG_MAX: int := 0x7FFF_FFFF_FFFF_FFFF
  const LONG_MIN: int := -0x8000_0000_0000_0000

  /**
   * strtol(s + i, &end, 10): leading white space, an optional sign, then
   * digits. Without digits the value is 0 and end is i itself; a value out
   * of range is clamped to LONG_MIN or LONG_MAX.
   */
  function Strtol(s: string, i: nat): (r: (int, nat))
    requires i <= |s|
    ensures LONG_MIN <= r.0 <= LONG_MAX
    ensures r.1 == i || i < r.1 <= |s|
    ensures r.1 == i ==> r.0 == 0
  {
    var j := SpacesEnd(s, i);
    var k := if j < |s| && (s[j] == '+' || s[j] == '-') then j + 1 else j;
    var e := DigitsEnd(s, k);
    if e == k then (0, i)
    else
      var v := DigitsValue(s, k, e);
      (ClampLong(if k > j && s[j] == '-' then -v else v), e)
  }

  /** The number spelt by the characters of s from k up to e, each read as c - '0'. */
  function DigitsValue(s: string, k: nat, e: nat): int
    requires k <= e <= |s|
    decreases e - k
  {
    if e == k then 0 else DigitsValue(s, k, e - 1) * 10 + (s[e - 1] as int - '0' as int)
  }

  /** Over a run of digits, reading them one by one gives the number they spell. */
  lemma {:induction false} DigitsValueOfRun(s: string, k: nat, e: nat)
    requires k <= e <= |s| && AllDigits(s[k..e])
    ensures DigitsValue(s, k, e) == ParseDecimal(s[k..e])
    decreases e - k
  {
    if e > k {
      assert s[k..e - 1] == s[k..e][..e - k - 1];
      assert s[e - 1] == s[k..e][e - k - 1];
      DigitsValueOfRun(s, k, e - 1);
    }
  }

  /** strtol's answer to overflow: the nearest representable long. */
  function ClampLong(v: int): (r: int)
    ensures LONG_MIN <= r <= LONG_MAX
    ensures LONG_MIN <= v <= LONG_MAX ==> r == v
  {
    if v > LONG_MAX then LONG_MAX else if v < LONG_MIN then LONG_MIN else v
  }

  /** strtol at a run of digits from i to e: the number they spell, and e. */
  lemma StrtolAtDigits(s: string, i: nat, e: nat)
    requires i < e <= |s| && AllDigits(s[i..e])
    requires e == |s| || !IsDigit(s[e])
    ensures Strtol(s, i) == (ClampLong(ParseDecimal(s[i..e])), e)
  {
    assert IsDigit(s[i..e][0]);
    assert SpacesEnd(s, i) == i;
    DigitsRunOf(s, i, e);
    DigitsValueOfRun(s, i, e);
  }

  /** strtol at a '-' followed by a run of digits up to e: the negated number, and e. */
  lemma StrtolAtMinus(s: string, i: nat, e: nat)
    requires i + 1 < e <= |s| && s[i] == '-' && AllDigits(s[i + 1..e])
    requires e == |s| || !IsDigit(s[e])
    ensures Strtol(s, i) == (ClampLong(-(ParseDecimal(s[i + 1..e]) as int)), e)
  {
    assert SpacesEnd(s, i) == i;
    DigitsRunOf(s, i + 1, e);
    DigitsValueOfRun(s, i + 1, e);
  }

  lemma DigitsRunOf(s: string, i: nat, e: nat)
    requires i <= e <= |s| && AllDigits(s[i..e])
    requires e == |s| || !IsDigit(s[e])
    ensures DigitsEnd(s, i) == e
  {
    forall k | i <= k < e
      ensures IsDigit(s[k])
    {
      assert s[k] == s[i..e][k - i];
    }
    DigitsRun(s, i, e);
  }

  /**
   * strtol reads back what %u wrote: the number, and the index just past
   * its digits, provided no digit follows it.
   */
  lemma StrtolNatToString(p: string, n: nat, rest: string)
    requires n <= LONG_MAX
    requires rest == [] || !IsDigit(rest[0])
    ensures Strtol(p + NatToString(n) + rest, |p|) == (n, |p| + |NatToString(n)|)
  {
    var d := NatToString(n);
    ParseNatToString(n);
    StrtolOfDigits(p, d, rest);
    assert ParseDecimal(d) == n;
  }

  lemma StrtolOfDigits(p: string, d: string, rest: string)
    requires |d| >= 1 && AllDigits(d) && ParseDecimal(d) <= LONG_MAX
    requires rest == [] || !IsDigit(rest[0])
    ensures Strtol(p + d + rest, |p|) == (ParseDecimal(d), |p| + |d|)
  {
    var s := p + d + rest;
    DigitsInConcat(p, d, rest);
    StrtolAtDigits(s, |p|, |p| + |d|);
    assert ParseDecimal(s[|p|..|p| + |d|]) == ParseDecimal(d);
  }

  /** A run of digits d placed after p and before a non-digit is a maximal run of the whole. */
  lemma DigitsInConcat(p: string, d: string, rest: string)
    requires |d| >= 1 && AllDigits(d)
    requires rest == [] || !IsDigit(rest[0])
    ensures |p| < |p| + |d| <= |p + d + rest|
    ensures (p + d + rest)[|p|..|p| + |d|] == d
    ensures |p| + |d| == |p + d + rest| || !IsDigit((p + d + rest)[|p| + |d|])
  {
    if rest != [] {
      assert (p + d + rest)[|p| + |d|] == rest[0];
    }
  }

  /** A run of digits between j and e, ended by a non-digit or the end of s, is exactly what DigitsEnd finds. */
  lemma {:induction false} DigitsRun(s: string, j: nat, e: nat)
    requires j <= e <= |s|
    requires forall k :: j <= k < e ==> IsDigit(s[k])
    requires e == |s| || !IsDigit(s[e])
    ensures DigitsEnd(s, j) == e
    decreases e - j
  {
    if j < e {
      DigitsRun(s, j + 1, e);
    }
  }

  /** strtol reads back what %d wrote, over the whole text. */
  lemma StrtolIntToString(v: int)
    requires LONG_MIN <= v <= LONG_MAX
    ensures Strtol(IntToString(v), 0) == (v, |IntToString(v)|)
  {
    if v >= 0 {
      var d := NatToString(v);
      ParseNatToString(v);
      assert d[0..|d|] == d;
      StrtolAtDigits(d, 0, |d|);
      assert ParseDecimal(d[0..|d|]) == v;
    } else {
      var d := NatToString(-v);
      ParseNatToString(-v);
      StrtolOfMinusDigits(d);
      assert "-" + d == IntToString(v);
      assert ParseDecimal(d) == -v;
    }
  }

  lemma StrtolOfMinusDigits(d: string)
    requires |d| >= 1 && AllDigits(d) && ParseDecimal(d) <= -LONG_MIN
    ensures Strtol("-" + d, 0) == (-(ParseDecimal(d) as int), 1 + |d|)
  {
    var s := "-" + d;
    MinusDigitsShape(d);
    StrtolAtMinus(s, 0, 1 + |d|);
    assert ParseDecimal(s[1..1 + |d|]) == ParseDecimal(d);
  }

  lemma MinusDigitsShape(d: string)
    requires |d| >= 1 && AllDigits(d)
    ensures 1 < 1 + |d| == |"-" + d| && ("-" + d)[0] == '-'
    ensures ("-" + d)[1..1 + |d|] == d
  {
  }
}
