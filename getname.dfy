/**
 * Choosing a fresh name for a copied profile or scheme (src/getname.c):
 * a name clashes when it equals an existing one, and the suggestion
 * replaces the original's trailing number by the next number, printed
 * with %02d, that does not clash.
 */
module GetName {
  import opened Wrappers
  import opened Decimal

  /** name_clashes: a scan of the NULL-terminated list of existing names. */
  method NameClashes(newName: string, existing: seq<string>) returns (r: bool)
    ensures r <==> newName in existing
  {
    var i := 0;
    while i < |existing|
      invariant 0 <= i <= |existing|
      invariant newName !in existing[..i]
    {
      if newName == existing[i] {
        return true;
      }
      assert existing[..i + 1] == existing[..i] + [existing[i]];
      i := i + 1;
    }
    assert existing[..i] == existing;
    return false;
  }

  /** Where the run of digits that ends orig begins (|orig| when orig does not end in a digit). */
  function TrailingDigitsStart(orig: string): (p: nat)
    ensures p <= |orig| && AllDigits(orig[p..])
    ensures p == 0 || !IsDigit(orig[p - 1])
  {
    if orig == [] || !IsDigit(orig[|orig| - 1]) then |orig|
    else
      var p := TrailingDigitsStart(orig[..|orig| - 1]);
      assert orig[p..] == orig[..|orig| - 1][p..] + [orig[|orig| - 1]];
      p
  }

  /** The number orig ends with, 0 when it ends with no digit (atoi of the digits). */
  function TrailingNumber(orig: string): nat
  {
    ParseDecimal(orig[TrailingDigitsStart(orig)..])
  }

  /** What can go wrong in the digit scan as the source writes it. */
  datatype ScanFault = ReadsBeforeStart

  /**
   * The digit scan as written: `while (isdigit(orig[numoff - 1])) --numoff`
   * with no lower bound, from numoff = len. When every character is a digit
   * (the empty name included) it reads orig[-1], before the string.
   */
  function ScanAsWritten(orig: string, numoff: nat): Result<nat, ScanFault>
    requires numoff <= |orig|
  {
    if numoff == 0 then Err(ReadsBeforeStart)
    else if IsDigit(orig[numoff - 1]) then ScanAsWritten(orig, numoff - 1)
    else Ok(numoff)
  }

  /** Where the name has a non-digit before its trailing digits, the scan as written finds them. */
  lemma {:induction false} ScanAsWrittenAgrees(orig: string, numoff: nat)
    requires TrailingDigitsStart(orig) <= numoff <= |orig|
    requires TrailingDigitsStart(orig) > 0
    ensures ScanAsWritten(orig, numoff) == Ok(TrailingDigitsStart(orig))
    decreases numoff
  {
    var p := TrailingDigitsStart(orig);
    if numoff > p {
      assert IsDigit(orig[p..][numoff - 1 - p]);
      ScanAsWrittenAgrees(orig, numoff - 1);
    }
  }

  /** The scan as written reads before the start of a name made only of digits, such as "42", and of "". */
  lemma ScanAsWrittenReadsBeforeStart()
    ensures ScanAsWritten("42", 2) == Err(ReadsBeforeStart)
    ensures ScanAsWritten("", 0) == Err(ReadsBeforeStart)
  {
  }

  /** The digit scan of suggest_name, stopping at the start of the name. */
  method FindTrailingDigits(orig: string) returns (numoff: nat)
    ensures numoff == TrailingDigitsStart(orig)
  {
    numoff := |orig|;
    while numoff > 0 && IsDigit(orig[numoff - 1])
      invariant 0 <= numoff <= |orig| && AllDigits(orig[numoff..])
    {
      assert orig[numoff - 1..] == [orig[numoff - 1]] + orig[numoff..];
      numoff := numoff - 1;
    }
    TrailingStartUnique(orig, numoff);
  }

  /** Every number after `from` and before `upTo` gives a clashing suggestion. */
  ghost predicate AllClash(prefix: string, existing: seq<string>, from: nat, upTo: nat)
  {
    forall m :: from < m < upTo ==> prefix + Pad2(m) in existing
  }

  /**
   * suggest_name, with the digit scan stopping at the start of the name:
   * the result does not clash, and it is the name's non-numeric prefix
   * followed by the first number above the trailing number whose %02d
   * form gives a name that does not clash.
   */
  method SuggestName(orig: string, existing: seq<string>) returns (suggest: string, num: nat)
    ensures suggest !in existing
    ensures suggest == orig[..TrailingDigitsStart(orig)] + Pad2(num)
    ensures num > TrailingNumber(orig)
    ensures AllClash(orig[..TrailingDigitsStart(orig)], existing, TrailingNumber(orig), num)
  {
    var numoff := FindTrailingDigits(orig);
    num := 0;
    if numoff != |orig| {
      num := ParseDecimal(orig[numoff..]);
    }
    ghost var start := num;
    var prefix := orig[..numoff];
    ghost var pool := set x | x in existing;
    ghost var clashed: set<string> := {};
    while true
      invariant num >= start && AllClash(prefix, existing, start, num + 1)
      invariant clashed <= pool
      invariant forall x :: x in clashed ==> SuggestedUpTo(prefix, x, num)
      decreases |pool - clashed|
    {
      num := num + 1;
      suggest := prefix + Pad2(num);
      var clashes := NameClashes(suggest, existing);
      if !clashes {
        return;
      }
      SuggestionIsNew(prefix, clashed, num);
      PoolShrinks(pool, clashed, suggest);
      ClashExtends(prefix, existing, start, num);
      SuggestedGrows(prefix, clashed, suggest, num);
      clashed := clashed + {suggest};
    }
  }

  lemma ClashExtends(prefix: string, existing: seq<string>, from: nat, n: nat)
    requires AllClash(prefix, existing, from, n) && prefix + Pad2(n) in existing
    ensures AllClash(prefix, existing, from, n + 1)
  {
  }

  lemma SuggestedGrows(prefix: string, clashed: set<string>, s: string, n: nat)
    requires n > 0 && s == prefix + Pad2(n)
    requires forall x :: x in clashed ==> SuggestedUpTo(prefix, x, n - 1)
    ensures forall x :: x in clashed + {s} ==> SuggestedUpTo(prefix, x, n)
  {
    assert s[|prefix|..] == Pad2(n);
    ParsePad2(n);
  }

  /** Adding a new member of the pool to the clashed names leaves fewer unclashed ones. */
  lemma PoolShrinks(pool: set<string>, clashed: set<string>, s: string)
    requires s in pool && s !in clashed
    ensures |pool - (clashed + {s})| < |pool - clashed|
  {
    assert pool - (clashed + {s}) == (pool - clashed) - {s};
  }

  /** x is the prefix followed by the %02d form of a number no greater than n. */
  ghost predicate SuggestedUpTo(prefix: string, x: string, n: nat)
  {
    |x| >= |prefix| && AllDigits(x[|prefix|..]) && ParseDecimal(x[|prefix|..]) <= n
  }

  /** The suggestion for the next number differs from every earlier one. */
  lemma SuggestionIsNew(prefix: string, clashed: set<string>, num: nat)
    requires num > 0
    requires forall x :: x in clashed ==> SuggestedUpTo(prefix, x, num - 1)
    ensures prefix + Pad2(num) !in clashed
  {
    var s := prefix + Pad2(num);
    assert s[|prefix|..] == Pad2(num);
    ParsePad2(num);
    assert !SuggestedUpTo(prefix, s, num - 1);
  }

  /** The digit scan that stops at the start of the name finds TrailingDigitsStart. */
  lemma TrailingStartUnique(orig: string, p: nat)
    requires p <= |orig| && AllDigits(orig[p..])
    requires p == 0 || !IsDigit(orig[p - 1])
    ensures p == TrailingDigitsStart(orig)
  {
    var q := TrailingDigitsStart(orig);
    forall k | p <= k < |orig|
      ensures IsDigit(orig[k])
    {
      assert orig[p..][k - p] == orig[k];
    }
    forall k | q <= k < |orig|
      ensures IsDigit(orig[k])
    {
      assert orig[q..][k - q] == orig[k];
    }
  }

  /** A name ending in a non-digit gets "01" (or the first free number) appended. */
  lemma SuggestionForPlainName(orig: string)
    requires orig != [] && !IsDigit(orig[|orig| - 1])
    ensures TrailingDigitsStart(orig) == |orig| && TrailingNumber(orig) == 0
  {
  }

  /** The trailing number of a name with a number appended is that number. */
  lemma TrailingNumberOfSuggestion(prefix: string, n: nat)
    requires prefix != [] && !IsDigit(prefix[|prefix| - 1])
    ensures TrailingDigitsStart(prefix + Pad2(n)) == |prefix|
    ensures TrailingNumber(prefix + Pad2(n)) == n
  {
    var s := prefix + Pad2(n);
    assert s[|prefix|..] == Pad2(n);
    assert s[|prefix| - 1] == prefix[|prefix| - 1];
    TrailingStartUnique(s, |prefix|);
    ParsePad2(n);
  }
}
