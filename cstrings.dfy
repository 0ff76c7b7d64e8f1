/**
 * The C string functions the sources lean on, over strings as sequences
 * of characters.
 */
module CStrings {
  import opened Wrappers

  /** strrchr(s, c): the index of the last c in s, if any. */
  function StrRChr(s: string, c: char): (r: Option<nat>)
    ensures r.Some? ==> r.value < |s| && s[r.value] == c && c !in s[r.value + 1..]
    ensures r.None? ==> c !in s
  {
    if s == [] then None
    else if s[|s| - 1] == c then Some(|s| - 1)
    else
      var r := StrRChr(s[..|s| - 1], c);
      assert s == s[..|s| - 1] + [s[|s| - 1]];
      if r.Some? then
        assert s[r.value + 1..] == s[..|s| - 1][r.value + 1..] + [s[|s| - 1]];
        r
      else r
  }

  /** strchr(s, c): the index of the first c in s, if any. */
  function StrChr(s: string, c: char): (r: Option<nat>)
    ensures r.Some? ==> r.value < |s| && s[r.value] == c && c !in s[..r.value]
    ensures r.None? ==> c !in s
  {
    if s == [] then None
    else if s[0] == c then Some(0)
    else
      var r := StrChr(s[1..], c);
      assert s == [s[0]] + s[1..];
      if r.Some? then
        assert s[..r.value + 1] == [s[0]] + s[1..][..r.value];
        Some(r.value + 1)
      else None
  }

  /** No character after index a of s is c. */
  lemma NotAfter(s: string, a: nat, c: char)
    requires a <= |s| && c !in s[a..]
    ensures forall k :: a <= k < |s| ==> s[k] != c
  {
    forall k | a <= k < |s|
      ensures s[k] != c
    {
      assert s[a..][k - a] == s[k];
    }
  }

  /** The last c of a string is the one found at i when no c follows i. */
  lemma StrRChrAt(s: string, c: char, i: nat)
    requires i < |s| && s[i] == c
    requires forall k :: i < k < |s| ==> s[k] != c
    ensures StrRChr(s, c) == Some(i)
  {
    assert s[i] in s;
    var d := StrRChr(s, c).value;
    NotAfter(s, d + 1, c);
  }
}
