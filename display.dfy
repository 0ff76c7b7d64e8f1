/**
 * Screen numbers in X display names (src/display.c): a name such as
 * "host:0.1" names screen 1 of display "host:0"; the dot that separates the
 * screen number is the last '.' when only digits follow it.
 */
module Display {
  import opened Wrappers
  import opened Decimal
  import opened CStrings

  /**
   * get_screen_dot: the index of the last '.' when at least one character
   * follows it and every character after it is a digit; None otherwise.
   */
  function GetScreenDot(name: string): Option<nat>
  {
    match StrRChr(name, '.')
    case None => None
    case Some(dot) =>
      if dot + 1 < |name| && AllDigits(name[dot + 1..]) then Some(dot) else None
  }

  /** A screen suffix: a '.' followed by one or more characters, all of them digits. */
  predicate ScreenDotAt(name: string, i: int)
  {
    0 <= i < |name| - 1 && name[i] == '.' && AllDigits(name[i + 1..])
  }

  /** The dot of a screen suffix is the last dot. */
  lemma ScreenDotIsLast(name: string, i: nat)
    requires ScreenDotAt(name, i)
    ensures StrRChr(name, '.') == Some(i)
  {
    forall k | i + 1 <= k < |name|
      ensures name[k] != '.'
    {
      assert IsDigit(name[i + 1..][k - (i + 1)]);
    }
    assert name[i] in name;
    var d := StrRChr(name, '.').value;
    NotAfter(name, d + 1, '.');
  }

  /** get_screen_dot finds a dot exactly when it is a screen suffix, and there is at most one such dot. */
  lemma GetScreenDotSpec(name: string)
    ensures forall i :: GetScreenDot(name) == Some(i) <==> ScreenDotAt(name, i)
    ensures GetScreenDot(name).None? <==> forall i :: !ScreenDotAt(name, i)
  {
    forall i | ScreenDotAt(name, i)
      ensures GetScreenDot(name) == Some(i)
    {
      ScreenDotIsLast(name, i);
    }
  }

  /**
   * Only the last dot counts: a non-digit after the last dot means no
   * screen number, however an earlier dot is followed.
   */
  lemma OnlyLastDotCounts(name: string, dot: nat, k: nat)
    requires dot < k < |name| && name[dot] == '.' && '.' !in name[dot + 1..]
    requires !IsDigit(name[k])
    ensures GetScreenDot(name) == None
  {
    NotAfter(name, dot + 1, '.');
    assert name[dot] in name;
    var d := StrRChr(name, '.').value;
    NotAfter(name, d + 1, '.');
    assert name[dot + 1..][k - (dot + 1)] == name[k];
  }

  /** A display name with a numbered screen appended has its screen dot where it was appended. */
  lemma ScreenDotOfAppended(host: string, screen: nat)
    ensures GetScreenDot(host + "." + NatToString(screen)) == Some(|host|)
  {
    var name := host + "." + NatToString(screen);
    assert name[|host| + 1..] == NatToString(screen);
    assert ScreenDotAt(name, |host|);
    GetScreenDotSpec(name);
  }

  /** display_get_screen_for_name: whether the name includes a screen number. */
  function NameIncludesScreen(name: string): (b: bool)
    ensures b <==> exists i :: ScreenDotAt(name, i)
  {
    GetScreenDotSpec(name);
    GetScreenDot(name).Some?
  }

  /** get_matching_screen: a display name with its screen suffix, if any, cut off at the dot. */
  function StripScreen(name: string): (r: string)
    ensures |r| <= |name| && r == name[..|r|]
    ensures NameIncludesScreen(name) <==> |r| < |name|
    ensures |r| < |name| ==> ScreenDotAt(name, |r|)
  {
    match GetScreenDot(name)
    case None => name
    case Some(dot) => name[..dot]
  }

  /** Cutting the screen number off a name with one appended gives back the display name. */
  lemma StripScreenOfAppended(host: string, screen: nat)
    ensures StripScreen(host + "." + NatToString(screen)) == host
  {
    ScreenDotOfAppended(host, screen);
  }
}
