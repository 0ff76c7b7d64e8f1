/**
 * The environment a terminal's child is started with
 * (roxterm_modify_environment in src/roxterm.c) and the cursor blink mode
 * derived from a profile (roxterm_update_cursor_blink_mode).
 */
module RoxtermEnv {
  /** g_str_has_prefix. */
  predicate HasPrefix(s: string, p: string)
  {
    |p| <= |s| && s[..|p|] == p
  }

  /**
   * Number of NAME/value pairs in a flat replace array: an odd name at the
   * end has no value and is ignored.
   */
  function PairCount(replace: seq<string>): nat
  {
    |replace| / 2
  }

  /** Whether an environment entry sets the name of one of the first n pairs. */
  predicate SetByPairs(e: string, replace: seq<string>, n: nat)
    requires n <= PairCount(replace)
  {
    exists i :: 0 <= i < n && HasPrefix(e, replace[2 * i] + "=")
  }

  /** Whether an environment entry sets a name that replace gives a new value. */
  predicate Replaced(e: string, replace: seq<string>)
  {
    SetByPairs(e, replace, PairCount(replace))
  }

  /** The entries of env that survive: those not replaced, in their order. */
  function Kept(env: seq<string>, replace: seq<string>): (r: seq<string>)
    ensures |r| <= |env|
  {
    if env == [] then []
    else Kept(env[..|env| - 1], replace) + (if Replaced(env[|env| - 1], replace) then [] else [env[|env| - 1]])
  }

  /** The assignment NAME=value of pair j. */
  function Assignment(replace: seq<string>, j: nat): string
    requires j < PairCount(replace)
  {
    replace[2 * j] + "=" + replace[2 * j + 1]
  }

  /** The assignments of the first n pairs, in order. */
  function Assignments(replace: seq<string>, n: nat): (r: seq<string>)
    requires n <= PairCount(replace)
    ensures |r| == n
  {
    if n == 0 then [] else Assignments(replace, n - 1) + [Assignment(replace, n - 1)]
  }

  /** The environment the child gets: the surviving entries, then every assignment. */
  function NewEnvironment(env: seq<string>, replace: seq<string>): seq<string>
  {
    Kept(env, replace) + Assignments(replace, PairCount(replace))
  }

  /** The NAME= prefixes of the pairs, as roxterm_modify_environment builds them in its equals array. */
  method EqualsPrefixes(replace: seq<string>) returns (equals: array<string>)
    ensures fresh(equals) && equals.Length == PairCount(replace)
    ensures forall m :: 0 <= m < equals.Length ==> equals[m] == replace[2 * m] + "="
  {
    var replaceLen := |replace| / 2;
    equals := new string[replaceLen];
    var i := 0;
    while i < replaceLen
      invariant 0 <= i <= replaceLen
      invariant forall m :: 0 <= m < i ==> equals[m] == replace[2 * m] + "="
    {
      equals[i] := replace[i * 2] + "=";
      i := i + 1;
    }
  }

  /** The inner loop of roxterm_modify_environment: does e start with one of the prefixes? */
  method StartsWithAny(e: string, equals: array<string>, replace: seq<string>) returns (skip: bool)
    requires equals.Length == PairCount(replace)
    requires forall m :: 0 <= m < equals.Length ==> equals[m] == replace[2 * m] + "="
    ensures skip == Replaced(e, replace)
  {
    skip := false;
    var i := 0;
    while i < equals.Length
      invariant 0 <= i <= equals.Length
      invariant !SetByPairs(e, replace, i)
    {
      if HasPrefix(e, equals[i]) {
        skip := true;
        return;
      }
      i := i + 1;
    }
  }

  /**
   * roxterm_modify_environment: a fresh array is filled with the entries of
   * env that have none of the NAME= prefixes, then with NAME=value for each
   * pair of replace. Neither input is changed (they are values here).
   */
  method ModifyEnvironment(env: seq<string>, replace: seq<string>) returns (result: seq<string>)
    ensures result == NewEnvironment(env, replace)
  {
    var equals := EqualsPrefixes(replace);
    var buffer := new string[|replace| / 2 + |env|];
    var k := KeepUnreplaced(env, replace, equals, buffer);
    k := AppendAssignments(env, replace, buffer, k);
    result := buffer[..k];
  }

  /** The first loop of roxterm_modify_environment: the entries of env that set no replaced name go to the front of buffer. */
  method KeepUnreplaced(env: seq<string>, replace: seq<string>, equals: array<string>, buffer: array<string>)
    returns (k: nat)
    requires equals.Length == PairCount(replace) && buffer != equals && |env| <= buffer.Length
    requires forall m :: 0 <= m < equals.Length ==> equals[m] == replace[2 * m] + "="
    modifies buffer
    ensures k == |Kept(env, replace)| && buffer[..k] == Kept(env, replace)
  {
    k := 0;
    var j := 0;
    while j < |env|
      invariant 0 <= j <= |env|
      invariant k == |Kept(env[..j], replace)|
      invariant buffer[..k] == Kept(env[..j], replace)
    {
      var skip := StartsWithAny(env[j], equals, replace);
      assert env[..j + 1][..j] == env[..j];
      if !skip {
        buffer[k] := env[j];
        k := k + 1;
      }
      j := j + 1;
    }
    assert env[..|env|] == env;
  }

  /** The second loop: NAME=value for every pair, after the kept entries. */
  method AppendAssignments(env: seq<string>, replace: seq<string>, buffer: array<string>, k0: nat)
    returns (k: nat)
    requires k0 == |Kept(env, replace)| && k0 + PairCount(replace) <= buffer.Length
    requires buffer[..k0] == Kept(env, replace)
    modifies buffer
    ensures k <= buffer.Length && buffer[..k] == NewEnvironment(env, replace)
  {
    k := k0;
    var j := 0;
    while j < |replace| / 2
      invariant 0 <= j <= |replace| / 2
      invariant k == k0 + j
      invariant buffer[..k] == Kept(env, replace) + Assignments(replace, j)
    {
      buffer[k] := replace[j * 2] + "=" + replace[j * 2 + 1];
      k := k + 1;
      j := j + 1;
    }
  }

  /** An entry survives exactly when it was in env and is not replaced. */
  lemma {:induction false} KeptMembers(env: seq<string>, replace: seq<string>, x: string)
    ensures x in Kept(env, replace) <==> x in env && !Replaced(x, replace)
  {
    if env != [] {
      KeptMembers(env[..|env| - 1], replace, x);
      assert env == env[..|env| - 1] + [env[|env| - 1]];
    }
  }

  /** Pair j's assignment is entry j of the assignments. */
  lemma {:induction false} AssignmentAt(replace: seq<string>, n: nat, j: nat)
    requires j < n <= PairCount(replace)
    ensures Assignments(replace, n)[j] == Assignment(replace, j)
  {
    if j < n - 1 {
      AssignmentAt(replace, n - 1, j);
    }
  }

  /**
   * What the child sees: every entry it gets either came from env and sets
   * no replaced name, or is one of the assignments; every such entry of env
   * and every assignment is there; and the assignments come last, in the
   * order of replace.
   */
  lemma NewEnvironmentSpec(env: seq<string>, replace: seq<string>)
    ensures var r := NewEnvironment(env, replace);
      |r| <= |env| + PairCount(replace)
      && (forall x :: x in env && !Replaced(x, replace) ==> x in r)
      && (forall j :: 0 <= j < PairCount(replace) ==> r[|r| - PairCount(replace) + j] == Assignment(replace, j))
      && (forall x :: x in r ==>
            (x in env && !Replaced(x, replace)) || exists j :: 0 <= j < PairCount(replace) && x == Assignment(replace, j))
  {
    var r := NewEnvironment(env, replace);
    var kept := Kept(env, replace);
    var n := PairCount(replace);
    forall x | x in env && !Replaced(x, replace)
      ensures x in r
    {
      KeptMembers(env, replace, x);
    }
    forall j | 0 <= j < n
      ensures r[|r| - n + j] == Assignment(replace, j)
    {
      AssignmentAt(replace, n, j);
    }
    forall x | x in r
      ensures (x in env && !Replaced(x, replace)) || exists j :: 0 <= j < n && x == Assignment(replace, j)
    {
      KeptMembers(env, replace, x);
      if x !in kept {
        var m :| 0 <= m < |r| && r[m] == x;
        AssignmentAt(replace, n, m - |kept|);
      }
    }
  }

  /** With nothing to replace, the child gets the environment as it is. */
  lemma {:induction false} NoReplacementKeepsEnvironment(env: seq<string>, replace: seq<string>)
    requires PairCount(replace) == 0
    ensures NewEnvironment(env, replace) == env
  {
    if env != [] {
      NoReplacementKeepsEnvironment(env[..|env| - 1], replace);
      assert env == env[..|env| - 1] + [env[|env| - 1]];
    }
  }

  /** A replaced name never keeps its old value: no surviving entry sets it. */
  lemma ReplacedNameHasOnlyNewValues(env: seq<string>, replace: seq<string>, j: nat, x: string)
    requires j < PairCount(replace)
    requires x in Kept(env, replace)
    ensures !HasPrefix(x, replace[2 * j] + "=")
  {
    KeptMembers(env, replace, x);
  }

  /** The VTE cursor blink modes. */
  const VTE_CURSOR_BLINK_SYSTEM: int := 0
  const VTE_CURSOR_BLINK_ON: int := 1
  const VTE_CURSOR_BLINK_OFF: int := 2

  /** C's o ^ 3 on a two's complement int: the two low bits flip, the others stay. */
  function Xor3(o: int): (r: int)
    ensures r % 4 == 3 - o % 4
    ensures r - r % 4 == o - o % 4
  {
    o - 2 * (o % 4) + 3
  }

  /** Flipping the two low bits twice gives the number back. */
  lemma Xor3Involution(o: int)
    ensures Xor3(Xor3(o)) == o
  {
  }

  /**
   * roxterm_update_cursor_blink_mode: the profile's cursor_blink_mode, or,
   * when that is -1, one derived from the older cursor_blinks option.
   */
  function CursorBlinkMode(blinkMode: int, blinks: int): int
  {
    if blinkMode == -1 then
      var o := blinks + 1;
      if o != 0 then Xor3(o) else o
    else blinkMode
  }

  /**
   * cursor_blinks unset (-1) leaves blinking to the system setting, 0 turns
   * it off and 1 on; any other cursor_blink_mode is used as it is.
   */
  lemma CursorBlinkModes(blinkMode: int, blinks: int)
    ensures CursorBlinkMode(-1, -1) == VTE_CURSOR_BLINK_SYSTEM
    ensures CursorBlinkMode(-1, 0) == VTE_CURSOR_BLINK_OFF
    ensures CursorBlinkMode(-1, 1) == VTE_CURSOR_BLINK_ON
    ensures blinkMode != -1 ==> CursorBlinkMode(blinkMode, blinks) == blinkMode
  {
  }
}
