/**
 * maitch's string helpers: ${NAME} substitution, node lists, suffix
 * rewriting, variable-name mangling and the target names a SuffixRule
 * derives from its sources.
 */
module MaitchStrings {
  import opened Wrappers
  import opened MaitchFiles

  // What subst does with a name missing from the environment.
  const NOVAR_FATAL: nat := 0  // raise KeyError
  const NOVAR_BLANK: nat := 1  // substitute ''
  const NOVAR_SKIP: nat := 2   // leave the ${NAME} text as it is (as does any other value)

  type Env = map<string, string>

  predicate IsNameChar(c: char)
  {
    'a' <= c <= 'z' || 'A' <= c <= 'Z' || '0' <= c <= '9' || c == '_'
  }

  /** End of the run of name characters starting at j. */
  function NameEnd(s: string, j: nat): (e: nat)
    requires j <= |s|
    ensures j <= e <= |s|
    ensures forall k :: j <= k < e ==> IsNameChar(s[k])
    ensures e == |s| || !IsNameChar(s[e])
    decreases |s| - j
  {
    if j < |s| && IsNameChar(s[j]) then NameEnd(s, j + 1) else j
  }

  /** Where a match of the substitution pattern lies: the name, and the index just past the match. */
  datatype Match = Match(nameStart: nat, nameEnd: nat, end: nat)

  /**
   * The pattern `${-?NAME}` (or `@-?NAME@` when `at`) anchored at i. The
   * optional '-' is outside the captured name, so it is matched and dropped.
   */
  function MatchAt(s: string, i: nat, at: bool): (m: Option<Match>)
    requires i <= |s|
    ensures m.Some? ==>
      i < m.value.nameStart < m.value.nameEnd < m.value.end <= |s|
      && forall k :: m.value.nameStart <= k < m.value.nameEnd ==> IsNameChar(s[k])
  {
    var isOpen := if at then i < |s| && s[i] == '@' else i + 1 < |s| && s[i] == '$' && s[i + 1] == '{';
    if isOpen then
      var j := if at then i + 1 else i + 2;
      var j1 := if j < |s| && s[j] == '-' then j + 1 else j;
      var e := NameEnd(s, j1);
      if j1 < e < |s| && s[e] == (if at then '@' else '}') then Some(Match(j1, e, e + 1)) else None
    else None
  }

  /** The names of the matches re.subn finds scanning s from i (non-overlapping, left to right). */
  function MatchNames(s: string, i: nat, at: bool): seq<string>
    requires i <= |s|
    decreases |s| - i
  {
    if i == |s| then []
    else
      match MatchAt(s, i, at)
      case None => MatchNames(s, i + 1, at)
      case Some(m) => [s[m.nameStart..m.nameEnd]] + MatchNames(s, m.end, at)
  }

  /**
   * One pass of subst from index i: every match is replaced by its value,
   * the text between matches is kept; returns the new text and the number
   * of matches (re.subn's count).
   */
  function SubstFrom(env: Env, s: string, i: nat, novar: nat, at: bool): Result<(string, nat), MaitchError>
    requires i <= |s|
    decreases |s| - i
  {
    if i == |s| then Ok(("", 0))
    else
      match MatchAt(s, i, at)
      case None =>
        (match SubstFrom(env, s, i + 1, novar, at)
         case Err(e) => Err(e)
         case Ok(rn) => Ok(([s[i]] + rn.0, rn.1)))
      case Some(m) =>
        match Replacement(env, s[m.nameStart..m.nameEnd], s[i..m.end], novar)
        case Err(e) => Err(e)
        case Ok(value) =>
          match SubstFrom(env, s, m.end, novar, at)
          case Err(e) => Err(e)
          case Ok(rn) => Ok((value + rn.0, rn.1 + 1))
  }

  /** What one match becomes: the name's value; if it has none, KeyError, '' or the matched text itself. */
  function Replacement(env: Env, name: string, matched: string, novar: nat): Result<string, MaitchError>
  {
    if name in env then Ok(env[name])
    else if novar == NOVAR_FATAL then Err(KeyError(name))
    else if novar == NOVAR_BLANK then Ok("")
    else Ok(matched)
  }

  /**
   * subst(env, s, novar, recurse, at): a pass, repeated while `recurse`
   * holds and the pass found a match. `depth` stands for Python's recursion
   * limit; exceeding it raises.
   */
  function Subst(env: Env, s: string, novar: nat, recurse: bool, at: bool, depth: nat): Result<string, MaitchError>
    decreases depth
  {
    match SubstFrom(env, s, 0, novar, at)
    case Err(e) => Err(e)
    case Ok(rn) =>
      if recurse && rn.1 > 0 then
        if depth == 0 then Err(RecursionDepth) else Subst(env, rn.0, novar, recurse, at, depth - 1)
      else Ok(rn.0)
  }

  predicate NoMatchFrom(s: string, i: nat, at: bool)
    requires i <= |s|
  {
    forall k :: i <= k < |s| ==> MatchAt(s, k, at).None?
  }

  /** A string without a match comes back unchanged, with a count of 0. */
  lemma {:induction false} SubstNoMatch(env: Env, s: string, i: nat, novar: nat, at: bool)
    requires i <= |s| && NoMatchFrom(s, i, at)
    ensures SubstFrom(env, s, i, novar, at) == Ok((s[i..], 0))
    decreases |s| - i
  {
    if i < |s| {
      SubstNoMatch(env, s, i + 1, novar, at);
      assert s[i..] == [s[i]] + s[i + 1..];
    }
  }

  /** The pass counts exactly the matches, and finds none exactly when there is none to find. */
  lemma {:induction false} SubstCount(env: Env, s: string, i: nat, novar: nat, at: bool)
    requires i <= |s|
    ensures SubstFrom(env, s, i, novar, at).Ok? ==> SubstFrom(env, s, i, novar, at).value.1 == |MatchNames(s, i, at)|
    ensures MatchNames(s, i, at) == [] <==> NoMatchFrom(s, i, at)
  {
    PassCount(env, s, i, novar, at);
    NoMatchNames(s, i, at);
  }

  lemma {:induction false} PassCount(env: Env, s: string, i: nat, novar: nat, at: bool)
    requires i <= |s|
    ensures SubstFrom(env, s, i, novar, at).Ok? ==> SubstFrom(env, s, i, novar, at).value.1 == |MatchNames(s, i, at)|
    decreases |s| - i
  {
    if i < |s| {
      match MatchAt(s, i, at)
      case None => PassCount(env, s, i + 1, novar, at);
      case Some(m) => PassCount(env, s, m.end, novar, at);
    }
  }

  lemma {:induction false} NoMatchNames(s: string, i: nat, at: bool)
    requires i <= |s|
    ensures MatchNames(s, i, at) == [] <==> NoMatchFrom(s, i, at)
    decreases |s| - i
  {
    if i < |s| {
      match MatchAt(s, i, at)
      case None => NoMatchNames(s, i + 1, at);
      case Some(m) =>
    }
  }

  /** The first of `names` missing from env. */
  function FirstMissing(env: Env, names: seq<string>): (r: Option<string>)
    ensures r.None? <==> forall n <- names :: n in env
    ensures r.Some? ==> exists k :: 0 <= k < |names| && names[k] == r.value && r.value !in env
                                    && forall j :: 0 <= j < k ==> names[j] in env
  {
    if names == [] then None
    else if names[0] !in env then Some(names[0])
    else
      var r := FirstMissing(env, names[1..]);
      assert forall n <- names[1..] :: n in names;
      if r.Some? then
        var k :| 0 <= k < |names[1..]| && names[1..][k] == r.value && r.value !in env
                 && forall j :: 0 <= j < k ==> names[1..][j] in env;
        assert names[k + 1] == r.value;
        r
      else r
  }

  /**
   * Under NOVAR_FATAL a pass raises KeyError exactly when some matched
   * name is missing, naming the first such; the other modes never raise.
   */
  lemma {:induction false} SubstErrors(env: Env, s: string, i: nat, novar: nat, at: bool)
    requires i <= |s|
    ensures SubstFrom(env, s, i, novar, at).Err? <==> novar == NOVAR_FATAL && FirstMissing(env, MatchNames(s, i, at)).Some?
    ensures SubstFrom(env, s, i, novar, at).Err? ==>
      SubstFrom(env, s, i, novar, at).error == KeyError(FirstMissing(env, MatchNames(s, i, at)).value)
    decreases |s| - i
  {
    if i < |s| {
      match MatchAt(s, i, at)
      case None =>
        SubstErrors(env, s, i + 1, novar, at);
      case Some(m) =>
        var name := s[m.nameStart..m.nameEnd];
        var names := MatchNames(s, i, at);
        assert names == [name] + MatchNames(s, m.end, at);
        assert names[1..] == MatchNames(s, m.end, at);
        SubstErrors(env, s, m.end, novar, at);
    }
  }

  /** The environment extended with '' for every name it lacks among `names`. */
  function Blanked(env: Env, names: set<string>): (b: Env)
    ensures forall n <- names :: n in b && b[n] == if n in env then env[n] else ""
  {
    map n | n in env.Keys + names :: if n in env then env[n] else ""
  }

  /** env and blanked agree on every name, the latter giving '' where the former has none. */
  predicate BlanksAgree(env: Env, blanked: Env, names: seq<string>)
  {
    forall n <- names :: n in blanked && blanked[n] == if n in env then env[n] else ""
  }

  /**
   * NOVAR_BLANK behaves as NOVAR_FATAL on an environment that gives every
   * matched name its value, or '' when it has none.
   */
  lemma {:induction false} BlankIsFatalWithBlanks(env: Env, blanked: Env, s: string, i: nat, at: bool)
    requires i <= |s|
    requires BlanksAgree(env, blanked, MatchNames(s, i, at))
    ensures SubstFrom(env, s, i, NOVAR_BLANK, at) == SubstFrom(blanked, s, i, NOVAR_FATAL, at)
    decreases |s| - i, 1
  {
    if i < |s| {
      match MatchAt(s, i, at)
      case None =>
        assert MatchNames(s, i, at) == MatchNames(s, i + 1, at);
        BlankIsFatalWithBlanks(env, blanked, s, i + 1, at);
      case Some(m) =>
        BlankIsFatalAtMatch(env, blanked, s, i, at, m);
    }
  }

  lemma {:induction false} BlankIsFatalAtMatch(env: Env, blanked: Env, s: string, i: nat, at: bool, m: Match)
    requires i < |s| && MatchAt(s, i, at) == Some(m)
    requires BlanksAgree(env, blanked, MatchNames(s, i, at))
    ensures SubstFrom(env, s, i, NOVAR_BLANK, at) == SubstFrom(blanked, s, i, NOVAR_FATAL, at)
    decreases |s| - i, 0
  {
    var name := s[m.nameStart..m.nameEnd];
    var names := MatchNames(s, i, at);
    assert names == [name] + MatchNames(s, m.end, at);
    assert names[0] == name;
    assert Replacement(env, name, s[i..m.end], NOVAR_BLANK) == Replacement(blanked, name, s[i..m.end], NOVAR_FATAL);
    assert names[1..] == MatchNames(s, m.end, at);
    BlankIsFatalWithBlanks(env, blanked, s, m.end, at);
  }

  /** Hence a NOVAR_BLANK pass is a NOVAR_FATAL pass on the blanked environment, and never raises. */
  lemma BlankNeverRaises(env: Env, s: string, at: bool)
    ensures SubstFrom(env, s, 0, NOVAR_BLANK, at) == SubstFrom(Blanked(env, set n <- MatchNames(s, 0, at)), s, 0, NOVAR_FATAL, at)
    ensures SubstFrom(env, s, 0, NOVAR_BLANK, at).Ok?
  {
    BlankIsFatalWithBlanks(env, Blanked(env, set n <- MatchNames(s, 0, at)), s, 0, at);
    SubstErrors(env, s, 0, NOVAR_BLANK, at);
  }

  /** NOVAR_SKIP with an empty environment leaves every ${NAME} in place: the text is unchanged. */
  lemma {:induction false} SkipKeepsText(s: string, i: nat, at: bool)
    requires i <= |s|
    ensures SubstFrom(map[], s, i, NOVAR_SKIP, at) == Ok((s[i..], |MatchNames(s, i, at)|))
    decreases |s| - i
  {
    if i < |s| {
      match MatchAt(s, i, at)
      case None =>
        SkipKeepsText(s, i + 1, at);
        SkipPlainStep(s, i, at);
      case Some(m) =>
        SkipKeepsText(s, m.end, at);
        SkipMatchStep(s, i, at, m);
    } else {
      assert s[i..] == "";
      assert SubstFrom(map[], s, i, NOVAR_SKIP, at) == Ok(("", 0));
      assert MatchNames(s, i, at) == [];
    }
  }

  /** One character that starts no match is copied through. */
  lemma SkipPlainStep(s: string, i: nat, at: bool)
    requires i < |s| && MatchAt(s, i, at).None?
    requires SubstFrom(map[], s, i + 1, NOVAR_SKIP, at) == Ok((s[i + 1..], |MatchNames(s, i + 1, at)|))
    ensures SubstFrom(map[], s, i, NOVAR_SKIP, at) == Ok((s[i..], |MatchNames(s, i, at)|))
  {
    assert SubstFrom(map[], s, i, NOVAR_SKIP, at) == Ok(([s[i]] + s[i + 1..], |MatchNames(s, i + 1, at)|));
    assert s[i..] == [s[i]] + s[i + 1..];
  }

  /** A match of an unset name is replaced by its own text, and counted. */
  lemma SkipMatchStep(s: string, i: nat, at: bool, m: Match)
    requires i < |s| && MatchAt(s, i, at) == Some(m)
    requires SubstFrom(map[], s, m.end, NOVAR_SKIP, at) == Ok((s[m.end..], |MatchNames(s, m.end, at)|))
    ensures SubstFrom(map[], s, i, NOVAR_SKIP, at) == Ok((s[i..], |MatchNames(s, i, at)|))
  {
    var name := s[m.nameStart..m.nameEnd];
    assert MatchNames(s, i, at) == [name] + MatchNames(s, m.end, at);
    assert Replacement(map[], name, s[i..m.end], NOVAR_SKIP) == Ok(s[i..m.end]);
    assert SubstFrom(map[], s, i, NOVAR_SKIP, at) == Ok((s[i..m.end] + s[m.end..], |MatchNames(s, m.end, at)| + 1));
    assert s[i..] == s[i..m.end] + s[m.end..];
  }


  /** A recursive subst that succeeds leaves nothing to substitute. */
  lemma {:induction false} SubstReachesFixpoint(env: Env, s: string, novar: nat, at: bool, depth: nat)
    requires Subst(env, s, novar, true, at, depth).Ok?
    ensures NoMatchFrom(Subst(env, s, novar, true, at, depth).value, 0, at)
    decreases depth
  {
    var rn := SubstFrom(env, s, 0, novar, at).value;
    if rn.1 > 0 {
      SubstReachesFixpoint(env, rn.0, novar, at, depth - 1);
    } else {
      SubstCount(env, s, 0, novar, at);
      SubstNoMatch(env, s, 0, novar, at);
      assert s[0..] == s;
    }
  }

  // ---------------------------------------------------------------------
  // process_nodes

  /** A node argument: one string of space-separated names, or a list. */
  datatype Nodes = Text(text: string) | List(names: seq<string>)

  /** Length of the run of non-blank characters at the start of s. */
  function WordLength(s: string): (n: nat)
    ensures n <= |s|
    ensures forall k :: 0 <= k < n ==> !IsSpace(s[k])
    ensures n == |s| || IsSpace(s[n])
  {
    if s == [] || IsSpace(s[0]) then 0 else 1 + WordLength(s[1..])
  }

  /** str.split() with no separator: the maximal runs of non-blank characters. */
  function Words(s: string): seq<string>
    decreases |s|
  {
    if s == [] then []
    else if IsSpace(s[0]) then Words(s[1..])
    else
      var n := WordLength(s);
      [s[..n]] + Words(s[n..])
  }

  /** process_nodes: a string is split at blanks, a list is copied. */
  function ProcessNodes(nodes: Nodes): seq<string>
  {
    match nodes
    case Text(t) => Words(t)
    case List(l) => l
  }

  predicate IsWord(w: string) { w != [] && forall k :: 0 <= k < |w| ==> !IsSpace(w[k]) }

  function JoinWords(ws: seq<string>): string
  {
    if ws == [] then "" else if |ws| == 1 then ws[0] else ws[0] + " " + JoinWords(ws[1..])
  }

  function Concat(ws: seq<string>): string
  {
    if ws == [] then "" else ws[0] + Concat(ws[1..])
  }

  function NonBlank(s: string): string
  {
    if s == [] then "" else (if IsSpace(s[0]) then "" else [s[0]]) + NonBlank(s[1..])
  }

  lemma {:induction false} NonBlankWord(w: string, rest: string)
    requires forall k :: 0 <= k < |w| ==> !IsSpace(w[k])
    ensures NonBlank(w + rest) == w + NonBlank(rest)
    decreases |w|
  {
    if w != [] {
      assert (w + rest)[1..] == w[1..] + rest;
      NonBlankWord(w[1..], rest);
    } else {
      assert w + rest == rest;
    }
  }

  /** Splitting yields non-empty, blank-free words that together hold every non-blank character, in order. */
  lemma {:induction false} WordsPartition(s: string)
    ensures forall w <- Words(s) :: IsWord(w)
    ensures Concat(Words(s)) == NonBlank(s)
    decreases |s|
  {
    if s != [] {
      if IsSpace(s[0]) {
        WordsPartition(s[1..]);
      } else {
        var n := WordLength(s);
        WordsPartition(s[n..]);
        assert s == s[..n] + s[n..];
        NonBlankWord(s[..n], s[n..]);
        assert Words(s) == [s[..n]] + Words(s[n..]);
      }
    }
  }

  lemma {:induction false} WordLengthOfWord(w: string, rest: string)
    requires IsWord(w) && (rest == [] || IsSpace(rest[0]))
    ensures WordLength(w + rest) == |w|
    decreases |w|
  {
    assert (w + rest)[1..] == w[1..] + rest;
    if |w| > 1 {
      WordLengthOfWord(w[1..], rest);
    } else {
      assert w[1..] + rest == rest;
    }
  }

  /** Round trip: words joined by single spaces split back into the same words. */
  lemma {:induction false} WordsOfJoin(ws: seq<string>)
    requires forall w <- ws :: IsWord(w)
    ensures Words(JoinWords(ws)) == ws
    decreases |ws|
  {
    if ws != [] {
      var w := ws[0];
      assert w in ws;
      if |ws| == 1 {
        WordLengthOfWord(w, "");
        assert w + "" == w;
        assert w[|w|..] == [];
      } else {
        var rest := JoinWords(ws[1..]);
        var s := w + " " + rest;
        WordLengthOfWord(w, " " + rest);
        assert s == w + (" " + rest);
        assert s[..|w|] == w;
        assert s[|w|..] == " " + rest;
        assert (" " + rest)[1..] == rest;
        WordsOfJoin(ws[1..]);
      }
    }
  }

  // ---------------------------------------------------------------------
  // change_suffix

  predicate EndsWith(f: string, suffix: string)
  {
    |suffix| <= |f| && f[|f| - |suffix|..] == suffix
  }

  /** One file of change_suffix. With an empty `old`, f[:-0] is '' and only `new` remains. */
  function ChangeSuffixOf(f: string, oldSfx: string, newSfx: string): string
  {
    if EndsWith(f, oldSfx) then f[..if |oldSfx| == 0 then 0 else |f| - |oldSfx|] + newSfx else f
  }

  /** change_suffix: one entry per file, in order. */
  function ChangeSuffix(files: Nodes, oldSfx: string, newSfx: string): seq<string>
  {
    var fs := ProcessNodes(files);
    seq(|fs|, k requires 0 <= k < |fs| => ChangeSuffixOf(fs[k], oldSfx, newSfx))
  }

  /**
   * With non-empty suffixes, a file ending in `old` gets `new` in its place
   * and changing back restores it; a file not ending in `old` is unchanged.
   */
  lemma ChangeSuffixRoundTrip(files: seq<string>, oldSfx: string, newSfx: string)
    requires oldSfx != [] && newSfx != []
    ensures |ChangeSuffix(List(files), oldSfx, newSfx)| == |files|
    ensures forall k :: 0 <= k < |files| && !EndsWith(files[k], oldSfx) ==>
      ChangeSuffix(List(files), oldSfx, newSfx)[k] == files[k]
    ensures forall k :: 0 <= k < |files| && EndsWith(files[k], oldSfx) ==>
      EndsWith(ChangeSuffix(List(files), oldSfx, newSfx)[k], newSfx)
    ensures (forall f <- files :: EndsWith(f, oldSfx)) ==>
      ChangeSuffix(List(ChangeSuffix(List(files), oldSfx, newSfx)), newSfx, oldSfx) == files
  {
    var once := ChangeSuffix(List(files), oldSfx, newSfx);
    forall k | 0 <= k < |files| && EndsWith(files[k], oldSfx)
      ensures EndsWith(once[k], newSfx)
      ensures ChangeSuffixOf(once[k], newSfx, oldSfx) == files[k]
    {
      var f := files[k];
      var stem := f[..|f| - |oldSfx|];
      assert once[k] == stem + newSfx;
      assert (stem + newSfx)[|stem + newSfx| - |newSfx|..] == newSfx;
      assert (stem + newSfx)[..|stem + newSfx| - |newSfx|] == stem;
      assert stem + oldSfx == f;
    }
    if forall f <- files :: EndsWith(f, oldSfx) {
      var twice := ChangeSuffix(List(once), newSfx, oldSfx);
      forall k | 0 <= k < |files| ensures twice[k] == files[k] {
        assert files[k] in files;
      }
    }
  }

  /** With an empty `old` every file is replaced by `new` alone. */
  lemma ChangeSuffixEmptyOld(files: seq<string>, newSfx: string)
    ensures ChangeSuffix(List(files), "", newSfx) == seq(|files|, k => newSfx)
  {
    forall k | 0 <= k < |files| ensures ChangeSuffixOf(files[k], "", newSfx) == newSfx {
      assert files[k][|files[k]|..] == "";
      assert files[k][..0] + newSfx == newSfx;
    }
  }

  // ---------------------------------------------------------------------
  // make_var_name

  predicate IsAsciiDigit(c: char) { '0' <= c <= '9' }

  predicate IsAsciiAlnum(c: char) { 'a' <= c <= 'z' || 'A' <= c <= 'Z' || IsAsciiDigit(c) }

  function AsciiUpper(c: char): char
  {
    if 'a' <= c <= 'z' then (c as int - 32) as char else c
  }

  /** A name every build variable can take: non-empty, name characters only, no leading digit. */
  predicate IsVarName(s: string)
  {
    s != [] && !IsAsciiDigit(s[0]) && forall k :: 0 <= k < |s| ==> IsNameChar(s[k])
  }

  function MangleChar(c: char): char
  {
    if c == '_' || IsAsciiAlnum(c) then c else '_'
  }

  function Mangle(t: string): string
  {
    seq(|t|, k requires 0 <= k < |t| => MangleChar(t[k]))
  }

  function UpperAll(s: string): string
  {
    seq(|s|, k requires 0 <= k < |s| => AsciiUpper(s[k]))
  }

  /**
   * make_var_name: '_' in front of a leading digit, every character other
   * than '_' and ASCII letters and digits replaced by '_', optionally upper
   * case. An empty template raises IndexError.
   */
  function MakeVarName(template: string, upper: bool): (r: Result<string, MaitchError>)
    ensures r.Err? <==> template == []
    ensures r.Ok? ==> IsVarName(r.value)
    ensures r.Ok? ==> |r.value| == |template| + (if IsAsciiDigit(template[0]) then 1 else 0)
    ensures r.Ok? ==> var off := |r.value| - |template|;
      forall k :: 0 <= k < |template| ==>
        r.value[off + k] == (if upper then AsciiUpper(MangleChar(template[k])) else MangleChar(template[k]))
    ensures r.Ok? && upper ==> forall k :: 0 <= k < |r.value| ==> !('a' <= r.value[k] <= 'z')
  {
    if template == [] then Err(IndexError)
    else
      var lead := if IsAsciiDigit(template[0]) then "_" else "";
      var s := lead + Mangle(template);
      Ok(if upper then UpperAll(s) else s)
  }

  lemma MangleKeepsNames(r: string)
    requires forall k :: 0 <= k < |r| ==> IsNameChar(r[k])
    ensures Mangle(r) == r
  {
  }

  lemma UpperKeepsUpper(r: string)
    requires forall k :: 0 <= k < |r| ==> !('a' <= r[k] <= 'z')
    ensures UpperAll(r) == r
  {
  }

  /** A mangled name is left as it is by a second mangling. */
  lemma MakeVarNameIdempotent(template: string, upper: bool)
    requires template != []
    ensures MakeVarName(MakeVarName(template, upper).value, upper) == MakeVarName(template, upper)
  {
    var r := MakeVarName(template, upper).value;
    assert !IsAsciiDigit(r[0]);
    MangleKeepsNames(r);
    assert "" + Mangle(r) == r;
    if upper {
      UpperKeepsUpper(r);
    }
  }

  // ---------------------------------------------------------------------
  // SuffixRule.transform

  /** s.rsplit('.', 1)[0]: the text before the last '.', or all of s. */
  function StripExtension(s: string): (b: string)
    ensures |b| <= |s| && b == s[..|b|]
    ensures '.' in s ==> |b| < |s| && s[|b|] == '.' && forall k :: |b| < k < |s| ==> s[k] != '.'
    ensures '.' !in s ==> b == s
  {
    if '.' !in s then s
    else if s[|s| - 1] == '.' then s[..|s| - 1]
    else
      assert '.' in s[..|s| - 1] by {
        var k :| 0 <= k < |s| && s[k] == '.';
        assert s[..|s| - 1][k] == '.';
      }
      StripExtension(s[..|s| - 1])
  }

  /** `prefix` put in front of the leafname of b (os.path.split, then os.path.join unless the head is empty). */
  function PrefixLeaf(b: string, prefix: string): string
  {
    var pl := Split(b);
    if pl.0 != "" then Join(pl.0, prefix + pl.1) else prefix + pl.1
  }

  /** The target SuffixRule.transform derives from one source. */
  function TransformOne(source: string, suffix: string, prefix: string): string
  {
    var b := StripExtension(source);
    (if |prefix| > 0 then PrefixLeaf(b, prefix) else b) + "." + suffix
  }

  lemma PrefixLeafTail(b: string, prefix: string)
    requires forall k :: 0 <= k < |prefix| ==> prefix[k] != '/'
    ensures Leafname(PrefixLeaf(b, prefix)) == prefix + Leafname(b)
  {
    var pl := Split(b);
    var leaf := prefix + pl.1;
    assert forall j :: 0 <= j < |leaf| ==> leaf[j] != '/';
    if pl.0 != "" {
      SplitJoinTail(pl.0, leaf);
    } else {
      LeafStartAfterSlash([], leaf);
      assert [] + leaf == leaf;
    }
  }

  /**
   * A target is its source's text before the last '.', with the prefix put
   * in front of the leafname, followed by '.' and the suffix.
   */
  lemma TransformOneShape(source: string, suffix: string, prefix: string)
    requires forall k :: 0 <= k < |prefix| ==> prefix[k] != '/'
    ensures var t := TransformOne(source, suffix, prefix);
      |t| > |suffix| && EndsWith(t, "." + suffix)
      && (prefix == "" ==> t[..|t| - |suffix| - 1] == StripExtension(source))
      && Leafname(t[..|t| - |suffix| - 1]) == prefix + Leafname(StripExtension(source))
  {
    var b := StripExtension(source);
    var stem := if |prefix| > 0 then PrefixLeaf(b, prefix) else b;
    var t := TransformOne(source, suffix, prefix);
    TransformOneParts(source, suffix, prefix);
    StemAndSuffix(stem, suffix);
    assert t[..|t| - |suffix| - 1] == stem;
    if |prefix| > 0 {
      PrefixLeafTail(b, prefix);
    } else {
      assert prefix + Leafname(b) == Leafname(b);
    }
  }

  lemma TransformOneParts(source: string, suffix: string, prefix: string)
    ensures TransformOne(source, suffix, prefix)
      == (if |prefix| > 0 then PrefixLeaf(StripExtension(source), prefix) else StripExtension(source)) + "." + suffix
  {
  }

  lemma StemAndSuffix(stem: string, suffix: string)
    ensures var t := stem + "." + suffix;
      |t| > |suffix| && EndsWith(t, "." + suffix) && t[..|t| - |suffix| - 1] == stem
  {
    var t := stem + "." + suffix;
    assert t[|t| - |"." + suffix|..] == "." + suffix;
  }

  /** SuffixRule.transform: one target per source, in order. */
  function Transform(sources: seq<string>, suffix: string, prefix: string): (targets: seq<string>)
  {
    seq(|sources|, k requires 0 <= k < |sources| => TransformOne(sources[k], suffix, prefix))
  }

  /** SuffixRule.transform yields exactly one target per source, each shaped as TransformOneShape says. */
  lemma TransformShape(sources: seq<string>, suffix: string, prefix: string)
    requires forall k :: 0 <= k < |prefix| ==> prefix[k] != '/'
    ensures |Transform(sources, suffix, prefix)| == |sources|
    ensures forall k :: 0 <= k < |sources| ==>
      Transform(sources, suffix, prefix)[k] == TransformOne(sources[k], suffix, prefix)
      && EndsWith(Transform(sources, suffix, prefix)[k], "." + suffix)
  {
    forall k | 0 <= k < |sources| ensures EndsWith(TransformOne(sources[k], suffix, prefix), "." + suffix) {
      TransformOneShape(sources[k], suffix, prefix);
    }
  }
}
