/**
 * The file-system side of maitch's build engine: POSIX path splitting and
 * joining, the search made by Context.find_source, the oldest/newest
 * timestamp helpers and the one-name-per-line dependency cache format.
 *
 * The file system is a snapshot value: every existing path with its mtime
 * and text. Paths are compared as strings (os.path.normpath is not applied).
 */
module MaitchFiles {
  import opened Wrappers

  /** The exceptions the engine raises. */
  datatype MaitchError =
    | NotFound(path: string)                  // MaitchNotFoundError
    | KeyError(name: string)                  // a missing dictionary key
    | IndexError                              // indexing an empty string or list
    | Circular(owner: nat, dep: string)       // MaitchRecursionError
    | NotBlocked(blocked: nat, blocker: nat)  // MaitchError raised by unblock_job
    | RecursionDepth                          // Python's recursion limit, reached by subst

  // Bits of a rule's `where` field.
  const NOWHERE: nat := 0
  const SRC: nat := 1
  const TOP: nat := 2

  datatype File = File(mtime: int, text: string)

  /** A snapshot of the file system: the existing paths. */
  datatype FileSystem = FileSystem(files: map<string, File>)

  /** The build, source and top directories of a Context. */
  datatype Dirs = Dirs(buildDir: string, srcDir: string, topDir: string)

  predicate IsAbs(p: string) { |p| > 0 && p[0] == '/' }

  /** os.path.join of two components: an absolute second part replaces the first. */
  function Join(a: string, b: string): string
  {
    if IsAbs(b) then b
    else if a == "" || a[|a| - 1] == '/' then a + b
    else a + "/" + b
  }

  /** Index just past the last '/' of p (0 when there is none). */
  function LeafStart(p: string): (i: nat)
    ensures i <= |p|
    ensures forall k :: i <= k < |p| ==> p[k] != '/'
    ensures i == 0 || p[i - 1] == '/'
  {
    if p == [] then 0
    else if p[|p| - 1] == '/' then |p|
    else LeafStart(p[..|p| - 1])
  }

  predicate AllSlashes(s: string) { forall k :: 0 <= k < |s| ==> s[k] == '/' }

  function TrimTrailingSlashes(s: string): string
  {
    if s != [] && s[|s| - 1] == '/' then TrimTrailingSlashes(s[..|s| - 1]) else s
  }

  /** Everything after the last '/'. */
  function Leafname(p: string): string
  {
    p[LeafStart(p)..]
  }

  /** os.path.split: (head, tail), tail being the leafname. */
  function Split(p: string): (ht: (string, string))
    ensures ht.1 == Leafname(p)
  {
    var i := LeafStart(p);
    var head := p[..i];
    (if head != "" && !AllSlashes(head) then TrimTrailingSlashes(head) else head, p[i..])
  }

  lemma {:induction false} LeafStartAfterSlash(x: string, leaf: string)
    requires x == [] || x[|x| - 1] == '/'
    requires forall k :: 0 <= k < |leaf| ==> leaf[k] != '/'
    ensures LeafStart(x + leaf) == |x|
    decreases |leaf|
  {
    if leaf == [] {
      assert x + leaf == x;
    } else {
      var init := leaf[..|leaf| - 1];
      assert (x + leaf)[..|x + leaf| - 1] == x + init;
      LeafStartAfterSlash(x, init);
    }
  }

  /** Joining a directory and a leaf without '/' gives back that leaf as the tail. */
  lemma SplitJoinTail(dir: string, leaf: string)
    requires forall k :: 0 <= k < |leaf| ==> leaf[k] != '/'
    ensures Leafname(Join(dir, leaf)) == leaf
  {
    var x := if dir == "" || dir[|dir| - 1] == '/' then dir else dir + "/";
    assert Join(dir, leaf) == x + leaf;
    LeafStartAfterSlash(x, leaf);
    assert (x + leaf)[|x|..] == leaf;
  }

  // ---------------------------------------------------------------------
  // Context.find_source

  /** The places find_source looks, in order, for a relative name. */
  function Candidates(dirs: Dirs, name: string, where: nat): (c: seq<string>)
    ensures |c| >= 2 && c[0] == name
  {
    [name, Join(dirs.buildDir, name)]
    + (if where % 2 == 1 then [Join(dirs.srcDir, name)] else [])
    + (if (where / 2) % 2 == 1 then [Join(dirs.topDir, name)] else [])
  }

  /**
   * Context.find_source (name already substituted): the name itself, then
   * (for a relative name only) the build dir, the source dir if `where` has
   * SRC and the top dir if it has TOP. Nothing found raises when `fatal`
   * (always, for an absolute name) and otherwise returns the name.
   */
  function FindSource(fs: FileSystem, dirs: Dirs, name: string, where: nat, fatal: bool): (r: Result<string, MaitchError>)
    ensures r.Ok? && r.value in fs.files ==>
      var c := if IsAbs(name) then [name] else Candidates(dirs, name, where);
      exists i :: 0 <= i < |c| && c[i] == r.value && forall j :: 0 <= j < i ==> c[j] !in fs.files
    ensures r.Ok? && r.value !in fs.files ==>
      !fatal && !IsAbs(name) && r.value == name && forall p <- Candidates(dirs, name, where) :: p !in fs.files
    ensures r.Err? <==>
      (fatal || IsAbs(name)) && name !in fs.files
      && (IsAbs(name) || forall p <- Candidates(dirs, name, where) :: p !in fs.files)
    ensures r.Err? ==> r.error == NotFound(name)
  {
    if name in fs.files then Ok(name)
    else if IsAbs(name) then Err(NotFound(name))
    else
      var c := Candidates(dirs, name, where);
      var b := Join(dirs.buildDir, name);
      var s := Join(dirs.srcDir, name);
      var t := Join(dirs.topDir, name);
      if b in fs.files then
        assert c[1] == b;
        Ok(b)
      else if where % 2 == 1 && s in fs.files then
        assert c[2] == s;
        Ok(s)
      else if (where / 2) % 2 == 1 && t in fs.files then
        assert c[|c| - 1] == t;
        Ok(t)
      else if fatal then Err(NotFound(name))
      else Ok(name)
  }

  // ---------------------------------------------------------------------
  // get_extreme_stamp, get_oldest, get_newest

  /** One step of get_extreme_stamp: keep s if there was no stamp yet or s wins. */
  function Pick(acc: Option<int>, s: int, newest: bool): Option<int>
  {
    match acc
    case None => Some(s)
    case Some(m) => if (if newest then s > m else s < m) then Some(s) else acc
  }

  /** What get_extreme_stamp computes: the oldest (or newest) mtime, or the first missing node. */
  function ExtremeStamp(fs: FileSystem, nodes: seq<string>, newest: bool): Result<Option<int>, MaitchError>
    decreases |nodes|
  {
    if nodes == [] then Ok(None)
    else
      match ExtremeStamp(fs, nodes[..|nodes| - 1], newest)
      case Err(e) => Err(e)
      case Ok(acc) =>
        var n := nodes[|nodes| - 1];
        if n !in fs.files then Err(NotFound(n)) else Ok(Pick(acc, fs.files[n].mtime, newest))
  }

  /** get_extreme_stamp raises exactly when a node is missing, naming the first missing one. */
  lemma {:induction false} ExtremeStampMissing(fs: FileSystem, nodes: seq<string>, newest: bool)
    ensures ExtremeStamp(fs, nodes, newest).Err? <==> exists i :: 0 <= i < |nodes| && nodes[i] !in fs.files
    ensures ExtremeStamp(fs, nodes, newest).Err? ==>
      exists i :: 0 <= i < |nodes| && nodes[i] !in fs.files
        && ExtremeStamp(fs, nodes, newest).error == NotFound(nodes[i])
        && forall j :: 0 <= j < i ==> nodes[j] in fs.files
    decreases |nodes|
  {
    if nodes != [] {
      var init := nodes[..|nodes| - 1];
      ExtremeStampMissing(fs, init, newest);
      if ExtremeStamp(fs, init, newest).Err? {
        var i :| 0 <= i < |init| && init[i] !in fs.files
          && ExtremeStamp(fs, init, newest).error == NotFound(init[i])
          && forall j :: 0 <= j < i ==> init[j] in fs.files;
        assert nodes[i] == init[i];
      } else {
        assert forall j :: 0 <= j < |init| ==> nodes[j] == init[j];
      }
    }
  }

  /**
   * Without a missing node, get_oldest returns None for no nodes and
   * otherwise the least mtime; get_newest the greatest.
   */
  lemma {:induction false} ExtremeStampBounds(fs: FileSystem, nodes: seq<string>, newest: bool)
    requires ExtremeStamp(fs, nodes, newest).Ok?
    ensures ExtremeStamp(fs, nodes, newest).value.None? <==> nodes == []
    ensures forall i :: 0 <= i < |nodes| ==> nodes[i] in fs.files
    ensures ExtremeStamp(fs, nodes, newest).value.Some? ==>
      var v := ExtremeStamp(fs, nodes, newest).value.value;
      (exists i :: 0 <= i < |nodes| && fs.files[nodes[i]].mtime == v)
      && forall i :: 0 <= i < |nodes| ==>
           if newest then fs.files[nodes[i]].mtime <= v else v <= fs.files[nodes[i]].mtime
    decreases |nodes|
  {
    if nodes != [] {
      var init := nodes[..|nodes| - 1];
      ExtremeStampBounds(fs, init, newest);
      assert forall j :: 0 <= j < |init| ==> nodes[j] == init[j];
      var acc := ExtremeStamp(fs, init, newest).value;
      if acc.Some? {
        var i :| 0 <= i < |init| && fs.files[init[i]].mtime == acc.value;
        assert nodes[i] == init[i];
      }
    }
  }

  /** Once a prefix of the nodes raises, so does the whole list, with the same error. */
  lemma {:induction false} ExtremeStampErrExtends(fs: FileSystem, nodes: seq<string>, i: nat, newest: bool)
    requires i <= |nodes| && ExtremeStamp(fs, nodes[..i], newest).Err?
    ensures ExtremeStamp(fs, nodes, newest) == ExtremeStamp(fs, nodes[..i], newest)
    decreases |nodes| - i
  {
    if i < |nodes| {
      assert nodes[..i + 1][..i] == nodes[..i];
      ExtremeStampErrExtends(fs, nodes, i + 1, newest);
    } else {
      assert nodes[..i] == nodes;
    }
  }

  /** get_extreme_stamp: the loop over the nodes, stopping at the first missing one. */
  method GetExtremeStamp(fs: FileSystem, nodes: seq<string>, newest: bool) returns (r: Result<Option<int>, MaitchError>)
    ensures r == ExtremeStamp(fs, nodes, newest)
  {
    var stamp: Option<int> := None;
    var i := 0;
    while i < |nodes|
      invariant 0 <= i <= |nodes|
      invariant ExtremeStamp(fs, nodes[..i], newest) == Ok(stamp)
    {
      assert nodes[..i + 1][..i] == nodes[..i];
      var n := nodes[i];
      if n !in fs.files {
        ExtremeStampErrExtends(fs, nodes, i + 1, newest);
        return Err(NotFound(n));
      }
      var s := fs.files[n].mtime;
      if stamp.None? {
        stamp := Some(s);
      } else if (if newest then s > stamp.value else s < stamp.value) {
        stamp := Some(s);
      }
      i := i + 1;
    }
    assert nodes[..i] == nodes;
    return Ok(stamp);
  }

  /** The nodes Context.get_extreme_stamp keeps: each one find_source locates, as located. */
  function Located(fs: FileSystem, dirs: Dirs, nodes: seq<string>, where: nat): (r: seq<string>)
    ensures forall k :: 0 <= k < |r| ==> r[k] in fs.files
    ensures |r| <= |nodes|
  {
    if nodes == [] then []
    else
      var init := Located(fs, dirs, nodes[..|nodes| - 1], where);
      match FindSource(fs, dirs, nodes[|nodes| - 1], where, true)
      case Ok(p) => init + [p]
      case Err(_) => init
  }

  /**
   * Context.get_oldest / get_newest: missing nodes are skipped, so the
   * result is never an error; None when no node is found.
   */
  function CtxExtremeStamp(fs: FileSystem, dirs: Dirs, nodes: seq<string>, where: nat, newest: bool): (r: Option<int>)
    ensures ExtremeStamp(fs, Located(fs, dirs, nodes, where), newest) == Ok(r)
  {
    var located := Located(fs, dirs, nodes, where);
    ExtremeStampMissing(fs, located, newest);
    ExtremeStamp(fs, located, newest).value
  }

  /**
   * Context.get_oldest / get_newest in terms of the located nodes: None
   * exactly when nothing is found, otherwise a stamp some located node has
   * and that bounds all of them.
   */
  lemma CtxExtremeStampBounds(fs: FileSystem, dirs: Dirs, nodes: seq<string>, where: nat, newest: bool)
    ensures var r := CtxExtremeStamp(fs, dirs, nodes, where, newest);
      var located := Located(fs, dirs, nodes, where);
      (r.None? <==> located == [])
      && (r.Some? ==>
            (exists d <- located :: fs.files[d].mtime == r.value)
            && forall d <- located :: if newest then fs.files[d].mtime <= r.value else r.value <= fs.files[d].mtime)
  {
    var located := Located(fs, dirs, nodes, where);
    ExtremeStampBounds(fs, located, newest);
    var r := CtxExtremeStamp(fs, dirs, nodes, where, newest);
    if r.Some? {
      var i :| 0 <= i < |located| && fs.files[located[i]].mtime == r.value;
      assert located[i] in located;
    }
  }

  /** get_newest / get_oldest over nodes that all exist, stated on membership. */
  lemma ExtremeStampPresent(fs: FileSystem, nodes: seq<string>, newest: bool)
    requires forall n <- nodes :: n in fs.files
    ensures ExtremeStamp(fs, nodes, newest).Ok?
    ensures var r := ExtremeStamp(fs, nodes, newest).value;
      (r.None? <==> nodes == [])
      && (r.Some? ==>
            (exists d <- nodes :: fs.files[d].mtime == r.value)
            && forall d <- nodes :: if newest then fs.files[d].mtime <= r.value else r.value <= fs.files[d].mtime)
  {
    assert forall i :: 0 <= i < |nodes| ==> nodes[i] in fs.files;
    ExtremeStampMissing(fs, nodes, newest);
    ExtremeStampBounds(fs, nodes, newest);
    var r := ExtremeStamp(fs, nodes, newest).value;
    if r.Some? {
      var i :| 0 <= i < |nodes| && fs.files[nodes[i]].mtime == r.value;
      assert nodes[i] in nodes;
    }
  }

  // ---------------------------------------------------------------------
  // The dependency cache: one name per line, read back with readline/strip.

  /** Characters Python's str.strip removes. */
  predicate IsSpace(c: char)
  {
    c == ' ' || c == '\t' || c == '\n' || c == '\r' || c as int == 11 || c as int == 12
  }

  function TrimLeft(s: string): (r: string)
    ensures r == [] || !IsSpace(r[0])
    ensures |r| <= |s| && r == s[|s| - |r|..]
  {
    if s != [] && IsSpace(s[0]) then TrimLeft(s[1..]) else s
  }

  function TrimRight(s: string): (r: string)
    ensures r == [] || !IsSpace(r[|r| - 1])
    ensures |r| <= |s| && r == s[..|r|]
  {
    if s != [] && IsSpace(s[|s| - 1]) then TrimRight(s[..|s| - 1]) else s
  }

  /** str.strip(). */
  function Strip(s: string): string { TrimLeft(TrimRight(s)) }

  /** Lines as readline returns them: each keeps its '\n'; the last may lack one. */
  function Lines(text: string): (ls: seq<string>)
    decreases |text|
  {
    if text == [] then []
    else if '\n' !in text then [text]
    else
      var i := NewlineIndex(text);
      [text[..i + 1]] + Lines(text[i + 1..])
  }

  function NewlineIndex(s: string): (i: nat)
    requires '\n' in s
    ensures i < |s| && s[i] == '\n' && '\n' !in s[..i]
  {
    if s[0] == '\n' then 0
    else
      assert '\n' in s[1..] by { var k :| 0 <= k < |s| && s[k] == '\n'; assert s[1..][k - 1] == '\n'; }
      var j := NewlineIndex(s[1..]);
      assert s[..j + 1] == [s[0]] + s[1..][..j];
      j + 1
  }

  /** load_deps: every line, stripped. */
  function LoadDeps(text: string): seq<string>
  {
    var ls := Lines(text);
    seq(|ls|, k requires 0 <= k < |ls| => Strip(ls[k]))
  }

  /** What is_uptodate writes into the cache: each name followed by '\n'. */
  function SaveDeps(names: seq<string>): string
  {
    if names == [] then "" else names[0] + "\n" + SaveDeps(names[1..])
  }

  /** A name that survives the round trip: no newline, no surrounding blanks. */
  predicate Storable(d: string)
  {
    '\n' !in d && (d == [] || (!IsSpace(d[0]) && !IsSpace(d[|d| - 1])))
  }

  lemma StripStorableLine(d: string)
    requires Storable(d)
    ensures Strip(d + "\n") == d
  {
    var line := d + "\n";
    assert line[..|line| - 1] == d;
    assert TrimRight(line) == TrimRight(d);
    assert TrimRight(d) == d;
  }

  lemma {:induction false} NewlineAfter(d: string, rest: string)
    requires '\n' !in d
    ensures '\n' in d + "\n" + rest && NewlineIndex(d + "\n" + rest) == |d|
    decreases |d|
  {
    var text := d + "\n" + rest;
    assert text[|d|] == '\n';
    if d != [] {
      assert text[1..] == d[1..] + "\n" + rest;
      NewlineAfter(d[1..], rest);
    }
  }

  lemma {:induction false} LinesOfSaved(names: seq<string>)
    requires forall d <- names :: Storable(d)
    ensures Lines(SaveDeps(names)) == seq(|names|, k requires 0 <= k < |names| => names[k] + "\n")
    decreases |names|
  {
    if names != [] {
      var d := names[0];
      assert d in names;
      var rest := SaveDeps(names[1..]);
      var text := SaveDeps(names);
      assert text == d + "\n" + rest;
      NewlineAfter(d, rest);
      assert text[..|d| + 1] == d + "\n";
      assert text[|d| + 1..] == rest;
      LinesOfSaved(names[1..]);
    }
  }

  /** Round trip of the cache file: load_deps reads back the names written. */
  lemma DepsRoundTrip(names: seq<string>)
    requires forall d <- names :: Storable(d)
    ensures LoadDeps(SaveDeps(names)) == names
  {
    LinesOfSaved(names);
    forall k | 0 <= k < |names| ensures Strip(names[k] + "\n") == names[k] {
      StripStorableLine(names[k]);
    }
  }
}
