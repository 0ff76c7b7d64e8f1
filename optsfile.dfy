/**
 * The options-file layer (src/optsfile.c): the ordered list of
 * directories searched for option files, the search itself, the argument
 * check before creating directories, and the lookups with defaults over
 * a key file.
 */
module OptsFile {
  import opened Wrappers
  import opened KeyFiles
  import opened FileNames
  import opened Decimal

  /** No string occurs twice. */
  predicate NoDup(v: seq<string>)
  {
    forall i, j :: 0 <= i < j < |v| ==> v[i] != v[j]
  }

  /** acc followed by each element of xs, in order, that is not already present by then. */
  function AppendNew(acc: seq<string>, xs: seq<string>): seq<string>
    decreases |xs|
  {
    if xs == [] then acc
    else
      var r := AppendNew(acc, xs[..|xs| - 1]);
      if xs[|xs| - 1] in r then r else r + [xs[|xs| - 1]]
  }

  /** acc is kept whole at the front. */
  lemma {:induction false} AppendNewPrefix(acc: seq<string>, xs: seq<string>)
    ensures |acc| <= |AppendNew(acc, xs)| <= |acc| + |xs|
    ensures AppendNew(acc, xs)[..|acc|] == acc
    decreases |xs|
  {
    if xs != [] {
      AppendNewPrefix(acc, xs[..|xs| - 1]);
    }
  }

  /** The result holds exactly the strings of acc and of xs. */
  lemma {:induction false} AppendNewElements(acc: seq<string>, xs: seq<string>)
    ensures forall x :: x in AppendNew(acc, xs) <==> x in acc || x in xs
    decreases |xs|
  {
    if xs != [] {
      var init := xs[..|xs| - 1];
      AppendNewElements(acc, init);
      assert xs == init + [xs[|xs| - 1]];
    }
  }

  /** Appending to a list without repeats keeps it without repeats. */
  lemma {:induction false} AppendNewNoDup(acc: seq<string>, xs: seq<string>)
    requires NoDup(acc)
    ensures NoDup(AppendNew(acc, xs))
    decreases |xs|
  {
    if xs != [] {
      AppendNewNoDup(acc, xs[..|xs| - 1]);
    }
  }

  /** When xs adds nothing new, the result is acc itself. */
  lemma {:induction false} AppendNewNothingNew(acc: seq<string>, xs: seq<string>)
    requires forall x :: x in xs ==> x in acc
    ensures AppendNew(acc, xs) == acc
    decreases |xs|
  {
    if xs != [] {
      assert forall x :: x in xs[..|xs| - 1] ==> x in xs;
      AppendNewNothingNew(acc, xs[..|xs| - 1]);
      assert xs[|xs| - 1] in xs;
    }
  }

  /**
   * options_file_join_strvs: None (NULL) when both vectors are empty;
   * otherwise all of v1, then each string of v2 not already in the result.
   */
  method JoinStrvs(v1: seq<string>, v2: seq<string>) returns (r: Option<seq<string>>)
    ensures r.None? <==> v1 == [] && v2 == []
    ensures r.Some? ==> r.value == AppendNew(v1, v2)
  {
    if |v2| == 0 && |v1| == 0 {
      return None;
    }
    var result := new string[|v1| + |v2| + 1](_ => "");
    var n := 0;
    while n < |v1|
      invariant 0 <= n <= |v1| && result[..n] == v1[..n]
    {
      result[n] := v1[n];
      n := n + 1;
    }
    var vEnd := |v1|;
    n := 0;
    while n < |v2|
      invariant 0 <= n <= |v2|
      invariant |v1| <= vEnd <= |v1| + n
      invariant result[..vEnd] == AppendNew(v1, v2[..n])
    {
      assert v2[..n + 1][..n] == v2[..n];
      var m := 0;
      while m < vEnd && v2[n] != result[m]
        invariant 0 <= m <= vEnd
        invariant forall j :: 0 <= j < m ==> result[j] != v2[n]
      {
        m := m + 1;
      }
      if m == vEnd {
        result[vEnd] := v2[n];
        vEnd := vEnd + 1;
      } else {
        assert result[..vEnd][m] == v2[n];
      }
      n := n + 1;
    }
    assert v2[..n] == v2;
    return Some(result[..vEnd]);
  }

  /** The search path list, built once: NULL until options_file_init_paths runs. */
  class SearchPaths {
    var pathv: Option<seq<string>>

    constructor ()
      ensures pathv == None
    {
      pathv := None;
    }

    /** options_file_prepend_str_to_v: s first, then the old paths not equal to it. */
    method PrependStr(s: string)
      modifies this
      ensures pathv == Some(AppendNew([s], old(OrEmpty(pathv))))
    {
      var joined := JoinStrvs([s], OrEmpty(pathv));
      pathv := joined;
    }

    /**
     * options_file_init_paths, when no list exists yet: the system
     * configuration directories with the leaf directory appended, then
     * "Config" under the application directory or the package data
     * directory ahead of them, then the user's configuration directory
     * ahead of everything. A list that already exists is kept.
     */
    method InitPaths(systemDirs: seq<string>, appdir: Option<string>, pkgDataDir: string,
                     userConfigDir: string, leafDir: string)
      modifies this
      ensures old(pathv).Some? ==> pathv == old(pathv)
      ensures old(pathv).None? ==>
        pathv == Some(PathOrder(systemDirs, ConfigDir(appdir, pkgDataDir), userConfigDir, leafDir))
    {
      if pathv.Some? {
        return;
      }
      var sys := JoinStrvs(systemDirs, []);
      assert systemDirs[..|systemDirs|] == systemDirs;
      if sys.Some? {
        AppendNewNothingNew(systemDirs, []);
        var withLeaf := AppendLeafToPathv(sys.value, leafDir);
        pathv := Some(withLeaf);
      } else {
        pathv := None;
      }
      PrependStr(ConfigDir(appdir, pkgDataDir));
      PrependStr(BuildFilename(userConfigDir, leafDir));
    }
  }

  /** A NULL vector read as an empty one. */
  function OrEmpty(v: Option<seq<string>>): seq<string>
  {
    if v.Some? then v.value else []
  }

  /** The shared configuration directory: "Config" under the application directory, or under the package data directory. */
  function ConfigDir(appdir: Option<string>, pkgDataDir: string): string
  {
    BuildFilename(if appdir.Some? then appdir.value else pkgDataDir, "Config")
  }

  /** Each directory with the leaf appended. */
  function WithLeaf(dirs: seq<string>, leaf: string): (r: seq<string>)
    ensures |r| == |dirs|
    ensures forall i :: 0 <= i < |dirs| ==> r[i] == BuildFilename(dirs[i], leaf)
  {
    if dirs == [] then [] else WithLeaf(dirs[..|dirs| - 1], leaf) + [BuildFilename(dirs[|dirs| - 1], leaf)]
  }

  /** options_file_append_leaf_to_pathv: each path gets the leaf appended, in place. */
  method AppendLeafToPathv(pathv: seq<string>, leaf: string) returns (r: seq<string>)
    ensures r == WithLeaf(pathv, leaf)
  {
    var a := new string[|pathv|](i requires 0 <= i < |pathv| => pathv[i]);
    var n := 0;
    while n < a.Length
      invariant 0 <= n <= a.Length
      invariant a[..] == WithLeaf(pathv[..n], leaf) + pathv[n..]
    {
      WithLeafStep(pathv, n, leaf);
      ReplaceFirst(WithLeaf(pathv[..n], leaf), pathv[n..], BuildFilename(pathv[n], leaf));
      a[n] := BuildFilename(a[n], leaf);
      n := n + 1;
    }
    assert pathv[..n] == pathv;
    return a[..];
  }

  lemma WithLeafStep(p: seq<string>, n: nat, leaf: string)
    requires n < |p|
    ensures WithLeaf(p[..n + 1], leaf) == WithLeaf(p[..n], leaf) + [BuildFilename(p[n], leaf)]
  {
    assert p[..n + 1][..n] == p[..n];
  }

  lemma ReplaceFirst(w: seq<string>, rest: seq<string>, x: string)
    requires rest != []
    ensures (w + rest)[|w| := x] == (w + [x]) + rest[1..]
  {
  }

  /** The search order that options_file_init_paths builds. */
  function PathOrder(systemDirs: seq<string>, configDir: string, userConfigDir: string, leafDir: string): seq<string>
  {
    AppendNew([BuildFilename(userConfigDir, leafDir)], AppendNew([configDir], WithLeaf(systemDirs, leafDir)))
  }

  /**
   * The user's directory comes first, the shared configuration directory
   * second unless it is the same, every directory is searched, and none
   * twice.
   */
  lemma PathOrderSpec(systemDirs: seq<string>, configDir: string, userConfigDir: string, leafDir: string)
    ensures var p := PathOrder(systemDirs, configDir, userConfigDir, leafDir);
      && p[0] == BuildFilename(userConfigDir, leafDir)
      && (configDir != p[0] ==> |p| >= 2 && p[1] == configDir)
      && NoDup(p)
      && forall x :: x in p <==>
           x == BuildFilename(userConfigDir, leafDir) || x == configDir || x in WithLeaf(systemDirs, leafDir)
  {
    PathOrderHead(systemDirs, configDir, userConfigDir, leafDir);
    var user := BuildFilename(userConfigDir, leafDir);
    var inner := AppendNew([configDir], WithLeaf(systemDirs, leafDir));
    AppendNewNoDup([user], inner);
    AppendNewElements([user], inner);
    AppendNewElements([configDir], WithLeaf(systemDirs, leafDir));
  }

  /** The first two entries of PathOrder. */
  lemma PathOrderHead(systemDirs: seq<string>, configDir: string, userConfigDir: string, leafDir: string)
    ensures var p := PathOrder(systemDirs, configDir, userConfigDir, leafDir);
      && |p| >= 1 && p[0] == BuildFilename(userConfigDir, leafDir)
      && (configDir != p[0] ==> |p| >= 2 && p[1] == configDir)
  {
    var user := BuildFilename(userConfigDir, leafDir);
    var inner := AppendNew([configDir], WithLeaf(systemDirs, leafDir));
    var p := AppendNew([user], inner);
    AppendNewPrefix([user], inner);
    assert p[0] == p[..1][0];
    if configDir != user {
      AppendNewPrefix([configDir], WithLeaf(systemDirs, leafDir));
      assert inner[0] == inner[..1][0] == configDir;
      assert inner == [configDir] + inner[1..];
      AppendNewSecond(user, configDir, inner[1..]);
    }
  }

  /** A new second element stays second. */
  lemma {:induction false} AppendNewSecond(a: string, b: string, xs: seq<string>)
    requires a != b
    ensures |AppendNew([a], [b] + xs)| >= 2 && AppendNew([a], [b] + xs)[1] == b
    decreases |xs|
  {
    if xs == [] {
      assert [b] + xs == [b];
      assert AppendNew([a], [b]) == AppendNew([a], []) + [b];
    } else {
      var ys := [b] + xs;
      assert ys[..|ys| - 1] == [b] + xs[..|xs| - 1];
      AppendNewSecond(a, b, xs[..|xs| - 1]);
    }
  }

  /**
   * options_file_filename_from_pathv: the leaf under the first directory
   * of pathv, in order, where it exists, or None (NULL). existing stands
   * for the file system's answer to g_file_test(G_FILE_TEST_EXISTS).
   */
  method FilenameFromPathv(leafname: string, pathv: seq<string>, existing: set<string>)
    returns (r: Option<string>)
    ensures r.None? <==> forall i :: 0 <= i < |pathv| ==> BuildFilename(pathv[i], leafname) !in existing
    ensures r.Some? ==> r.value in existing && exists i :: FirstFoundAt(pathv, leafname, existing, i, r.value)
  {
    var n := 0;
    while n < |pathv|
      invariant 0 <= n <= |pathv|
      invariant forall j :: 0 <= j < n ==> BuildFilename(pathv[j], leafname) !in existing
    {
      var filename := BuildFilename(pathv[n], leafname);
      if filename in existing {
        assert FirstFoundAt(pathv, leafname, existing, n, filename);
        return Some(filename);
      }
      n := n + 1;
    }
    return None;
  }

  /** filename is the leaf under pathv[i], and the leaf exists under no earlier directory. */
  predicate FirstFoundAt(pathv: seq<string>, leafname: string, existing: set<string>, i: int, filename: string)
  {
    0 <= i < |pathv| && filename == BuildFilename(pathv[i], leafname)
    && forall j :: 0 <= j < i ==> BuildFilename(pathv[j], leafname) !in existing
  }

  /**
   * The argument check of options_file_mkdir_with_parents: NULL, the
   * empty name, "." and "/" are refused.
   */
  predicate ValidDirname(dirname: Option<string>)
  {
    dirname.Some? && dirname.value != [] && !(|dirname.value| == 1 && (dirname.value[0] == '.' || dirname.value[0] == '/'))
  }

  /**
   * options_file_mkdir_with_parents: TRUE when the name is acceptable and
   * g_mkdir_with_parents, whose result is given as created, succeeds.
   */
  function MkdirWithParents(dirname: Option<string>, created: bool): (ok: bool)
    ensures ok ==> created
    ensures dirname == None || dirname == Some("") || dirname == Some(".") || dirname == Some("/") ==> !ok
    ensures dirname.Some? && |dirname.value| >= 2 && created ==> ok
  {
    ValidDirname(dirname) && created
  }

  /**
   * options_file_lookup_string_with_default over the key file's entries:
   * the stored string, or the default (which may be NULL) when the key is
   * missing or the string is empty.
   */
  function LookupStringWithDefault(kf: Entries, group: string, key: string, default: Option<string>): (r: Option<string>)
    ensures (group, key) in kf && kf[(group, key)] != [] ==> r == Some(kf[(group, key)])
    ensures (group, key) !in kf || kf[(group, key)] == [] ==> r == default
  {
    match GetString(kf, group, key)
    case Ok(s) => if s != [] then Some(s) else default
    case Err(_) => default
  }

  /** options_file_lookup_int_with_default over the key file's entries: the stored integer, or the default on any error. */
  function LookupIntWithDefault(kf: Entries, group: string, key: string, default: int): (r: int)
    ensures (group, key) !in kf ==> r == default
    ensures (group, key) in kf && ParseInteger(kf[(group, key)]).Ok? ==>
      r == ParseInteger(kf[(group, key)]).value && INT_MIN <= r <= INT_MAX
    ensures (group, key) in kf && ParseInteger(kf[(group, key)]).Err? ==> r == default
  {
    match GetInteger(kf, group, key)
    case Ok(v) => v
    case Err(_) => default
  }

  /** An int stored with g_key_file_set_integer reads back, whatever else the file holds. */
  lemma LookupIntAfterSet(kf: Entries, group: string, key: string, value: int, default: int)
    requires INT_MIN <= value <= INT_MAX
    ensures LookupIntWithDefault(kf[(group, key) := IntToString(value)], group, key, default) == value
  {
    ParseIntegerOfIntToString(value);
  }
}
