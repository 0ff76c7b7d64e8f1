/**
 * Dynamic options (src/dynopts.c): for each family of option files
 * (profiles, colour schemes, shortcut schemes) a table from profile name
 * to the shared, reference-counted Options object, and the listing of
 * the names available in the search directories.
 */
module DynOpts {
  import opened Wrappers
  import opened FileNames
  import opened KeyFiles
  import opened OptsFile
  import Options

  const DefaultName: string := "Default"

  class DynamicOptions {
    const family: string
    var profiles: map<string, Options.Options>

    /** Every tabled Options object is live, and no object sits under two names. */
    ghost predicate Valid()
      reads this, profiles.Values
    {
      (forall n :: n in profiles ==> profiles[n].Valid())
      && (forall n, m :: n in profiles && m in profiles && n != m ==> profiles[n] != profiles[m])
    }

    /** A new family record: its name and an empty table. */
    constructor (f: string)
      ensures family == f && profiles == map[] && Valid()
    {
      family := f;
      profiles := map[];
    }

    /** dynamic_options_lookup: the object under the name, or NULL (None). */
    function Lookup(name: string): (r: Option<Options.Options>)
      reads this, profiles.Values
      ensures r.Some? <==> name in profiles
      ensures r.Some? ==> r.value == profiles[name]
      ensures Valid() && r.Some? ==> r.value.Valid()
      ensures Valid() && r.Some? ==> forall n :: n in profiles && profiles[n] == r.value ==> n == name
    {
      if name in profiles then Some(profiles[name]) else None
    }

    /**
     * dynamic_options_lookup_and_ref: a name already tabled gets one more
     * reference on its object; an unknown one is opened as
     * family/name with one reference (its key file given as loaded) and
     * tabled under the name.
     */
    method LookupAndRef(name: string, group: string, loaded: KeyFile) returns (opts: Options.Options)
      requires Valid()
      modifies this, profiles.Values
      ensures Valid() && name in profiles && profiles[name] == opts
      ensures Lookup(name) == Some(opts)
      ensures name in old(profiles) ==>
        opts == old(profiles[name]) && profiles == old(profiles) && opts.ref == old(profiles[name].ref) + 1
      ensures name !in old(profiles) ==>
        fresh(opts) && profiles == old(profiles)[name := opts]
        && opts.name == BuildFilename(family, name) && opts.groupName == group && opts.ref == 1
      ensures forall n :: n in old(profiles) && n != name ==> profiles[n].ref == old(profiles[n].ref)
    {
      if name in profiles {
        opts := profiles[name];
        opts.Ref();
      } else {
        opts := new Options.Options.Open(BuildFilename(family, name), group, loaded);
        profiles := profiles[name := opts];
      }
    }

    /** dynamic_options_forget: the name leaves the table; the object is not touched. */
    method Forget(name: string)
      requires Valid()
      modifies this
      ensures Valid() && profiles == old(profiles) - {name}
      ensures Lookup(name) == None
    {
      profiles := profiles - {name};
    }

    /**
     * dynamic_options_unref: FALSE for an unknown name. Otherwise the
     * object loses a reference, the name leaves the table when that was
     * the last reference, and the result says whether the object is gone.
     */
    method Unref(name: string) returns (gone: bool)
      requires Valid()
      modifies this, profiles.Values
      ensures Valid()
      ensures name !in old(profiles) ==> !gone && profiles == old(profiles)
      ensures name in old(profiles) ==>
        (gone <==> old(profiles[name].ref) == 1)
        && old(profiles[name]).ref == old(profiles[name].ref) - 1
        && profiles == (if gone then old(profiles) - {name} else old(profiles))
      ensures forall n :: n in old(profiles) && n != name ==> old(profiles[n]).ref == old(profiles[n].ref)
    {
      if name !in profiles {
        return false;
      }
      var opts := profiles[name];
      if opts.ref == 1 {
        profiles := profiles - {name};
      }
      gone := opts.Unref();
    }

    /**
     * dynamic_options_rename: nothing happens when the old name is not
     * tabled; otherwise its object moves to the new name.
     */
    method Rename(oldName: string, newName: string)
      requires Valid()
      modifies this
      ensures Valid()
      ensures oldName !in old(profiles) ==> profiles == old(profiles)
      ensures oldName in old(profiles) ==> profiles == Renamed(old(profiles), oldName, newName)
    {
      var opts := Lookup(oldName);
      if opts.None? {
        return;
      }
      Forget(oldName);
      profiles := profiles[newName := opts.value];
    }

    /**
     * dynamic_options_list_full with sorted FALSE: "Default", then the
     * names each search directory adds, in the order of the search paths.
     */
    method ListFull(paths: seq<string>, isDir: set<string>, entries: map<string, seq<string>>)
      returns (strv: seq<string>)
      ensures strv == Listing(paths, family, isDir, entries)
    {
      var list := [DefaultName];
      var i := 0;
      while i < |paths|
        invariant 0 <= i <= |paths|
        invariant list == Listing(paths[..i], family, isDir, entries)
      {
        assert paths[..i + 1][..i] == paths[..i];
        list := AddPathContents(list, paths[i], family, isDir, entries);
        i := i + 1;
      }
      assert paths[..i] == paths;
      strv := list;
    }
  }

  /** The table after moving the object under oldName to newName. */
  function Renamed<V>(p: map<string, V>, oldName: string, newName: string): map<string, V>
    requires oldName in p
  {
    (p - {oldName})[newName := p[oldName]]
  }

  /**
   * Renaming moves the object: the new name holds what the old one held,
   * the old name is gone unless it is the new one, and every other name
   * keeps its object.
   */
  lemma RenamedMoves<V>(p: map<string, V>, oldName: string, newName: string)
    requires oldName in p
    ensures newName in Renamed(p, oldName, newName) && Renamed(p, oldName, newName)[newName] == p[oldName]
    ensures oldName != newName ==> oldName !in Renamed(p, oldName, newName)
    ensures forall k :: k != oldName && k != newName ==>
      (k in Renamed(p, oldName, newName) <==> k in p)
      && (k in p ==> Renamed(p, oldName, newName)[k] == p[k])
  {
  }

  /** The process-wide table of families (all_dynopts). */
  class Registry {
    var all: map<string, DynamicOptions>

    /** Every family record is filed under its own family name. */
    ghost predicate Valid()
      reads this, all.Values
    {
      forall f :: f in all ==> all[f].family == f
    }

    constructor ()
      ensures all == map[] && Valid()
    {
      all := map[];
    }

    /**
     * dynamic_options_get: the record already filed for the family, or a
     * new one with an empty table, filed under it.
     */
    method Get(family: string) returns (d: DynamicOptions)
      requires Valid()
      modifies this
      ensures Valid() && family in all && all[family] == d && d.family == family
      ensures family in old(all) ==> d == old(all[family]) && all == old(all)
      ensures family !in old(all) ==> fresh(d) && d.profiles == map[] && all == old(all)[family := d]
    {
      if family in all {
        return all[family];
      }
      d := new DynamicOptions(family);
      all := all[family := d];
    }
  }

  /** Two calls of dynamic_options_get for the same family give the same record. */
  method GetTwice(r: Registry, family: string) returns (d1: DynamicOptions, d2: DynamicOptions)
    requires r.Valid()
    modifies r
    ensures d1 == d2 && d1.family == family
  {
    d1 := r.Get(family);
    d2 := r.Get(family);
  }

  /**
   * dynamic_options_strcmp: "Default" (compared by g_strcmp0, so not
   * NULL) comes before everything else and equals itself; other strings,
   * NULL read as "", are compared by g_utf8_collate of their
   * g_utf8_casefold, given here as collate and casefold.
   */
  function Strcmp(s1: Option<string>, s2: Option<string>,
                  casefold: string -> string, collate: (string, string) -> int): int
  {
    if s1 == Some(DefaultName) then (if s2 == Some(DefaultName) then 0 else -1)
    else if s2 == Some(DefaultName) then 1
    else
      var u1 := if s1.Some? then casefold(s1.value) else "";
      var u2 := if s2.Some? then casefold(s2.value) else "";
      collate(u1, u2)
  }

  /** "Default" sorts before every other string (and NULL) and compares equal only to itself. */
  lemma StrcmpDefaultFirst(s: Option<string>, casefold: string -> string, collate: (string, string) -> int)
    ensures Strcmp(Some(DefaultName), s, casefold, collate) <= 0
    ensures Strcmp(Some(DefaultName), s, casefold, collate) == 0 <==> s == Some(DefaultName)
    ensures s != Some(DefaultName) ==> Strcmp(s, Some(DefaultName), casefold, collate) > 0
  {
  }

  function Sign(x: int): int
  {
    if x < 0 then -1 else if x > 0 then 1 else 0
  }

  /** When collation is antisymmetric, so is the comparison: swapping the arguments flips its sign. */
  lemma StrcmpAntisymmetric(s1: Option<string>, s2: Option<string>,
                            casefold: string -> string, collate: (string, string) -> int)
    requires forall a, b :: Sign(collate(a, b)) == -Sign(collate(b, a))
    ensures Sign(Strcmp(s1, s2, casefold, collate)) == -Sign(Strcmp(s2, s1, casefold, collate))
  {
  }

  /** The names dir's listing yields, in order, that are not directories themselves. */
  function NonDirs(dirname: string, names: seq<string>, isDir: set<string>): (r: seq<string>)
    ensures forall x :: x in r <==> x in names && BuildFilename(dirname, x) !in isDir
    decreases |names|
  {
    if names == [] then []
    else
      var init := NonDirs(dirname, names[..|names| - 1], isDir);
      var last := names[|names| - 1];
      assert names == names[..|names| - 1] + [last];
      if BuildFilename(dirname, last) in isDir then init else init + [last]
  }

  /**
   * What one search path offers: the non-directory entries of
   * path/family when that is a directory that opens (entries holds the
   * listing of each directory g_dir_open can read), otherwise nothing.
   */
  function PathContents(path: string, family: string, isDir: set<string>, entries: map<string, seq<string>>): seq<string>
  {
    var dirname := BuildFilename(path, family);
    if dirname in isDir && dirname in entries then NonDirs(dirname, entries[dirname], isDir) else []
  }

  /** "Default", then what each search path adds that is not listed yet. */
  function Listing(paths: seq<string>, family: string, isDir: set<string>, entries: map<string, seq<string>>): seq<string>
    decreases |paths|
  {
    if paths == [] then [DefaultName]
    else AppendNew(Listing(paths[..|paths| - 1], family, isDir, entries),
                   PathContents(paths[|paths| - 1], family, isDir, entries))
  }

  /**
   * dynopts_add_path_contents_to_list with sorted FALSE: each entry of
   * path/family not yet in the list and not a directory is appended.
   */
  method AddPathContents(list: seq<string>, path: string, family: string,
                         isDir: set<string>, entries: map<string, seq<string>>)
    returns (r: seq<string>)
    ensures r == AppendNew(list, PathContents(path, family, isDir, entries))
  {
    var dirname := BuildFilename(path, family);
    r := list;
    if dirname !in isDir || dirname !in entries {
      return;
    }
    var names := entries[dirname];
    var i := 0;
    while i < |names|
      invariant 0 <= i <= |names|
      invariant r == AppendNew(list, NonDirs(dirname, names[..i], isDir))
    {
      var filename := names[i];
      var listed := Listed(r, filename);
      AddPathContentsStep(list, dirname, names, i, isDir);
      if !listed {
        if BuildFilename(dirname, filename) !in isDir {
          r := r + [filename];
        }
      }
      i := i + 1;
    }
    assert names[..i] == names;
  }

  /** g_list_find_custom with strcmp: whether name is already in the list. */
  method Listed(list: seq<string>, name: string) returns (found: bool)
    ensures found <==> name in list
  {
    var k := 0;
    while k < |list| && list[k] != name
      invariant 0 <= k <= |list|
      invariant forall j :: 0 <= j < k ==> list[j] != name
    {
      k := k + 1;
    }
    found := k < |list|;
  }

  /** One more directory entry: appended exactly when it is new and not a directory. */
  lemma AddPathContentsStep(list: seq<string>, dirname: string, names: seq<string>, i: nat, isDir: set<string>)
    requires i < |names|
    ensures var r := AppendNew(list, NonDirs(dirname, names[..i], isDir));
      AppendNew(list, NonDirs(dirname, names[..i + 1], isDir))
      == if names[i] in r || BuildFilename(dirname, names[i]) in isDir then r else r + [names[i]]
  {
    assert names[..i + 1][..i] == names[..i];
  }

  /**
   * The listing starts with "Default", never names anything twice, and
   * holds exactly "Default" and the names some search path offers.
   */
  lemma ListingSpec(paths: seq<string>, family: string, isDir: set<string>, entries: map<string, seq<string>>)
    ensures var l := Listing(paths, family, isDir, entries);
      |l| >= 1 && l[0] == DefaultName && NoDup(l)
    ensures forall x :: x in Listing(paths, family, isDir, entries) <==>
      x == DefaultName || exists i :: 0 <= i < |paths| && x in PathContents(paths[i], family, isDir, entries)
  {
    ListingShape(paths, family, isDir, entries);
    forall x
      ensures x in Listing(paths, family, isDir, entries) <==> x == DefaultName || Offered(paths, family, isDir, entries, x)
    {
      ListingElement(paths, family, isDir, entries, x);
    }
  }

  /** Some search path offers x. */
  ghost predicate Offered(paths: seq<string>, family: string, isDir: set<string>, entries: map<string, seq<string>>, x: string)
  {
    exists i :: 0 <= i < |paths| && Offers(paths[i], family, isDir, entries, x)
  }

  /** The search path offers x. */
  ghost predicate Offers(path: string, family: string, isDir: set<string>, entries: map<string, seq<string>>, x: string)
  {
    x in PathContents(path, family, isDir, entries)
  }

  lemma {:induction false} ListingShape(paths: seq<string>, family: string, isDir: set<string>, entries: map<string, seq<string>>)
    ensures var l := Listing(paths, family, isDir, entries);
      |l| >= 1 && l[0] == DefaultName && NoDup(l)
    decreases |paths|
  {
    if paths != [] {
      var init := paths[..|paths| - 1];
      var prev := Listing(init, family, isDir, entries);
      var more := PathContents(paths[|paths| - 1], family, isDir, entries);
      ListingShape(init, family, isDir, entries);
      AppendNewPrefix(prev, more);
      AppendNewNoDup(prev, more);
    }
  }

  lemma {:induction false} ListingElement(paths: seq<string>, family: string, isDir: set<string>, entries: map<string, seq<string>>, x: string)
    ensures x in Listing(paths, family, isDir, entries) <==> x == DefaultName || Offered(paths, family, isDir, entries, x)
    decreases |paths|
  {
    if paths != [] {
      var init := paths[..|paths| - 1];
      var prev := Listing(init, family, isDir, entries);
      var more := PathContents(paths[|paths| - 1], family, isDir, entries);
      ListingElement(init, family, isDir, entries, x);
      AppendNewElements(prev, more);
      OfferedSnoc(paths, family, isDir, entries, x);
    }
  }

  /** A path list with one more path offers what the shorter list offers and what the last path offers. */
  lemma OfferedSnoc(paths: seq<string>, family: string, isDir: set<string>, entries: map<string, seq<string>>, x: string)
    requires paths != []
    ensures Offered(paths, family, isDir, entries, x) <==>
      Offered(paths[..|paths| - 1], family, isDir, entries, x) || Offers(paths[|paths| - 1], family, isDir, entries, x)
  {
    ExistsSnoc(paths, paths[..|paths| - 1], p => Offers(p, family, isDir, entries, x));
  }

  /** Some element of a non-empty sequence satisfies f exactly when one before the last does or the last does. */
  lemma ExistsSnoc<T>(s: seq<T>, init: seq<T>, f: T -> bool)
    requires s != [] && init == s[..|s| - 1]
    ensures (exists i :: 0 <= i < |s| && f(s[i])) <==> (exists i :: 0 <= i < |init| && f(init[i])) || f(s[|s| - 1])
  {
    if exists i :: 0 <= i < |s| && f(s[i]) {
      var i :| 0 <= i < |s| && f(s[i]);
      if i < |s| - 1 {
        assert init[i] == s[i];
      }
    }
    if exists i :: 0 <= i < |init| && f(init[i]) {
      var i :| 0 <= i < |init| && f(init[i]);
      assert init[i] == s[i];
    }
  }
}
