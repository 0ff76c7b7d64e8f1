/**
 * A maitch Rule as the build engine sees it, and Rule.is_uptodate: the
 * timestamp comparison of targets against static dependencies and against
 * the implicit dependencies kept in a cache file (".maitch/deps/<target>",
 * one name per line).
 *
 * The rule's dep_func is an oracle: `generated` is what it returns when it
 * is called. The check does not change the file system in place: it returns
 * the file system as it is afterwards, with the cache file rewritten at
 * time `now` when it was regenerated.
 */
module MaitchRule {
  import opened Wrappers
  import opened MaitchFiles

  /** The parts of a Rule the engine reads (names already substituted). */
  datatype Rule = Rule(
    targets: seq<string>,
    deps: seq<string>,
    sources: seq<string>,
    wdeps: seq<string>,
    where: nat,
    hasDepFunc: bool)

  /** list_static_deps: the explicit deps followed by the sources. */
  function ListStaticDeps(rule: Rule): (r: seq<string>)
    ensures |r| == |rule.deps| + |rule.sources|
    ensures r[..|rule.deps|] == rule.deps && r[|rule.deps|..] == rule.sources
    ensures forall x :: x in r <==> x in rule.deps || x in rule.sources
  {
    rule.deps + rule.sources
  }

  /** Python's truth value of a timestamp that may be None: None and 0 are false. */
  predicate Truthy(t: Option<int>) { t.Some? && t.value != 0 }

  /** Python 2's `a > b` on timestamps that may be None: None is below every number. */
  predicate PyGt(a: Option<int>, b: Option<int>)
  {
    a.Some? && (b.None? || a.value > b.value)
  }

  /** Where the implicit dependencies of a rule with first target t are cached. */
  function CachePath(dirs: Dirs, t: string): string
  {
    Join(dirs.buildDir, Join(Join(".maitch", "deps"), t))
  }

  /** The verdict of is_uptodate and the file system after it. */
  datatype Check = Check(result: Result<bool, MaitchError>, after: FileSystem)

  /** The oldest target that can be found (None when none can). */
  function OldestTarget(rule: Rule, fs: FileSystem, dirs: Dirs): Option<int>
  {
    CtxExtremeStamp(fs, dirs, rule.targets, NOWHERE, false)
  }

  /** The newest static dependency that can be found. */
  function NewestStatic(rule: Rule, cached: seq<string>, fs: FileSystem, dirs: Dirs): Option<int>
  {
    CtxExtremeStamp(fs, dirs, cached, rule.where, true)
  }

  /** The verdict from the targets and static dependencies alone. */
  predicate StaticUpToDate(rule: Rule, cached: seq<string>, fs: FileSystem, dirs: Dirs)
  {
    var oldest := OldestTarget(rule, fs, dirs);
    Truthy(oldest)
    && !(Truthy(NewestStatic(rule, cached, fs, dirs)) && PyGt(NewestStatic(rule, cached, fs, dirs), oldest))
  }

  /**
   * Whether is_uptodate regenerates the cache at path: when it is absent,
   * when the newest static dependency is newer than it, or else when a name
   * it lists is newer than it (a listed name that is missing raises).
   */
  function Regenerate(rule: Rule, cached: seq<string>, fs: FileSystem, dirs: Dirs, path: string): Result<bool, MaitchError>
  {
    if path !in fs.files then Ok(true)
    else
      var stamp := fs.files[path].mtime;
      var newest := NewestStatic(rule, cached, fs, dirs);
      if Truthy(newest) && newest.value > stamp then Ok(true)
      else
        match ExtremeStamp(fs, LoadDeps(fs.files[path].text), true)
        case Err(e) => Err(e)
        case Ok(impl) => Ok(PyGt(impl, Some(stamp)))
  }

  /** The file system after the cache at path is (or is not) rewritten at time now. */
  function Rewritten(fs: FileSystem, path: string, rebuild: bool, generated: seq<string>, now: int): FileSystem
  {
    if rebuild then FileSystem(fs.files[path := File(now, SaveDeps(generated))]) else fs
  }

  /** The part of is_uptodate that runs for a rule with a dep_func and a first target. */
  function ImplicitCheck(rule: Rule, cached: seq<string>, fs: FileSystem, dirs: Dirs, generated: seq<string>, now: int): Check
    requires rule.targets != []
  {
    var path := CachePath(dirs, rule.targets[0]);
    match Regenerate(rule, cached, fs, dirs, path)
    case Err(e) => Check(Err(e), fs)
    case Ok(rebuild) =>
      var after := Rewritten(fs, path, rebuild, generated, now);
      var loaded := if rebuild && generated != [] then generated else LoadDeps(after.files[path].text);
      match ExtremeStamp(after, loaded, true)
      case Err(e) => Check(Err(e), after)
      case Ok(newestDyn) =>
        Check(Ok(StaticUpToDate(rule, cached, fs, dirs) && !PyGt(newestDyn, OldestTarget(rule, fs, dirs))), after)
  }

  /**
   * Rule.is_uptodate, given the cached static dependencies. Not up to date
   * without static deps, without a target, or with a newer static dep; with
   * a dep_func the cache is regenerated when absent or stale and a newer
   * implicit dependency also makes the rule stale.
   */
  function IsUpToDate(rule: Rule, cached: seq<string>, fs: FileSystem, dirs: Dirs, generated: seq<string>, now: int): Check
  {
    if cached == [] then Check(Ok(false), fs)
    else if !rule.hasDepFunc then Check(Ok(StaticUpToDate(rule, cached, fs, dirs)), fs)
    else if rule.targets == [] then Check(Err(IndexError), fs)
    else ImplicitCheck(rule, cached, fs, dirs, generated, now)
  }

  // ---------------------------------------------------------------------
  // Properties

  /** Every timestamp is positive, as on a real file system. */
  predicate PositiveStamps(fs: FileSystem)
  {
    forall p <- fs.files :: fs.files[p].mtime > 0
  }

  /** A rule with no static dependencies is always rebuilt, and nothing is written. */
  lemma NoStaticDepsNotUpToDate(rule: Rule, fs: FileSystem, dirs: Dirs, generated: seq<string>, now: int)
    ensures IsUpToDate(rule, [], fs, dirs, generated, now) == Check(Ok(false), fs)
  {
  }

  /** Up to date implies static deps exist and the static verdict holds. */
  lemma UpToDateNeedsStatic(rule: Rule, cached: seq<string>, fs: FileSystem, dirs: Dirs, generated: seq<string>, now: int)
    requires IsUpToDate(rule, cached, fs, dirs, generated, now).result == Ok(true)
    ensures cached != [] && StaticUpToDate(rule, cached, fs, dirs)
  {
  }

  /** A rule none of whose targets can be found is not up to date. */
  lemma NoTargetNotUpToDate(rule: Rule, cached: seq<string>, fs: FileSystem, dirs: Dirs, generated: seq<string>, now: int)
    requires Located(fs, dirs, rule.targets, NOWHERE) == []
    ensures IsUpToDate(rule, cached, fs, dirs, generated, now).result != Ok(true)
  {
    CtxExtremeStampBounds(fs, dirs, rule.targets, NOWHERE, false);
    if IsUpToDate(rule, cached, fs, dirs, generated, now).result == Ok(true) {
      UpToDateNeedsStatic(rule, cached, fs, dirs, generated, now);
    }
  }

  /** A found static dependency newer than a found target makes the rule stale. */
  lemma NewerStaticDepNotUpToDate(rule: Rule, cached: seq<string>, fs: FileSystem, dirs: Dirs,
                                  generated: seq<string>, now: int, t: string, d: string)
    requires PositiveStamps(fs)
    requires t in Located(fs, dirs, rule.targets, NOWHERE) && d in Located(fs, dirs, cached, rule.where)
    requires fs.files[d].mtime > fs.files[t].mtime
    ensures IsUpToDate(rule, cached, fs, dirs, generated, now).result != Ok(true)
  {
    CtxExtremeStampBounds(fs, dirs, rule.targets, NOWHERE, false);
    CtxExtremeStampBounds(fs, dirs, cached, rule.where, true);
    assert !StaticUpToDate(rule, cached, fs, dirs);
    if IsUpToDate(rule, cached, fs, dirs, generated, now).result == Ok(true) {
      UpToDateNeedsStatic(rule, cached, fs, dirs, generated, now);
    }
  }

  /**
   * On positive timestamps the static verdict holds exactly when some
   * target is found and no found static dep is newer than a found target.
   */
  lemma StaticVerdictMeaning(rule: Rule, cached: seq<string>, fs: FileSystem, dirs: Dirs)
    requires PositiveStamps(fs)
    ensures var targets := Located(fs, dirs, rule.targets, NOWHERE);
      var deps := Located(fs, dirs, cached, rule.where);
      StaticUpToDate(rule, cached, fs, dirs) <==>
        targets != [] && forall d <- deps, t <- targets :: fs.files[d].mtime <= fs.files[t].mtime
  {
    var targets := Located(fs, dirs, rule.targets, NOWHERE);
    var deps := Located(fs, dirs, cached, rule.where);
    CtxExtremeStampBounds(fs, dirs, rule.targets, NOWHERE, false);
    CtxExtremeStampBounds(fs, dirs, cached, rule.where, true);
    var oldest := OldestTarget(rule, fs, dirs);
    var newest := NewestStatic(rule, cached, fs, dirs);
    if targets != [] && deps != [] {
      var t0 :| t0 in targets && fs.files[t0].mtime == oldest.value;
      var d0 :| d0 in deps && fs.files[d0].mtime == newest.value;
      assert StaticUpToDate(rule, cached, fs, dirs) <==> newest.value <= oldest.value;
    }
  }

  /**
   * Without a dep_func nothing is written and nothing raises: up to date
   * exactly when there are static deps and the static verdict holds.
   */
  lemma WithoutDepFunc(rule: Rule, cached: seq<string>, fs: FileSystem, dirs: Dirs, generated: seq<string>, now: int)
    requires !rule.hasDepFunc
    ensures IsUpToDate(rule, cached, fs, dirs, generated, now)
      == Check(Ok(cached != [] && StaticUpToDate(rule, cached, fs, dirs)), fs)
  {
  }

  /** Regenerate, stated on the cache's age when every name it lists exists. */
  lemma RegenerateMeaning(rule: Rule, cached: seq<string>, fs: FileSystem, dirs: Dirs, path: string)
    requires path in fs.files ==> forall n <- LoadDeps(fs.files[path].text) :: n in fs.files
    ensures Regenerate(rule, cached, fs, dirs, path) == Ok(
      path !in fs.files
      || (Truthy(NewestStatic(rule, cached, fs, dirs)) && NewestStatic(rule, cached, fs, dirs).value > fs.files[path].mtime)
      || (exists n <- LoadDeps(fs.files[path].text) :: fs.files[n].mtime > fs.files[path].mtime))
  {
    if path in fs.files {
      var stamp := fs.files[path].mtime;
      var listed := LoadDeps(fs.files[path].text);
      ExtremeStampPresent(fs, listed, true);
      var impl := ExtremeStamp(fs, listed, true).value;
      if impl.Some? {
        var n0 :| n0 in listed && fs.files[n0].mtime == impl.value;
      }
    }
  }

  /** A listed implicit dependency that cannot be found makes is_uptodate raise. */
  lemma MissingImplicitDepRaises(rule: Rule, cached: seq<string>, fs: FileSystem, dirs: Dirs, generated: seq<string>, now: int)
    requires cached != [] && rule.hasDepFunc && rule.targets != []
    requires var path := CachePath(dirs, rule.targets[0]);
      path in fs.files && !Truthy(NewestStatic(rule, cached, fs, dirs))
      && exists n <- LoadDeps(fs.files[path].text) :: n !in fs.files
    ensures IsUpToDate(rule, cached, fs, dirs, generated, now).result.Err?
  {
    var path := CachePath(dirs, rule.targets[0]);
    var listed := LoadDeps(fs.files[path].text);
    var n :| n in listed && n !in fs.files;
    var i :| 0 <= i < |listed| && listed[i] == n;
    ExtremeStampMissing(fs, listed, true);
    assert ExtremeStamp(fs, listed, true).Err?;
    assert Regenerate(rule, cached, fs, dirs, path).Err?;
    assert ImplicitCheck(rule, cached, fs, dirs, generated, now).result.Err?;
  }

  /**
   * With a dep_func, the cache is rewritten with one line per generated
   * name exactly when it is absent, older than the newest static dep, or
   * older than some name it lists (all listed names existing); otherwise
   * the file system is left alone.
   */
  lemma CacheRegeneration(rule: Rule, cached: seq<string>, fs: FileSystem, dirs: Dirs, generated: seq<string>, now: int)
    requires cached != [] && rule.hasDepFunc && rule.targets != []
    requires var path := CachePath(dirs, rule.targets[0]);
      path in fs.files ==> forall n <- LoadDeps(fs.files[path].text) :: n in fs.files
    ensures var path := CachePath(dirs, rule.targets[0]);
      var stale := path !in fs.files
        || (Truthy(NewestStatic(rule, cached, fs, dirs)) && NewestStatic(rule, cached, fs, dirs).value > fs.files[path].mtime)
        || (exists n <- LoadDeps(fs.files[path].text) :: fs.files[n].mtime > fs.files[path].mtime);
      IsUpToDate(rule, cached, fs, dirs, generated, now).after
        == if stale then FileSystem(fs.files[path := File(now, SaveDeps(generated))]) else fs
  {
    var path := CachePath(dirs, rule.targets[0]);
    RegenerateMeaning(rule, cached, fs, dirs, path);
  }

  /**
   * Up to date with a dep_func means, besides the static verdict, that every
   * implicit dependency read back from the cache exists and is no newer
   * than the oldest target.
   */
  lemma UpToDateWithDepFunc(rule: Rule, cached: seq<string>, fs: FileSystem, dirs: Dirs, generated: seq<string>, now: int)
    requires rule.hasDepFunc && forall g <- generated :: Storable(g)
    requires IsUpToDate(rule, cached, fs, dirs, generated, now).result == Ok(true)
    ensures cached != [] && StaticUpToDate(rule, cached, fs, dirs) && rule.targets != []
    ensures var path := CachePath(dirs, rule.targets[0]);
      var after := IsUpToDate(rule, cached, fs, dirs, generated, now).after;
      path in after.files
      && forall n <- LoadDeps(after.files[path].text) ::
           n in after.files && after.files[n].mtime <= OldestTarget(rule, fs, dirs).value
  {
    UpToDateNeedsStatic(rule, cached, fs, dirs, generated, now);
    var path := CachePath(dirs, rule.targets[0]);
    var rebuild := Regenerate(rule, cached, fs, dirs, path).value;
    var after := Rewritten(fs, path, rebuild, generated, now);
    var loaded := if rebuild && generated != [] then generated else LoadDeps(after.files[path].text);
    if rebuild {
      DepsRoundTrip(generated);
    }
    assert loaded == LoadDeps(after.files[path].text);
    ExtremeStampMissing(after, loaded, true);
    ExtremeStampPresent(after, loaded, true);
  }
}
