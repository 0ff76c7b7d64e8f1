# roxterm and maitch, modelled in Dafny

This project models the core of the roxterm terminal emulator and of
maitch, the Python build tool that roxterm uses, and proves properties of
that model.

On the maitch side (`maitch.py`) the model covers:

- **Variable substitution** (`MaitchStrings`): `subst` with its three modes for undefined names, `process_nodes`, `make_var_name`, `change_suffix` and suffix rules' `transform`.
- **The file-system queries a rule makes** (`MaitchFiles`): `find_source`, both `get_extreme_stamp` variants and the dependency-cache loader. The file system is a snapshot map from path to modification time.
- **A rule's staleness decision** (`MaitchRule`): `list_static_deps` and `is_uptodate`.
- **The build engine** (`MaitchBuild`, `MaitchBuildInv`, `MaitchBuildRun`):
  - `BuildGroup` resolves targets to jobs, links each job to the jobs it waits for, and proves that the links cannot form a cycle.
  - The `Builder` queue hands out ready jobs, unblocks the jobs that waited for a finished one, and cancels what depends on a failure.

On the roxterm side one module models each C file:

- **Text and numbers:** the digit and number helpers that both sides share (`Decimal`), NUL-terminated strings (`CStrings`) and path joining (`FileNames`).
- **Option files:** GLib key files (`KeyFiles`), the option-file search path and loader (`OptsFile`), option sets (`Options`), the global options (`GlobalOpts`), the registry of profiles and other options (`DynOpts`), the character-encodings list (`Encodings`) and the choice of a unique profile name (`GetName`).
- **Small containers:** the reference-counted string vector (`StrvRef`) and the int-to-pointer map (`IntPtrMap`).
- **The OSC 52 clipboard shim** (`ShimBuffers`, `ShimSlices`, `ShimQueue`, `ShimFilter`): its byte buffers and queue, and the filter that recognises and blocks OSC 52 sequences.
- **Launching things:** the error-reporting protocol between the spawner and its child (`Spawn`) and the choice of a handler command for a URI (`Uri`).
- **Colour schemes** (`ColourSchemes`): palettes and the scheme cache.
- **The configuration dialog's lists** (`Configlet`).
- **Windows and tabs:**
  - the tab's close button (`TabButtons`) and the menu tree with its accelerators (`MenuTrees`);
  - window-level tab handling in `multitab.c`: title templates, zoom, moving and shading tabs, and status icons (`MultiTabs`);
  - from `roxterm.c`: the child environment and cursor-blink setting (`RoxtermEnv`), drag-and-drop text (`RoxtermDrag`), `--geometry` parsing (`RoxtermGeometry`) and the session-file parser (`RoxtermSession`).
- **Shared wrappers** (`Wrappers`): the usual `Option` and `Result` datatypes.

Code that works by changing state is modelled as classes with `modifies` frames. Examples are the build group, the builder queue, the OSC 52 buffers and filter, the dynamic-options registry, the multi-tab window and the session parser. Code that only computes is modelled as functions and lemmas.

## Model

| member | source | states |
|---|---|---|
| MaitchStrings.SubstFrom | maitch.py:2101-2132 | definition of one subst pass from an index (no contract of its own); its meaning is stated by SubstNoMatch, SubstCount, SubstErrors, BlankIsFatalWithBlanks, BlankNeverRaises and SkipKeepsText |
| MaitchStrings.Transform | maitch.py:1492-1504 | definition of the rule's transform (no contract of its own); its meaning is stated by TransformShape |
| MaitchStrings.TransformOne | maitch.py:1494-1503 | definition of one source's target name (no contract of its own); its meaning is stated by TransformOneShape |
| MaitchStrings.Mangle | maitch.py:2247-2252 | definition of mangle (no contract of its own); its meaning is stated by MangleKeepsNames |
| MaitchStrings.ChangeSuffix | maitch.py:2259-2271 | definition of change_suffix (no contract of its own); its meaning is stated by ChangeSuffixRoundTrip and ChangeSuffixEmptyOld |
| MaitchStrings.Words | maitch.py:2136-2145 | definition of the whitespace split (no contract of its own); its meaning is stated by WordsPartition and WordsOfJoin |
| MaitchStrings.Subst | maitch.py:2101-2132 | definition of subst (no contract of its own); its meaning is stated by SubstReachesFixpoint |
| MaitchStrings.NameEnd | maitch.py:2098-2099 | a variable name is the longest run of letters, digits and underscores |
| MaitchStrings.MatchAt | maitch.py:2098-2099 | a match is "${name}" or "@name@", with an optional '-', and a non-empty name of name characters |
| MaitchStrings.SubstNoMatch | maitch.py:2101-2132 | text without a reference is returned unchanged with no substitutions |
| MaitchStrings.SubstCount | maitch.py:2129 | the substitution count is the number of references, and it is zero exactly when nothing matches |
| MaitchStrings.FirstMissing | maitch.py:2115-2116 | nothing is missing exactly when every name is defined; otherwise the first undefined name in order |
| MaitchStrings.SubstErrors | maitch.py:2109-2116 | substitution fails exactly in the fatal mode when some referenced name is undefined, with a key error for the first such name |
| MaitchStrings.Blanked | maitch.py:2117-2122 | each listed name maps to its value, or to the empty string when undefined |
| MaitchStrings.BlankIsFatalWithBlanks | maitch.py:2117-2122 | blank mode gives what fatal mode gives with undefined names set to the empty string |
| MaitchStrings.BlankIsFatalAtMatch | maitch.py:2117-2122 | the same, at a position where a reference starts |
| MaitchStrings.BlankNeverRaises | maitch.py:2117-2122 | blank mode never fails, and equals fatal mode over the blanked environment |
| MaitchStrings.SkipKeepsText | maitch.py:2119-2122 | skip mode with no variables leaves the text as it is and counts its references |
| MaitchStrings.SkipPlainStep | maitch.py:2119-2122 | skip mode copies a character that starts no reference |
| MaitchStrings.SkipMatchStep | maitch.py:2119-2122 | skip mode puts an undefined reference back unchanged |
| MaitchStrings.SubstReachesFixpoint | maitch.py:2130-2132 | recursive substitution that finishes leaves no reference in its result |
| MaitchStrings.WordLength | maitch.py:2142-2143 | a word runs to the first white space |
| MaitchStrings.NonBlankWord | maitch.py:2142-2143 | the non-blank characters of a word followed by text are the word and those of the text |
| MaitchStrings.WordsPartition | maitch.py:2136-2145 | split() gives non-empty words without white space whose concatenation is the non-blank characters of the string |
| MaitchStrings.WordLengthOfWord | maitch.py:2142-2143 | a word followed by space or the end has its own length as word length |
| MaitchStrings.WordsOfJoin | maitch.py:2136-2145 | splitting words joined by spaces gives those words back |
| MaitchStrings.ChangeSuffixRoundTrip | maitch.py:2259-2271 | one result per file; files without the old suffix are kept, the others get the new suffix, and changing back restores the list |
| MaitchStrings.ChangeSuffixEmptyOld | maitch.py:2267-2269 | with an empty old suffix every file becomes just the new suffix |
| MaitchStrings.MakeVarName | maitch.py:2240-2254 | an empty template fails; otherwise a valid variable name, one '_' longer for a leading digit, each character kept or made '_', upper-cased when asked |
| MaitchStrings.MangleKeepsNames | maitch.py:2248-2252 | characters already allowed in names are kept |
| MaitchStrings.UpperKeepsUpper | maitch.py:2253-2254 | upper-casing text without lower-case letters changes nothing |
| MaitchStrings.MakeVarNameIdempotent | maitch.py:2240-2254 | making a variable name from a variable name gives the same name |
| MaitchStrings.StripExtension | maitch.py:1495 | rsplit at the last '.' keeps the text before it, or the whole string when there is no '.' |
| MaitchStrings.PrefixLeafTail | maitch.py:1496-1501 | the prefix is added to the leaf name only |
| MaitchStrings.TransformOneShape | maitch.py:1492-1504 | a target ends in "." and the suffix, and its leaf is the prefix followed by the source's leaf without extension |
| MaitchStrings.StemAndSuffix | maitch.py:1503 | the stem can be read back from a stem with its suffix |
| MaitchStrings.TransformShape | maitch.py:1492-1504 | one target per source, in order, each with the rule's suffix |
| MaitchFiles.SaveDeps | maitch.py:1455-1458 | definition of the saved dependency file (no contract of its own); its meaning is stated by LinesOfSaved and DepsRoundTrip |
| MaitchFiles.LoadDeps | maitch.py:2320-2331 | definition of load_deps (no contract of its own); its meaning is stated by DepsRoundTrip |
| MaitchFiles.ExtremeStamp | maitch.py:2292-2307 | definition of the oldest/newest stamp search (no contract of its own); its meaning is stated by ExtremeStampBounds and ExtremeStampMissing |
| MaitchFiles.LeafStart | maitch.py:2279 | the leaf name starts after the last '/' |
| MaitchFiles.Split | maitch.py:2279 | the tail of a split is the leaf name |
| MaitchFiles.LeafStartAfterSlash | maitch.py:2279-2280 | a leaf after a directory ending in '/' starts right after it |
| MaitchFiles.SplitJoinTail | maitch.py:2279-2280 | joining a directory and a leaf and splitting again gives that leaf |
| MaitchFiles.Candidates | maitch.py:912-937 | the places searched start with the name itself and include the build directory |
| MaitchFiles.FindSource | maitch.py:912-937 | the first existing candidate is returned; a missing name is returned unchanged when not fatal, and is a not-found error when fatal or absolute |
| MaitchFiles.ExtremeStampMissing | maitch.py:2292-2307 | the stamp fails exactly when some node is missing, naming the first missing node |
| MaitchFiles.ExtremeStampBounds | maitch.py:2292-2317 | no stamp exactly for no nodes; otherwise a stamp of one node that is the newest or the oldest of all |
| MaitchFiles.ExtremeStampErrExtends | maitch.py:2296-2298 | once a node is missing, later nodes do not change the error |
| MaitchFiles.GetExtremeStamp | maitch.py:2292-2307 | the loop computes the extreme stamp, raising at the first missing node |
| MaitchFiles.Located | maitch.py:964-975 | the nodes that are found are kept, each one existing |
| MaitchFiles.CtxExtremeStamp | maitch.py:964-975 | the context version never fails: it is the extreme stamp of the located nodes |
| MaitchFiles.CtxExtremeStampBounds | maitch.py:964-987 | no stamp exactly when nothing is found; otherwise the newest or oldest of the found nodes |
| MaitchFiles.ExtremeStampPresent | maitch.py:2292-2317 | when every node exists the stamp is the newest or oldest of them |
| MaitchFiles.TrimLeft | maitch.py:2326 | leading white space is removed and nothing else |
| MaitchFiles.TrimRight | maitch.py:2326 | trailing white space is removed and nothing else |
| MaitchFiles.NewlineIndex | maitch.py:2324 | readline stops at the first newline |
| MaitchFiles.StripStorableLine | maitch.py:2326 | a written line strips back to the name |
| MaitchFiles.NewlineAfter | maitch.py:2324 | the first newline after a name without newlines ends that name |
| MaitchFiles.LinesOfSaved | maitch.py:2320-2331 | the saved file reads back one line per name |
| MaitchFiles.DepsRoundTrip | maitch.py:2320-2331 | loading saved dependencies gives back the names |
| MaitchRule.CachePath | maitch.py:1434-1435 | definition of ${BUILD_DIR}/.maitch/deps/<first target> (no contract of its own); its meaning is stated by CacheRegeneration and MissingImplicitDepRaises |
| MaitchRule.Regenerate | maitch.py:1431-1450 | definition of the dependency-cache regeneration (no contract of its own); its meaning is stated by RegenerateMeaning |
| MaitchRule.StaticUpToDate | maitch.py:1413-1428 | definition of the static-dependency comparison (no contract of its own); its meaning is stated by StaticVerdictMeaning |
| MaitchRule.IsUpToDate | maitch.py:1407-1470 | definition of is_uptodate (no contract of its own); its meaning is stated by NoTargetNotUpToDate, NoStaticDepsNotUpToDate, NewerStaticDepNotUpToDate and UpToDateNeedsStatic |
| MaitchRule.ListStaticDeps | maitch.py:1394-1404 | the static dependencies are the deps followed by the sources, in that order, and a name is among them exactly when it is a dep or a source; MaitchRule.StaticVerdictMeaning states how they decide whether a rule is up to date |
| MaitchRule.NoStaticDepsNotUpToDate | maitch.py:1410-1412 | a rule without static dependencies is never up to date and touches no file |
| MaitchRule.UpToDateNeedsStatic | maitch.py:1407-1467 | an up-to-date rule has dependencies and is up to date with respect to them |
| MaitchRule.NoTargetNotUpToDate | maitch.py:1415-1421 | a rule none of whose targets exists is not up to date |
| MaitchRule.NewerStaticDepNotUpToDate | maitch.py:1422-1426 | a dependency newer than a target makes the rule not up to date |
| MaitchRule.StaticVerdictMeaning | maitch.py:1413-1428 | with positive stamps, up to date on static deps exactly when some target exists and no dependency is newer than any target |
| MaitchRule.WithoutDepFunc | maitch.py:1407-1467 | without a dependency function the verdict is just the static one, and no file changes |
| MaitchRule.RegenerateMeaning | maitch.py:1434-1450 | the cache is rebuilt when missing, older than the newest static dependency, or older than a dependency it lists |
| MaitchRule.MissingImplicitDepRaises | maitch.py:1442-1446 | a cached dependency that no longer exists raises an error |
| MaitchRule.CacheRegeneration | maitch.py:1430-1459 | a stale cache is rewritten with the generated dependencies, and a fresh one is left alone |
| MaitchRule.UpToDateWithDepFunc | maitch.py:1407-1467 | an up-to-date rule with a dependency function has a cache whose dependencies all exist and none is newer than the oldest target |
| MaitchBuild.AddTargetsF | maitch.py:2360-2361 | definition of BuildGroup.__init__'s loop over the targets, stopping at the first that raises its own contract only keeps the job graph within its bounds; its meaning is stated by AddTargetsKeeps |
| MaitchBuild.RunF | maitch.py:2530-2567 | definition of Builder.run's worker loop; its own contract only keeps the job graph within its bounds; its meaning is stated by BuildGroup.Run, RunKeeps and RunPromise |
| MaitchBuild.Remove | maitch.py:2432-2433 | list.remove drops one occurrence of a present job, keeps every other job, and keeps a duplicate-free list duplicate-free |
| MaitchBuild.JobDeps | maitch.py:2441-2450 | the names satisfy_deps resolves are the wdeps, then the static dependencies; a name is resolved exactly when it is a wdep or a static dependency, and there is nothing to resolve exactly when all three lists are empty (the early return) |
| MaitchBuild.Initial | maitch.py:2337-2356 | a new group has no queued target, no pending or ready job, no edges, nothing run and nothing cancelled |
| MaitchBuild.QueueingShrinks | maitch.py:2386-2396 | queueing a new explicit target leaves fewer targets to queue, which bounds the recursion of add_job |
| MaitchBuild.MarkBlocking | maitch.py:2479-2484 | the blocker blocks the blocked job and the blocked job lists the blocker; no other job's lists change |
| MaitchBuild.MakeReady | maitch.py:2427-2438 | a pending job moves to the end of the ready queue; any other job is left where it is |
| MaitchBuild.Unblock | maitch.py:2495-2509 | the blocker leaves the job's blocked_by list, and a job with no blockers left becomes ready |
| MaitchBuild.Cancel | maitch.py:2414-2424 | the first cancel empties both queues and sets cancelled; a later one changes nothing |
| MaitchBuild.Register | maitch.py:2392-2393 | each target of the job is queued under that job |
| MaitchBuild.Start | maitch.py:2386-2393 | add_job up to satisfy_deps: the job is being calculated, pending, and owns its targets |
| MaitchBuild.Finish | maitch.py:2395-2397 | after satisfy_deps the job is no longer being calculated, and is made ready when nothing blocks it |
| MaitchBuild.Pop | maitch.py:2550-2555 | the worker takes the last ready job and records it as started |
| MaitchBuild.AddJobF | maitch.py:2386-2397 | add_job on an explicit rule whose target is not yet queued queues more targets, which makes the recursion terminate |
| MaitchBuild.AddJobUnfold | maitch.py:2386-2397 | add_job is its start, then satisfy_deps, then its finish unless satisfy_deps raised |
| MaitchBuild.AddTargetF | maitch.py:2381-2383 | add_target raises a key error exactly for a target that is neither queued nor has an explicit rule |
| MaitchBuild.AddJobErrors | maitch.py:2386-2397 | resolving a job raises only a circular dependency or a missing file |
| MaitchBuild.SatisfyDepsErrors | maitch.py:2441-2476 | satisfy_deps raises only a circular dependency or a missing file |
| MaitchBuild.SatisfyDepErrors | maitch.py:2455-2476 | one dependency raises only a circular dependency or a missing file |
| MaitchBuild.UnblockAll | maitch.py:2487-2492 | job_done only moves jobs from pending to ready and touches nothing but the blocked_by lists and the queues |
| MaitchBuild.WorkerStep | maitch.py:2530-2567 | each round of the worker that does not finish leaves less work in the queues |
| MaitchBuild.BuildF | maitch.py:2337-2378 | a build whose targets fail to resolve runs nothing and cancels nothing |
| MaitchBuild.BuildGroup.constructor | maitch.py:2337-2356 | the group starts empty as Initial says |
| MaitchBuild.BuildGroup.MakeJobReady | maitch.py:2427-2438 | the queues change as MakeReady says |
| MaitchBuild.BuildGroup.MarkBlockingOf | maitch.py:2479-2484 | the edge lists change as MarkBlocking says |
| MaitchBuild.BuildGroup.UnblockJob | maitch.py:2495-2509 | an error exactly when the blocker does not block the job, changing nothing; otherwise the state changes as Unblock says |
| MaitchBuild.BuildGroup.CancelAllJobs | maitch.py:2414-2424 | the state changes as Cancel says |
| MaitchBuild.BuildGroup.StartJob | maitch.py:2386-2393 | the state changes as Start says |
| MaitchBuild.BuildGroup.FinishJob | maitch.py:2395-2397 | the state changes as Finish says |
| MaitchBuild.BuildGroup.AddJob | maitch.py:2386-2397 | the state and the error are those of AddJobF |
| MaitchBuild.BuildGroup.SatisfyDeps | maitch.py:2441-2476 | the state and the error are those of SatisfyDepsF |
| MaitchBuild.BuildGroup.SatisfyDep | maitch.py:2455-2476 | the state and the error are those of SatisfyDepF: a queued owner blocks the job (circular while it is being calculated), an explicit rule blocks it and is added, any other name must exist |
| MaitchBuild.BuildGroup.AddTarget | maitch.py:2381-2383 | the state and the error are those of AddTargetF |
| MaitchBuild.BuildGroup.AddTargets | maitch.py:2360-2361 | the targets are added in order and the first error stops the loop: the state and the error are those of AddTargetsF |
| MaitchBuild.BuildGroup.JobDone | maitch.py:2487-2492 | each job the finished job blocks is unblocked in turn, as UnblockAll says |
| MaitchBuild.BuildGroup.Step | maitch.py:2532-2567 | one round of the worker changes the state as WorkerStep says |
| MaitchBuild.BuildGroup.Run | maitch.py:2530-2567 | the worker loops until it finishes, ending in the state RunF gives |
| MaitchBuildInv.InitialInv | maitch.py:2337-2356 | the new group satisfies the bookkeeping invariant |
| MaitchBuildInv.StartKeepsInv | maitch.py:2386-2393 | starting a job keeps the invariant |
| MaitchBuildInv.MarkKeepsInv | maitch.py:2479-2484 | marking a real dependency of the job being calculated keeps the invariant |
| MaitchBuildInv.FinishKeepsInv | maitch.py:2395-2397 | finishing a job whose blockers are all resolved keeps the invariant and ranks the job after them |
| MaitchBuildInv.PopKeepsInv | maitch.py:2550-2558 | running the last ready job without an error keeps the invariant |
| MaitchBuildInv.PopFailingKeepsInv | maitch.py:2555-2563 | a job that raises cancels all jobs and the invariant still holds |
| MaitchBuildInv.UnblockKeepsInv | maitch.py:2495-2509 | unblocking a dependent of a finished job keeps the invariant |
| MaitchBuildInv.ReadyBelow | maitch.py:2538-2541 | while some job is pending there is a ready job, so a lone worker never waits forever |
| MaitchBuildInv.LastFailing | maitch.py:2555-2563 | a job that raised is the last one run, and the build is then cancelled |
| MaitchBuildRun.RankedIsAcyclic | maitch.py:2455-2462 | a ranking that falls along every dependency leaves no cycle |
| MaitchBuildRun.AddJobKeeps | maitch.py:2386-2397 | add_job reached along the chain of jobs being calculated raises a circular dependency only when the rules have a cycle, and otherwise keeps the invariant and resolves the job |
| MaitchBuildRun.CycleThrough | maitch.py:2457-2459 | a dependency owned by a job still being calculated closes a cycle of rules |
| MaitchBuildRun.AddTargetsKeeps | maitch.py:2360-2361 | adding the targets in turn keeps the invariant and resolves every target that has a rule |
| MaitchBuildRun.UnblockAllKeeps | maitch.py:2487-2492 | job_done never meets a missing edge |
| MaitchBuildRun.WorkerStepKeeps | maitch.py:2530-2567 | each round of the worker keeps the invariant, and the worker stops only with both queues empty |
| MaitchBuildRun.RunKeeps | maitch.py:2530-2567 | the worker keeps the invariant and ends with both queues empty |
| MaitchBuildRun.RanksFall | maitch.py:2441-2476 | once resolved, every dependency of an added job is owned by a job resolved before it |
| MaitchBuildRun.NoReachableCycle | maitch.py:2455-2462 | jobs closed under dependencies whose ranks fall along every dependency hold no cycle reachable from a target |
| MaitchBuildRun.BuildFindsCycles | maitch.py:2337-2378 | a cycle of rules reachable from a requested target always ends resolution with an error |
| MaitchBuildRun.RunOutcome | maitch.py:2530-2567 | each job runs at most once and only after every job it depends on; without a failure every added job runs, with one the failing job is the last |
| MaitchBuildRun.RunAcyclic | maitch.py:2530-2567 | the jobs that ran have no cycle among them |
| MaitchBuildRun.BuildOutcome | maitch.py:2337-2378 | a resolution error runs nothing and is a cycle, a missing file or a target without a rule; otherwise the run keeps its promise and no cycle of rules is reachable from the targets |
| MaitchBuildRun.RunPromise | maitch.py:2530-2567 | running a resolved group starts jobs in dependency order, each once, and runs every target's rule unless a job raised |
| MaitchBuildRun.Build | maitch.py:2337-2378 | the build method returns what BuildOutcome promises: an error with nothing run, or a log in dependency order with no cycle reachable from the targets |
| MaitchBuild.SatisfyDepsF | maitch.py:2441-2476 | resolving dependencies only adds queued targets, so the mutual recursion with add_job terminates |
| MaitchBuild.SatisfyDepF | maitch.py:2455-2476 | resolving one dependency only adds queued targets |
| Display.GetScreenDot | src/display.c:25-45 | definition of get_screen_dot (no contract of its own); its meaning is stated by GetScreenDotSpec |
| Display.ScreenDotIsLast | src/display.c:25-45 | a dot that begins a screen suffix is the one strrchr finds |
| Display.GetScreenDotSpec | src/display.c:25-45 | get_screen_dot returns a dot exactly when it starts a non-empty all-digit suffix, and there is at most one such dot |
| Display.OnlyLastDotCounts | src/display.c:29-38 | a non-digit after the last dot means no screen number, whatever follows an earlier dot |
| Display.ScreenDotOfAppended | src/display.c:25-45 | a name with ".N" appended has its screen dot where it was appended |
| Display.NameIncludesScreen | src/display.c:87 | a name includes a screen exactly when some dot starts a screen suffix |
| Display.StripScreen | src/display.c:57-61 | cutting at the screen dot gives a prefix of the name, shorter exactly when the name includes a screen, and then cut exactly at a '.' followed only by one or more digits |
| Display.StripScreenOfAppended | src/display.c:57-61 | stripping ".N" from a display name with it appended gives the display name back |
| Options.Options.LookupStringWithDefault | src/options.c:132-138 | options_lookup_string_with_default forwards to the option file lookup on its key file and group (no contract of its own); its meaning is stated by OptsFile.LookupStringWithDefault |
| Options.ChangedLeafname | src/options.c:210-224 | definition of the renamed path (no contract of its own); its meaning is stated by ChangedLeafnameIsLeaf and ChangedLeafnameKeepsDir |
| Options.Options.Open | src/options.c:39-47 | a new Options holds the leafname, the group, one reference and the loaded key file |
| Options.Options.Ref | src/options.h:57-60 | one more reference; nothing else changes |
| Options.Options.Unref | src/options.c:113-130 | the count drops by one; the object is freed and its key file released exactly when the count reaches zero |
| Options.Options.SetString | src/options.c:180-186 | a key file is created when there is none; the key is set in the options' group, a null value as "" |
| Options.Options.SetInt | src/options.c:188-193 | a key file is created when there is none; the key is set to the decimal text of the value |
| Options.Options.GetLeafname | src/options.c:203-208 | a suffix of the name with no separator in it: the whole name when it has none, otherwise starting right after a separator, so after the last one |
| Options.Options.ChangeLeafname | src/options.c:210-226 | the name becomes ChangedLeafname of the old name; reference count and key file stay |
| Options.ChangedLeafnameIsLeaf | src/options.c:210-226 | after a change the leafname is the new leaf |
| Options.ChangedLeafnameKeepsDir | src/options.c:215-218 | the directory part before the last separator is kept and joined to the new leaf by one separator |
| OptsFile.PathOrder | src/optsfile.c:118-145 | definition of options_file_init_paths' search order (no contract of its own); its meaning is stated by PathOrderSpec and SearchPaths.InitPaths |
| OptsFile.AppendNew | src/optsfile.c:50-67 | definition of appending unseen names (no contract of its own); its meaning is stated by AppendNewPrefix and AppendNewElements |
| OptsFile.AppendNewPrefix | src/optsfile.c:35-72 | joining keeps the first vector as a prefix and grows by at most the second's length |
| OptsFile.AppendNewElements | src/optsfile.c:50-66 | the joined vector holds exactly the elements of both |
| OptsFile.AppendNewNoDup | src/optsfile.c:53-66 | a second-vector element equal to one already there is not added again, so no duplicates arise |
| OptsFile.AppendNewNothingNew | src/optsfile.c:53-66 | when every element of the second is already in the first, the result is the first |
| OptsFile.JoinStrvs | src/optsfile.c:35-72 | NULL exactly when both vectors are empty; otherwise the first, then the second's elements not yet present, in order |
| OptsFile.SearchPaths.PrependStr | src/optsfile.c:106-116 | the path vector becomes s followed by the old entries other than s |
| OptsFile.SearchPaths.InitPaths | src/optsfile.c:118-145 | nothing happens when the paths are set; otherwise they become PathOrder of the system, data and user directories |
| OptsFile.WithLeaf | src/optsfile.c:91-104 | each entry is its directory joined to the leaf, same length |
| OptsFile.AppendLeafToPathv | src/optsfile.c:91-104 | the loop replaces every entry with it joined to the leaf |
| OptsFile.PathOrderSpec | src/optsfile.c:118-145 | the user config directory comes first, then the application or data Config directory, no duplicates, and nothing else but the system directories |
| OptsFile.AppendNewSecond | src/optsfile.c:106-116 | prepending a different string puts the old first entry second |
| OptsFile.FilenameFromPathv | src/optsfile.c:156-170 | NULL exactly when the leaf exists under no path entry; otherwise the first entry under which it exists |
| OptsFile.MkdirWithParents | src/optsfile.c:243-258 | NULL, "", "." and "/" are refused; success needs the directory created, and a name of two or more characters succeeds when it is |
| OptsFile.LookupStringWithDefault | src/optsfile.c:350-369 | a present non-empty value is returned; a missing or empty one gives the default |
| OptsFile.LookupIntWithDefault | src/optsfile.c:371-384 | a missing key, or stored text that does not parse as a C int, gives the default; otherwise the stored text's integer, which fits a C int; OptsFile.LookupIntAfterSet states the round trip |
| OptsFile.LookupIntAfterSet | src/optsfile.c:371-384 | an int that was set reads back as itself |
| OptsFile.SearchPaths.constructor | src/optsfile.c:31 | the search path vector starts unset |
| Encodings.Encodings | src/encodings.c:69-83 | definition of the encodings a key file lists (no contract of its own); its meaning is stated by List, DefaultEncodings, AddAppends and RemoveDrops |
| Encodings.Added | src/encodings.c:97-103 | definition of the entries after encodings_add (no contract of its own); its meaning is stated by Add and AddAppends |
| Encodings.Removed | src/encodings.c:105-117 | definition of the entries after encodings_remove (no contract of its own); its meaning is stated by Remove, RemoveDrops and RemovedLookup |
| Encodings.ListAsWritten | src/encodings.c:69-89 | definition of encodings_list as written (no contract of its own); its meaning is stated by ListAsWrittenNegativeCount and List |
| Encodings.Count | src/encodings.c:91-95 | definition of encodings_count (no contract of its own); its meaning is stated by DefaultEncodings and LookupAfterCount |
| Encodings.Key | src/encodings.c:29-35 | every key has at least two characters, starts with 'e' and so is never the count key "n" |
| Encodings.KeyInjective | src/encodings.c:29-35 | distinct indices have distinct "e%d" keys |
| Encodings.Lookup | src/encodings.c:85-89 | the stored encoding of entry n, or "UTF-8" when it is missing or empty |
| Encodings.Listed | src/encodings.c:69-83 | the first n entries, each as encodings_lookup reads it |
| Encodings.BuildDefault | src/encodings.c:37-45 | a fresh key file holding the default count and entries |
| Encodings.DefaultEncodings | src/encodings.c:37-45 | the default list is UTF-8 then ISO-8859-1, count 2 |
| Encodings.ListAsWrittenNegativeCount | src/encodings.c:69-83 | a stored count of -1 gives an empty list, -2 stores "Default" through the NULL that a zero-slot allocation returns, and -3 makes the allocation abort |
| Encodings.List | src/encodings.c:69-83 | "Default" followed by every stored encoding in order; for a non-negative count it is what the code as written returns |
| Encodings.Change | src/encodings.c:119-123 | entry n is set to enc; nothing else changes |
| Encodings.Add | src/encodings.c:97-103 | the new encoding is stored after the last and the count goes up by one |
| Encodings.LookupAfterChange | src/encodings.c:119-123 | changing entry a changes only the lookup of a, and not the count |
| Encodings.LookupAfterCount | src/encodings.c:91-95 | setting the count changes no entry |
| Encodings.ListedSame | src/encodings.c:69-83 | key files that agree on the first n lookups list the same n encodings |
| Encodings.AddAppends | src/encodings.c:97-103 | adding appends the encoding (or UTF-8 for an empty one) to the list |
| Encodings.Remove | src/encodings.c:105-117 | the loop shifts every later entry down by one and stores count - 1 |
| Encodings.LookupShifted | src/encodings.c:108-114 | after the shift entry m reads entry m + 1 for n <= m < count - 1 and is unchanged elsewhere |
| Encodings.RemoveDrops | src/encodings.c:105-117 | removing entry k of the list leaves the list without it, one shorter |
| Encodings.RemovedLookup | src/encodings.c:105-117 | after removing k, entries before k stay and later ones move down by one |
| GetName.TrailingNumber | src/getname.c:53-54 | definition of the trailing number of a name (no contract of its own); its meaning is stated by TrailingNumberOfSuggestion and SuggestName |
| GetName.ScanAsWritten | src/getname.c:51-52 | definition of the digit scan as written (no contract of its own); its meaning is stated by ScanAsWrittenAgrees and ScanAsWrittenReadsBeforeStart |
| GetName.NameClashes | src/getname.c:30-41 | true exactly when the name is among the existing names |
| GetName.TrailingDigitsStart | src/getname.c:47-52 | the start of the digit run that ends the name: only digits follow it and no digit precedes it |
| GetName.ScanAsWrittenAgrees | src/getname.c:51-52 | when a non-digit precedes the trailing digits the scan as written finds where they start |
| GetName.ScanAsWrittenReadsBeforeStart | src/getname.c:51-52 | for "42" and "" the scan as written reads orig[-1] |
| GetName.FindTrailingDigits | src/getname.c:51-52 | the scan, bounded at the start, finds where the trailing digits start |
| GetName.SuggestName | src/getname.c:43-64 | the suggestion clashes with no existing name, is the non-numeric prefix plus a %02d number above the trailing number, and every smaller number above it clashes |
| GetName.SuggestionIsNew | src/getname.c:55-62 | a number above all tried ones gives a suggestion not tried before, so the loop ends |
| GetName.TrailingStartUnique | src/getname.c:47-52 | the start of the trailing digit run is unique |
| GetName.SuggestionForPlainName | src/getname.c:53-54 | a name that does not end in a digit starts numbering at 0 |
| GetName.TrailingNumberOfSuggestion | src/getname.c:57 | a suggestion's trailing number is the number it was made with, so suggesting from a suggestion counts on |
| Decimal.Strtol | src/spawn.c:84-88 | strtol base 10: the value lies in the range of a long; the end index is either the start itself, with the value 0, or lies past it within the text; StrtolNatToString and StrtolIntToString show it reads back what %u and %d print |
| Decimal.NatToString | src/spawn.c:272-277 | %u of a number: a non-empty string of digits whose first digit is '0' exactly for 0; ParseNatToString reads it back and NatToStringInjective keeps numbers apart |
| Decimal.ParseNatToString | src/spawn.c:277 | the digits %u prints spell the number back |
| Decimal.NatToStringInjective | src/spawn.c:277 | different numbers print differently with %u |
| Decimal.StrtolNatToString | src/spawn.c:180 | strtol reads back a number printed with %u: its value, with the end index just past its digits when no digit follows |
| Decimal.Pad2 | src/getname.c:58 | %02d of a number: at least two digits; ParsePad2 reads it back and Pad2Injective keeps numbers apart |
| Decimal.IntToString | src/colourscheme.c:158 | %d of a number: never empty; StrtolIntToString reads it back and IntToStringInjective keeps numbers apart |
| Decimal.IntToStringInjective | src/encodings.c:33 | different numbers print differently with %d, so the keys "e%d" of different slots differ |
| Decimal.StrtolIntToString | src/colourscheme.c:158 | strtol reads back a number in the range of a long printed with %d, over the whole text |
| Decimal.ParsePad2 | src/getname.c:57 | %02d text reads back as its number |
| Decimal.Pad2Injective | src/getname.c:57 | different numbers give different %02d texts |
| GlobalOpts.OptionName | src/globalopts.c:372-388 | definition of process_option_name's result (no contract of its own); its meaning is stated by ProcessOptionName and OptionNameIdempotent |
| GlobalOpts.Corrected | src/globalopts.c:46-62 | definition of the entries after correct_scheme (no contract of its own); its meaning is stated by CorrectScheme and CorrectedIdempotent |
| GlobalOpts.FirstWithShort | src/globalopts.c:378-384 | the first table entry with that short name, or none when no entry has it |
| GlobalOpts.StripDashes | src/globalopts.c:374-375 | the name without its leading dashes: a suffix, not starting with '-', with only dashes removed |
| GlobalOpts.ProcessOptionName | src/globalopts.c:372-388 | the loop computes OptionName: dashes stripped, a one-letter name replaced by the long name of the first entry with that short name |
| GlobalOpts.FirstWithShortAt | src/globalopts.c:378-384 | an entry with no earlier entry of the same short name is the one found |
| GlobalOpts.TableLongNamesPlain | src/globalopts.c:174-280 | no long name in the option table starts with a dash or is one letter long |
| GlobalOpts.OptionNameIdempotent | src/globalopts.c:372-388 | processing a processed option name changes nothing |
| GlobalOpts.StringOptionKey | src/globalopts.c:104-120 | the colour- and shortcut-scheme spellings never reach the key file: they are stored under their underscore names |
| GlobalOpts.BoolOptionSetting | src/globalopts.c:147-164 | the two menu-bar switches are never stored under their own names but both under hide_menubar; the value is 0 or 1, and 0 exactly for show-menubar; any other option stores itself = 1 |
| GlobalOpts.FirstExecute | src/globalopts.c:295-297 | the index of the first "--execute" or "-e", or none when there is none |
| GlobalOpts.Args | src/globalopts.c:466-476 | the strings of a vector with no NULL, in order |
| GlobalOpts.GlobalOptions.SetString | src/globalopts.c:104-120 | the value is stored under StringOptionKey of the option name, and the call succeeds |
| GlobalOpts.GlobalOptions.SetBool | src/globalopts.c:147-164 | the key and value of BoolOptionSetting are stored, and the call succeeds |
| GlobalOpts.GlobalOptions.PreparseArgvForExecute | src/globalopts.c:282-319 | the command vector is reset; without -e nothing else changes; -e last fails; otherwise argc stops at -e, its slot becomes NULL and the command vector holds the words after it |
| GlobalOpts.CopyWords | src/globalopts.c:305-314 | the command vector holds exactly the words of argv from lo to hi, in order |
| GlobalOpts.FirstExecuteAt | src/globalopts.c:293-297 | an -e with none before it is the one found |
| GlobalOpts.FirstExecuteNone | src/globalopts.c:293-297 | with no -e there is none to find |
| GlobalOpts.ArgsSlice | src/globalopts.c:308-313 | the copied words are the argument strings after -e |
| GlobalOpts.CopyStrv | src/globalopts.c:466-476 | a fresh vector equal to the input up to and including its first NULL |
| GlobalOpts.CorrectScheme | src/globalopts.c:46-56 | the key file becomes Corrected: the bad name's value is copied to the good name only when the good name has none |
| GlobalOpts.CorrectedIdempotent | src/globalopts.c:46-62 | correcting twice is correcting once, and after a correction a scheme set under the bad name is found under the good one |
| GlobalOpts.GlobalOptions.constructor | src/globalopts.c:33 | the global options start with no command vector |
| IntPtrMap.IntPointerMap.Init | src/intptrmap.h:34-42 | all four bit words are cleared and the table is empty |
| IntPtrMap.IntPointerMap.Contains | src/intptrmap.h:44-51 | true exactly when the key is in the table; for keys below 256 the answer is the key's bit |
| IntPtrMap.IntPointerMap.Insert | src/intptrmap.h:53-59 | the key maps to the value, so a lookup of it finds that value and every other key looks up as before; the bits stay in step with the table, and the result says whether the key was new |
| IntPtrMap.IntPointerMap.Lookup | src/intptrmap.h:61-64 | the key's value when present, otherwise none; for a key below 256 in a consistent map, a value is found exactly when the key's presence bit is set, so it agrees with `contains` |
| IntPtrMap.IntPointerMap.Remove | src/intptrmap.h:66-71 | the key leaves the table, so it looks up as none while every other key looks up as before, and its bit is cleared; the result says whether it was there |
| StrvRef.RoxtermStrvRef.NewTake | src/strv-ref.h:37-43 | the vector is taken as it is with one reference |
| StrvRef.RoxtermStrvRef.New | src/strv-ref.h:45-48 | a copy of the vector with one reference |
| StrvRef.RoxtermStrvRef.Ref | src/strv-ref.h:50-54 | one more reference; the same object and vector |
| StrvRef.RoxtermStrvRef.Unref | src/strv-ref.h:56-65 | the count drops by one and is returned; the vector is freed exactly when it reaches zero |
| StrvRef.StrDupv | src/strv-ref.h:47 | the copy equals the source |
| StrvRef.RefsBalance | src/strv-ref.h:37-65 | n refs followed by n + 1 unrefs free the vector with the count at zero |
| ShimBuffers.ShimBuffer.constructor | src/shim/shim-buffer.h:28-31 | an empty, zeroed, not full buffer |
| ShimBuffers.ShimBuffer.NotFullLeavesChunk | src/shim/shim-buffer.h:47-50 | a buffer that is not full has more than a minimum chunk free |
| ShimBuffers.ShimBuffer.BytesAdded | src/shim/shim-buffer.h:41-45 | the filled count grows by n and the result says whether the buffer is now full |
| ShimSlices.ShimSlice.Make | src/shim/shim-slice.h:70-71 | the slice holds the buffer, offset and length given |
| ShimSlices.ShimSlice.FromBuffer | src/shim/shim-slice.h:74-75 | the slice runs from the filled position to the end of the buffer |
| ShimSlices.ShimSlice.Sub | src/shim/shim-slice.h:83-84 | a sub-slice's offset is relative to its parent's, on the same buffer |
| ShimSlices.ShimSlice.Change | src/shim/shim-slice.h:96-100 | the offset moves by o and the length becomes l |
| ShimSlices.ShimSlice.ContentAsString | src/shim/shim-slice.h:43-48 | the bytes of the slice, in order, as many as its size |
| ShimSlices.FreshSliceHasChunk | src/shim/shim-slice.h:74-75 | a slice from a buffer that is not full has room for more than a minimum chunk |
| ShimSlices.SubSliceContent | src/shim/shim-slice.h:83-84 | a sub-slice's content is the matching part of its parent's |
| ShimQueue.OutputItem.constructor | src/shim.c:58-63 | an item with the given data and no next item |
| ShimQueue.Payloads | src/shim.c:58-63 | the data of each queued item, in order |
| ShimQueue.PayloadsAppend | src/shim.c:97-115 | appending an item appends its data |
| ShimQueue.OutputQueue.Init | src/shim.c:83-95 | an empty queue whose last result is 1 |
| ShimQueue.OutputQueue.QueueItemForWriting | src/shim.c:97-115 | returns the last result; after a failure or EOF the item is dropped and the queue unchanged, otherwise it is appended at the tail |
| ShimQueue.OutputQueue.PopHead | src/shim.c:130-135 | the head item is removed and returned, the tail cleared when it was the last; nothing from an empty queue |
| ShimQueue.FirstInFirstOut | src/shim.c:97-135 | two items queued come out in the order they went in |
| ShimQueue.DroppedAfterFailure | src/shim.c:101-105 | once a write has failed, queued data is dropped |
| ShimFilter.Selection | src/shim.c:566-592 | definition of the selection scan after "52;" (no contract of its own); its meaning is stated by SelectionIsWrite, SelectionAtByte, SelectionAtBadByte, SelectionAtSemicolon and SelectionNeverTerminator |
| ShimFilter.EscStatusAt | src/shim.c:596-645 | definition of get_esc_status_at_offset (no contract of its own); its meaning is stated by EscStatusTerminators, EscStatusOsc52 and Osc52Filter.GetEscStatusAtOffset |
| ShimFilter.Osc52Payload | src/shim.c:818-840 | definition of the queued OSC 52 message (no contract of its own); its meaning is stated by Osc52PayloadOfEsc, Osc52PayloadOfOsc and Osc52Filter.QueueOsc52Message |
| ShimFilter.Contains52AsWritten | src/shim.c:545-593 | definition of the OSC 52 search with the unsigned guards as written (no contract of its own); its meaning is stated by Contains52AsWrittenReadsOutside and Contains52AsWrittenAgrees |
| ShimFilter.Contains52 | src/shim.c:545-593 | definition of the OSC 52 search (no contract of its own); its meaning is stated by Osc52Filter.BufContains52 and Contains52AsWrittenAgrees |
| ShimFilter.EnsureCorrected | src/shim.c:353-409 | definition of the corrected capacity check (no contract of its own); its meaning is stated by EnsureCorrectedSpec |
| ShimFilter.EnsureAsWritten | src/shim.c:353-409 | definition of the capacity check as written (no contract of its own); its meaning is stated by EnsureAsWrittenAsserts and EnsureAsWrittenNoRoom |
| ShimFilter.EnsureAsWrittenAsserts | src/shim.c:353-410 | as written, a one-byte request on a buffer grown past the limit reaches a failing assert |
| ShimFilter.EnsureAsWrittenNoRoom | src/shim.c:385-395 | as written, a one-byte request can succeed while leaving no byte free |
| ShimFilter.EnsureCorrectedSpec | src/shim.c:353-410 | corrected: content is kept, capacity never shrinks, enough room means nothing changes, success leaves a requested byte free, and failure leaves the capacity at the limit |
| ShimFilter.Contains52AsWrittenReadsOutside | src/shim.c:545-556 | as written, an OSC at the end of the data makes the unsigned buflen - 1 checks read past the data |
| ShimFilter.Contains52AsWrittenAgrees | src/shim.c:545-594 | when at least three bytes are buffered the code as written answers as the corrected check |
| ShimFilter.SelectionIsWrite | src/shim.c:566-592 | the selection scan says OSC 52 exactly when the bytes after "52;" are a valid selection (at most one c and one p, at least one of them, other bytes from qs0-7) then ';' then a byte other than '?' |
| ShimFilter.SelectionAtByte | src/shim.c:580-585 | an accepted selection byte passes the question on to the next byte |
| ShimFilter.SelectionAtBadByte | src/shim.c:586-590 | a byte outside the selection alphabet, or a repeated c or p, makes the sequence another OSC |
| ShimFilter.SelectionAtSemicolon | src/shim.c:570-579 | at the ';' the sequence is a write exactly when the selection had c or p and the next byte is not '?' |
| ShimFilter.WriteAtStep | src/shim.c:580-585 | a write request from i is one from i + 1 with the byte's letter recorded |
| ShimFilter.ValidSelectionCons | src/shim.c:580-585 | a selection starting with an accepted byte is valid exactly when the rest is, with that letter recorded |
| ShimFilter.ValidSelectionConsBad | src/shim.c:586-590 | a selection starting with a refused byte is never valid |
| ShimFilter.EscStatusTerminators | src/shim.c:596-645 | ST is reported exactly for 0x9c or ESC followed by '\', and BEL exactly for 0x07 |
| ShimFilter.SelectionNeverTerminator | src/shim.c:566-592 | the selection scan only ever answers other OSC or OSC 52 |
| ShimFilter.EscStatusOsc52 | src/shim.c:596-645 | OSC 52 is reported exactly for an OSC introducer followed by "52;" and a write request |
| ShimFilter.DiscardLength | src/shim.c:747-758 | the discard covers the offset and, after an ESC that is not last, the byte after it |
| ShimFilter.Osc52PayloadOfEsc | src/shim.c:818-840 | for ESC ] 52 ; body, the queued message is the body and a terminating 0 |
| ShimFilter.Osc52PayloadOfOsc | src/shim.c:818-840 | for 0x9d 52 ; body, the queued message is the body and a terminating 0 |
| ShimFilter.MoveDown | src/shim.c:364-366 | memmove: the n bytes from `from` end up at the start |
| ShimFilter.CopyOut | src/shim.c:400-403 | a fresh buffer of the new capacity starting with the n bytes copied |
| ShimFilter.Osc52Filter.constructor | src/shim.c:270-298 | an empty buffer of the default capacity and an empty output queue |
| ShimFilter.Osc52Filter.EnsureSpareCapacity | src/shim.c:353-410 | the buffered bytes are unchanged and start, end, capacity and the result are those of the corrected ensure_spare_capacity |
| ShimFilter.Osc52Filter.Compact | src/shim.c:363-369 | the buffered bytes move to the front of the buffer unchanged |
| ShimFilter.Osc52Filter.Grow | src/shim.c:394-405 | a fresh buffer of the new capacity holds the buffered bytes unchanged from its start |
| ShimFilter.Osc52Filter.TakeFront | src/shim.c:455-486 | the first nwrite bytes become an item; the rest stay buffered, in place when they are the larger part, otherwise in a fresh buffer of at least the default capacity |
| ShimFilter.Osc52Filter.SendDataToOutputQueue | src/shim.c:445-514 | zero bytes discard the buffer and shrink it to the default; otherwise the first nwrite bytes are queued unless a write has failed, and the rest stay buffered |
| ShimFilter.Osc52Filter.DiscardEscSequence | src/shim.c:747-758 | start moves past the offset, and past the byte after an ESC that is not last |
| ShimFilter.Osc52Filter.QueueOsc52Message | src/shim.c:818-840 | the message after the introducer and "52;" is queued with a 0 appended, unless the queue has failed |
| ShimFilter.Osc52Filter.MessageBytes | src/shim.c:829-833 | the bytes copied are the message between "52;" and offset len, followed by a NUL |
| ShimFilter.Osc52Filter.BufContains52 | src/shim.c:545-594 | the corrected check with its bounds guarded, equal to Contains52 of the buffered bytes |
| ShimFilter.Osc52Filter.GetEscStatusAtOffset | src/shim.c:596-645 | the escape status of the byte at the offset, as EscStatusAt defines it |
| DynOpts.PathContents | src/dynopts.c:106-153 | definition of the names found along the path (no contract of its own); its meaning is stated by AddPathContents and ListingSpec |
| DynOpts.Strcmp | src/dynopts.c:193-208 | definition of the listing order (no contract of its own); its meaning is stated by StrcmpDefaultFirst and StrcmpAntisymmetric |
| DynOpts.Listing | src/dynopts.c:155-181 | definition of the unsorted option listing: "Default", then each search path's new entries (no contract of its own); its meaning is stated by ListingSpec |
| DynOpts.DynamicOptions.Lookup | src/dynopts.c:51-55 | the profile's Options when the name is in the table, otherwise none; in a consistent table the object found is live (at least one reference) and tabled under that name only |
| DynOpts.DynamicOptions.LookupAndRef | src/dynopts.c:57-76 | a known profile gains one reference; an unknown one is opened as family/name with one reference and added; either way a lookup of the name then finds the returned object; no other profile's count changes |
| DynOpts.DynamicOptions.Forget | src/dynopts.c:77-81 | the name leaves the table, so a lookup of it finds nothing |
| DynOpts.DynamicOptions.Unref | src/dynopts.c:83-104 | an unknown name changes nothing; otherwise the count drops by one and the entry is removed exactly when it was the last reference |
| DynOpts.DynamicOptions.Rename | src/dynopts.c:183-191 | an unknown old name changes nothing; otherwise the Options moves from the old name to the new one |
| DynOpts.DynamicOptions.ListFull | src/dynopts.c:155-181 | the list is Listing of the search path: "Default", then each directory's new non-directory entries |
| DynOpts.RenamedMoves | src/dynopts.c:183-191 | after a rename the new name holds the old name's Options, the old name is gone and other names are untouched |
| DynOpts.Registry.Get | src/dynopts.c:32-49 | a known family gives its existing object; an unknown one gets a fresh, empty object that is recorded |
| DynOpts.GetTwice | src/dynopts.c:32-49 | asking twice for a family gives the same object |
| DynOpts.StrcmpDefaultFirst | src/dynopts.c:193-209 | "Default" sorts before every other name and equal only to itself |
| DynOpts.StrcmpAntisymmetric | src/dynopts.c:193-209 | swapping the arguments flips the sign, given a collation that does |
| DynOpts.NonDirs | src/dynopts.c:124-133 | the names that are not directories under dirname |
| DynOpts.AddPathContents | src/dynopts.c:106-153 | the loop appends each new non-directory entry of family's directory under the path, skipping names already listed |
| DynOpts.Listed | src/dynopts.c:128-132 | the search of the list answers true exactly when the name is already listed |
| DynOpts.AddPathContentsStep | src/dynopts.c:119-134 | one directory entry is appended exactly when it is not listed and not a directory |
| DynOpts.ListingSpec | src/dynopts.c:155-181 | the list starts with "Default", has no duplicates, and holds exactly "Default" and the non-directory entries of every search directory |
| Spawn.GarbledMessageError | src/spawn.c:74-78 | definition of the spawn-domain garbled-message error quoting the text (no contract of its own); its meaning is stated by ParseErrorWithoutComma |
| Spawn.ErrBody | src/spawn.c:272-273 | definition of the "%u,%u,%s" body of an ERR report (no contract of its own); its meaning is stated by ParseErrorOfErrBody, which reads the domain, code and message back |
| Spawn.ChildReport | src/spawn.c:269-278 | definition of the report the child writes, "ERR " and the error or "OK " and the pid (no contract of its own); its meaning is stated by ListenerReportsChildError and ListenerStartsChild |
| Spawn.Initial | src/spawn.c:141-144 | definition of the listener's starting state, not started and without an error (no contract of its own); its meaning is stated by ListenerReportsChildError, ListenerStartsChild and ListenerBadPid |
| Spawn.Step | src/spawn.c:146-226 | definition of one loop pass: an empty message is skipped, an error before start is kept, schedules the callback and stops, an error after start stops and frees, "END" stops and frees (no contract of its own); its meaning is stated by Listener, RunKeepsPid, ListenerReportsChildError, ListenerStartsChild and ListenerBadPid |
| Spawn.Handle | src/spawn.c:168-196 | definition of the ERR and OK branches: ERR parses the error, a first OK with pid 0 is a bad-pid error, a first OK with a pid starts the command and schedules the callback, a later OK is ignored (no contract of its own); its meaning is stated by ListenerReportsChildError, ListenerStartsChild, ListenerBadPid and RunKeepsPid |
| Spawn.Run | src/spawn.c:139-229 | definition of the loop over the messages until it stops (no contract of its own); its meaning is stated by Listener, which runs the loop on the context and ends in Run's state, and by RunKeepsPid, ListenerReportsChildError, ListenerStartsChild and ListenerBadPid |
| Spawn.ParseError | src/spawn.c:81-92 | definition of the error-message split (no contract of its own); its meaning is stated by ParseErrorWithoutComma and ParseErrorOfErrBody |
| Spawn.ToUint32 | src/spawn.c:272-277 | %u of an int: the value modulo 2^32, unchanged when already in range |
| Spawn.ToInt32 | src/spawn.c:92 | (int) of a long: the value wrapped into the int range, unchanged when already in range |
| Spawn.Int32ThroughUint32 | src/spawn.c:92 | an int code printed with %u and cast back to int is the code |
| Spawn.ParseErrorWithoutComma | src/spawn.c:81-93 | a text without ',' is reported as a garbled message |
| Spawn.ParseErrorOfErrBody | src/spawn.c:81-93 | parse_error reads back the domain, code and message that the child printed |
| Spawn.NumberThenComma | src/spawn.c:84-86 | strtol of a printed number followed by ',' stops at the ',' with the number |
| Spawn.ListenerContext.constructor | src/spawn.c:332-339 | a fresh context: pid -1, no error, nothing scheduled and not freed |
| Spawn.Listener | src/spawn.c:139-232 | the loop over the messages ends in the state Run gives for them |
| Spawn.RunKeepsPid | src/spawn.c:163-170 | once started, later messages keep the pid and the started flag |
| Spawn.ListenerReportsChildError | src/spawn.c:159-193 | an "ERR" report before start stops the listener, schedules the callback once and hands it the parsed error, without freeing the context |
| Spawn.ListenerStartsChild | src/spawn.c:161-231 | "OK pid" then "END" starts with that pid, no error, one callback scheduled, and frees the context |
| Spawn.ListenerBadPid | src/spawn.c:168-174 | "OK 0" is a bad-pid error and the listener stops without starting |
| DynOpts.DynamicOptions.constructor | src/dynopts.c:42-44 | a new family object has that family name and an empty profile table |
| DynOpts.Registry.constructor | src/dynopts.c:33-37 | the registry of families starts empty |
| Uri.BrowserCommand | src/uri.c:157-160 | uri_get_browser_command: uri_get_command with no candidate list, falling back on the preferred browser (no contract of its own); its meaning is stated by UriGetCommandPlain, UriGetCommandTemplate, UriGetCommandFallback and PreferredBrowserOrder |
| Uri.MailerCommand | src/uri.c:162-169 | uri_get_mailer_command: uri_get_command with the mailer list claws-mail … mail (no contract of its own); its meaning is stated by UriGetCommandPlain, UriGetCommandTemplate and UriGetCommandFallback |
| Uri.DirectoryCommand | src/uri.c:171-178 | uri_get_directory_command: uri_get_command with the filer list rox, thunar, nautilus, dolphin, konqueror (no contract of its own); its meaning is stated by UriGetCommandPlain, UriGetCommandTemplate and UriGetCommandFallback |
| Uri.FileCommand | src/uri.c:180-185 | uri_get_file_command: uri_get_command with the list xdg-open, rox (no contract of its own); its meaning is stated by UriGetCommandPlain, UriGetCommandTemplate and UriGetCommandFallback |
| Uri.SshCommand | src/uri.c:187-192 | uri_get_ssh_command: uri_get_command with the list ssh, rox (no contract of its own); its meaning is stated by UriGetCommandPlain, UriGetCommandTemplate and UriGetCommandFallback |
| Uri.FormatOne | src/uri.c:141-144 | definition of printf with the one URI argument: "%%" prints '%', the first "%s" prints the URI, any other conversion is not modelled (no contract of its own); its meaning is stated by FormatPlain, FormatAfterPlain, FormatTemplate and EscapedPercentDropsUri |
| Uri.PreferredBrowser | src/uri.c:60-125 | definition of the browser choice (no contract of its own); its meaning is stated by PreferredBrowserOrder |
| Uri.FindFirstListedInPath | src/uri.c:29-56 | definition of the PATH search over candidates (no contract of its own); its meaning is stated by FindFirstListedInPathSpec |
| Uri.UriGetCommand | src/uri.c:127-155 | definition of uri_get_command (no contract of its own); its meaning is stated by UriGetCommandPlain, UriGetCommandTemplate and UriGetCommandFallback |
| Uri.SplitAtSpace | src/uri.c:35-40 | the program name up to the first space, and the arguments after it when there is one |
| Uri.FirstFound | src/uri.c:33-53 | the first candidate whose program is found in PATH; none when no candidate's is |
| Uri.FindFirstListedInPathSpec | src/uri.c:29-56 | NULL exactly when no candidate's program is in PATH; otherwise the first found program's full path, with its arguments after a space |
| Uri.FirstCandidateWithArgs | src/uri.c:44-51 | a first candidate "prog args" found in PATH gives its path followed by " args" |
| Uri.FormatPlain | src/uri.c:141-144 | a template with no '%' formats to itself |
| Uri.FormatAfterPlain | src/uri.c:141-144 | text without '%' before a template is copied as it is |
| Uri.FormatTemplate | src/uri.c:141-144 | a configured command with one %s has the URI put in its place |
| Uri.UriGetCommandPlain | src/uri.c:145-150 | a configured command without '%' is followed by the URI, quoted for the browser and unquoted for other candidates |
| Uri.UriGetCommandTemplate | src/uri.c:141-144 | a configured "p%sq" gives p, the URI, then q |
| Uri.UriGetCommandFallback | src/uri.c:133-140 | with nothing configured the first candidate found (or the preferred browser) is used, and there is no command exactly when none is found |
| Uri.EscapedPercentDropsUri | src/uri.c:141-144 | a configured "open %%s" contains "%s", so printf turns it into "open %s" and the URI is dropped |
| Uri.SplitFrom | src/uri.c:89 | g_strsplit on ':': at least one piece and no piece contains the separator |
| Uri.SplitJoin | src/uri.c:89 | joining the pieces with the separator gives the text back |
| Uri.FirstExecutableHandler | src/uri.c:92-109 | the handler of the first branch that is executable (its AppRun inside a directory handler); none when no branch has one |
| Uri.PreferredBrowserOrder | src/uri.c:60-125 | $BROWSER wins; without it and without any executable text_html handler, the first browser of the built-in list found in PATH |
| ColourSchemes.NormalisePaletteSize | src/colourscheme.c:168-189 | definition of the palette size correction (no contract of its own); its meaning is stated by NormalisePaletteSizeSpec |
| ColourSchemes.LookupAndParse | src/colourscheme.c:124-147 | definition of the colour lookup (no contract of its own); its meaning is stated by LookupAndParseFallback and StoredColourWins |
| ColourSchemes.ChooseDefault | src/colourscheme.c:95-107 | each default palette entry is a "#rrggbb" name |
| ColourSchemes.DefaultPaletteEnds | src/colourscheme.c:95-107 | 24 defaults; entry 8 is black and entry 15 white |
| ColourSchemes.NormalisePaletteSizeSpec | src/colourscheme.c:169-186 | the palette size is always 0, 8, 16 or 24, is kept exactly when it already is one of them, and normalising twice is normalising once |
| ColourSchemes.LookupAndParseFallback | src/colourscheme.c:124-147 | a stored colour that parses wins; otherwise the default is parsed, and without a default there is no colour |
| ColourSchemes.StoredColourWins | src/colourscheme.c:124-147 | a parsable colour stored under the key is the one used |
| ColourSchemes.ParsedPalette | src/colourscheme.c:150-162 | 24 entries |
| ColourSchemes.ParsedPaletteEntries | src/colourscheme.c:150-162 | each entry is its stored colour when that parses, else its default when that parses (whether or not something unparsable is stored), else what it was |
| ColourSchemes.ColourScheme.constructor | src/colourscheme.c:53-64 | nothing is cached and there is no palette |
| ColourSchemes.ColourScheme.ParsePalette | src/colourscheme.c:165-188 | the palette is allocated once, its size is the normalised stored size, and its entries are ParsedPalette; cached colours are untouched |
| ColourSchemes.ColourScheme.GetCursorColour | src/colourscheme.c:217-237 | a cached cursor colour is returned as it is; otherwise the stored colour or #c0c0c0 is looked up and cached, or nothing when that fails |
| ColourSchemes.ColourScheme.GetForegroundColour | src/colourscheme.c:239-259 | as for the cursor, with the foreground key and default #c0c0c0 |
| ColourSchemes.ColourScheme.GetBackgroundColour | src/colourscheme.c:261-281 | as for the cursor, with the background key and default #000 |
| ColourSchemes.ColourScheme.SetPaletteSize | src/colourscheme.c:283-291 | the palette size becomes the value; nothing else changes |
| ColourSchemes.ColourScheme.SetPaletteEntry | src/colourscheme.c:307-322 | a null name, an index outside 0-23 or an unparsable name changes nothing; otherwise the entry takes the colour and the name is stored under the index |
| ColourSchemes.ColourScheme.SetCursorColour | src/colourscheme.c:324-333 | the cursor cache and stored value become those of SetColour |
| ColourSchemes.ColourScheme.SetForegroundColour | src/colourscheme.c:335-345 | the foreground cache and stored value become those of SetColour |
| ColourSchemes.ColourScheme.SetBackgroundColour | src/colourscheme.c:347-357 | the background cache and stored value become those of SetColour |
| ColourSchemes.ParsePaletteRange | src/colourscheme.c:150-162 | the loop leaves the palette equal to ParsedPalette of its old contents |
| ColourSchemes.SetColour | src/colourscheme.c:293-305 | a null name clears the cache and stores ""; a parsable name is cached and stored; an unparsable one stores nothing and leaves an uncached colour allocated but never written |
| ColourSchemes.SetNullReadsDefault | src/colourscheme.c:293-305 | after setting null the colour reads as the default again |
| ColourSchemes.SetParsedReadsBack | src/colourscheme.c:293-305 | after setting a parsable name it is cached and reads back as set |
| Configlet.FamilyBaseNamesDistinct | src/configlet.c:85-94 | for every family the converted name is non-empty and starts with no upper-case letter, and different families give different base names |
| Configlet.ConfigletLocks.ButtonSensitivity | src/configlet.c:132-161 | definition of configlet_set_sensitive's choice for the delete and rename buttons (no contract of its own); its meaning is stated by ConfigletLocks.ShadeActions |
| Configlet.IsInUserDir | src/configlet.c:163-181 | definition of the user-directory test (no contract of its own); its meaning is stated by EncodingsInUserDir |
| Configlet.ConfiguredName | src/configlet.c:224-231 | definition of the configured profile name (no contract of its own); its meaning is stated by ConfiguredNameDefaults |
| Configlet.FamilyNameToOptKey | src/configlet.c:211-222 | definition of the option key of a family (no contract of its own); its meaning is stated by FamilyNameToOptKeySpec |
| Configlet.ToLower | src/configlet.c:92 | tolower in the C locale: the result is never an upper-case letter, and is a lower-case one exactly when the input is a letter; an upper-case ASCII letter becomes the letter 32 code points above it, anything else is kept |
| Configlet.ConvertFamilyName | src/configlet.c:85-94 | a family starting with 'P' loses its last character; the first character is lowered and the rest kept |
| Configlet.ConvertFamilyNames | src/configlet.c:85-94 | the four families give the widget base names profile, colours, shortcuts and encodings |
| Configlet.FamilyOf | src/configlet.c:137-155 | a recognised family name maps back to that family |
| Configlet.FamilyNameToOptKeySpec | src/configlet.c:211-222 | only the four family names have an option key, and different families have different keys |
| Configlet.ConfiguredNameDefaults | src/configlet.c:224-231 | with nothing configured the chosen name is "GTK" for colour schemes and "Default" for the others |
| Configlet.EncodingsInUserDir | src/configlet.c:163-169 | every encodings entry other than "Default" counts as the user's own |
| Configlet.ConfigletLocks.constructor | src/configlet.c:42-45 | every lock count starts at zero |
| Configlet.ConfigletLocks.Lock | src/configlet.c:990-995 | the family's lock count goes up by one; the others are unchanged |
| Configlet.ConfigletLocks.Unlock | src/configlet.c:997-1006 | the family's lock count goes down by one and never below zero; the others are unchanged |
| Configlet.ConfigletLocks.ShadeActions | src/configlet.c:132-190 | delete and rename are enabled exactly when the family is unlocked and the selected item is in the user's directory |
| Configlet.LockUnlockBalance | src/configlet.c:990-1006 | a lock followed by an unlock restores the count |
| Configlet.ExtraUnlockHarmless | src/configlet.c:997-1006 | an unlock at zero stays at zero, so a later lock still locks |
| TabButtons.HighestFrom | src/roxterm-tab-button.c:82-94 | the highest set state bit below n, plus one, or 0 when there is none |
| TabButtons.Highest | src/roxterm-tab-button.c:82-94 | the icon index is between 0 and the number of icons |
| TabButtons.HighestIs | src/roxterm-tab-button.c:82-94 | a set bit with no higher set bit gives that icon |
| TabButtons.HighestPriority | src/roxterm-tab-button.c:22-29 | bell beats exited beats output beats busy, and with none of them the close icon shows |
| TabButtons.IconCache.constructor | src/roxterm-tab-button.c:31-32 | no icon is loaded yet |
| TabButtons.TabButton.constructor | src/roxterm-tab-button.c:106-111 | no state bits and the close icon shown |
| TabButtons.TabButton.ShowIcon | src/roxterm-tab-button.c:47-80 | index 0 shows the close icon; a cached icon is shown from the cache; otherwise it is loaded into the cache and shown, or the close icon when loading fails |
| TabButtons.TabButton.ShowState | src/roxterm-tab-button.c:82-94 | the icon for the highest set state bit is shown |
| TabButtons.TabButton.SetState | src/roxterm-tab-button.c:113-118 | the bits are added to the state and the icon for the new state is shown |
| TabButtons.TabButton.ClearState | src/roxterm-tab-button.c:120-125 | the bits are removed from the state and the icon for the new state is shown |
| TabButtons.SetThenClear | src/roxterm-tab-button.c:113-125 | setting then clearing bits leaves them clear and the other bits as they were before the clear |
| TabButtons.CachedIconReused | src/roxterm-tab-button.c:56-78 | once an icon has been loaded, showing it again uses the cached picture without loading |
| MenuTrees.AccelPath | src/menutree.c:246-250 | definition of a tab's accelerator path (no contract of its own); its meaning is stated by TabAccel |
| MenuTrees.Strip | src/menutree.c:56-68 | definition of the underscore strip (no contract of its own); its meaning is stated by StripSpec |
| MenuTrees.StripAppend | src/menutree.c:61-65 | one more input character adds itself to the output unless it is '_' |
| MenuTrees.StripSpec | src/menutree.c:56-68 | the output has no '_', equals the input exactly when the input has none, is unchanged by stripping again, and is no longer than the input |
| MenuTrees.StripUnderscore | src/menutree.c:56-68 | the loop writes the input with every '_' removed and the other characters kept in order |
| MenuTrees.TabAccel | src/menutree.c:282-301 | a tab below 10 gets "Tabs/Select_Tab_<n>" under the shortcuts index exactly when tab shortcuts are enabled and there is not exactly one tab, and no path otherwise; MenuTrees.TabAccelShape and MenuTrees.TabAccelsDistinct state what that path identifies |
| MenuTrees.TabAccelShape | src/menutree.c:246-250 | a tab's path lies under the shortcut scheme's index and ends in the tab's own digit |
| MenuTrees.TabAccelsDistinct | src/menutree.c:282-301 | different tabs get different accelerator paths |
| MenuTrees.InsertAt | src/menutree.c:834-855 | g_list_insert's position: kept when within the list, otherwise the end |
| MenuTrees.RemoveFirst | src/menutree.c:804-810 | g_list_remove drops one occurrence of a present item and changes nothing otherwise |
| MenuTrees.RemoveInserted | src/menutree.c:804-855 | removing an item just inserted gives the list back |
| MenuTrees.RemoveFirstKeepsOthers | src/menutree.c:804-810 | removing an item keeps every other item |
| MenuTrees.MenuItem.constructor | src/menutree.c:818-832 | a tab item with the title and no accelerator path |
| MenuTrees.EncodingFromWidget | src/menutree.c:450-458 | no encoding exactly for the "NULL" marker, and the marker itself never comes back as an encoding name; any other stored value is returned as it is |
| MenuTrees.EncodingItemReadsBack | src/menutree.c:450-458 | the "Default" item, which stores the marker, reads as no encoding; an item added for any other encoding reads back as that encoding |
| MenuTrees.FindFrom | src/menutree.c:489-498 | the first child from k holding the encoding, or none when no child from k holds it |
| MenuTrees.MenuTree.constructor | src/menutree.c:717-739 | no tabs, no encodings menu, no encodings counted; the labels and shortcut settings are as given |
| MenuTrees.MenuTree.SetAccelPathForTab | src/menutree.c:282-301 | a tab below 10 gets TabAccel; a later tab keeps its path |
| MenuTrees.MenuTree.ApplyTabShortcuts | src/menutree.c:303-309 | every tab below 10 has its current accelerator path; later tabs are untouched |
| MenuTrees.MenuTree.AddTabAtPosition | src/menutree.c:834-855 | the new item is inserted at the position (appended for -1 or out of range), ntabs goes up by one and the accelerators of tabs below 10 are refreshed; later tabs keep their paths, the new item past 10 has none, and the flags, encodings and shortcut index are unchanged |
| MenuTrees.MenuTree.RemoveTab | src/menutree.c:804-816 | the item leaves the tab list, ntabs goes down by one and the accelerators of tabs below 10 are refreshed; later tabs keep their paths and the flags, encodings and shortcut index are unchanged |
| MenuTrees.MenuTree.RemoveTabAt | src/menutree.c:804-816 | the tab at the found index leaves the list, ntabs goes down by one, tabs below 10 get their current accelerators, and later tabs keep their paths |
| MenuTrees.MenuTree.CreateEncodingsMenu | src/menutree.c:409-427 | the menu holds "Default" and a separator, counts no encodings, and the encoding item becomes sensitive; nothing outside the encodings menu changes |
| MenuTrees.MenuTree.AddEncodingItem | src/menutree.c:396-407 | the item is appended and counted; nothing outside the encodings menu changes |
| MenuTrees.MenuTree.BuildEncodingsMenu | src/menutree.c:429-448 | with at least two names the menu holds Default, a separator and every name after the first, counting those; otherwise the item is made insensitive and nothing else changes; tabs and shortcut settings are never touched |
| MenuTrees.MenuTree.AddEncoding | src/menutree.c:460-468 | the encoding is appended and counted, creating the menu first when there is none; tabs and shortcut settings are untouched |
| MenuTrees.MenuTree.FindEncoding | src/menutree.c:470-504 | NULL finds the Default item; otherwise the first item after the separator holding the encoding, or none |
| MenuTrees.MenuTree.RemoveEncoding | src/menutree.c:506-524 | an encoding not found changes nothing; removing the last counted one drops the menu and makes the item insensitive; otherwise the item is removed and the count goes down by one; tabs and shortcut settings are untouched |
| MenuTrees.MenuTree.DisableShortcuts | src/menutree.c:963-993 | no change when the flag is already set so; otherwise every labelled item is relabelled, stripped of '_' when disabling and with its mnemonic when enabling; tabs, encodings and the tab-shortcut flag are untouched |
| MenuTrees.MenuTree.DisableTabShortcuts | src/menutree.c:995-1001 | no change when the flag is already set so; otherwise the flag changes and the accelerators of tabs below 10 are refreshed; later tabs, labels, encodings and the other settings are untouched |
| MenuTrees.EncodingItems | src/menutree.c:437-440 | one encoding item per name, in order |
| MenuTrees.EncodingItemsAppend | src/menutree.c:437-440 | adding a name adds its item at the end |
| MenuTrees.Relabel | src/menutree.c:969-990 | an item without a label or without a mnemonic text is untouched; otherwise it shows the stripped text when disabling, which then holds no underscore, and the mnemonic when enabling |
| MenuTrees.RelabelRestores | src/menutree.c:969-990 | disabling then enabling gives each item the label enabling alone gives it; relabelling twice with the same flag is relabelling once |
| MenuTrees.RemoveFirstIndex | src/menutree.c:804-810 | removing the first occurrence at k cuts out exactly index k |
| MenuTrees.DisableShortcutsIdempotent | src/menutree.c:963-993 | setting the flag twice leaves the labels as once |
| MenuTrees.AddThenRemoveTab | src/menutree.c:804-855 | adding a tab then removing it restores the tab list and ntabs |
| MultiTabs.IndexOf | src/multitab.c:508-512 | a tab's position in the list: inside it, holding the tab, with no earlier occurrence |
| MultiTabs.Delete | src/multitab.c:1702-1710 | removing the tab's link: one entry fewer; DeleteKeepsOthers and DeletePreservesDistinct say the others stay, all different |
| MultiTabs.DeleteKeepsOthers | src/multitab.c:1702-1710 | removing one tab keeps every other tab in the list |
| MultiTabs.MoveTo | src/multitab.c:628-642 | moving the tab at k to position pos keeps the number of tabs |
| MultiTabs.InitialZoomAsWritten | src/multitab.c:1427-1433 | definition of the initial zoom index as written (no contract of its own); its meaning is stated by InitialZoomAsWrittenShrinks |
| MultiTabs.MakeTitle | src/multitab.c:314-330 | definition of the title template expansion (no contract of its own); its meaning is stated by MakeTitleSubstitutes and ValidTemplateGivesTitle |
| MultiTabs.CheckTitleTemplate | src/multitab.c:344-381 | the loop accepts a template exactly when TemplateOk holds: no lone trailing '%', '%%' as an escape, at most one "%s" and no other directive |
| MultiTabs.TemplateOkIffFormattable | src/multitab.c:344-381 | a template passes the check if and only if printf can format it with one string argument |
| MultiTabs.TemplateExamples | src/multitab.c:344-381 | "%s" and "100%% %s" pass |
| MultiTabs.TemplateRejections | src/multitab.c:344-381 | "%s %s", "50%" and "%d" are refused |
| MultiTabs.ValidTemplateGivesTitle | src/multitab.c:314-330 | a template that passes the check always yields a title |
| MultiTabs.MakeTitleSubstitutes | src/multitab.c:314-330 | the "%s" in a template is replaced by the title, or by the empty string when there is no title |
| MultiTabs.InitialZoomAsWrittenShrinks | src/multitab.c:1430-1431 | as written, an over-large zoom index becomes 3, smaller than the normal index 7 |
| MultiTabs.InitialZoom | src/multitab.c:1428-1433 | the initial zoom index is in range: a valid index is kept, a negative one becomes the normal index, an over-large one the largest index |
| MultiTabs.MoveTarget | src/multitab.c:1311-1327 | without wrapping the target is page+dir when that is a page and nothing otherwise; any target is a page |
| MultiTabs.MoveTargetWraps | src/multitab.c:1318-1323 | with wrapping, moving right from the last tab goes to the first, moving left from the first goes to the last, and every single step finds a target |
| MultiTabs.MoveToSpec | src/multitab.c:628-642 | removing the tab at k and inserting it at p puts it at p and shifts the tabs in between by one, leaving the rest in place |
| MultiTabs.MoveToInverse | src/multitab.c:628-642 | moving a tab back to where it came from restores the list, and moving only permutes it |
| MultiTabs.MovePreservesDistinct | src/multitab.c:628-642 | moving a tab keeps the tabs of a window distinct |
| MultiTabs.DeletePreservesDistinct | src/multitab.c:1694-1709 | removing a tab keeps the remaining tabs distinct |
| MultiTabs.MultiTab.constructor | src/multitab.c:1784-1796 | a new tab has no status stock and its image shows the close icon |
| MultiTabs.MultiTab.SetStatusStock | src/multitab.c:1784-1796 | an unchanged effective stock (absent means close) changes nothing; otherwise the stock is stored and an existing image shows it |
| MultiTabs.StockOrClose | src/multitab.c:1786-1787 | an absent stock stands for the close icon, a present one for itself; the result is the close icon exactly for NULL and for the close stock itself |
| MultiTabs.StockOrCloseSame | src/multitab.c:1786-1787 | two stock settings show the same icon exactly when they are equal, or each is NULL or the close stock |
| MultiTabs.SetStatusStockTwice | src/multitab.c:1784-1796 | after setting a stock the tab's effective stock is that stock, and its image shows it unless nothing changed |
| MultiTabs.MultiWin.constructor | src/multitab.c:1424-1433 | a new window has no tabs, asks for the scroll bar position, and starts at the corrected initial zoom index |
| MultiTabs.MultiWin.ZoomIn | src/multitab.c:1259-1266 | the zoom index goes up by one unless it is already the largest, and reports whether it changed |
| MultiTabs.MultiWin.ZoomOut | src/multitab.c:1268-1275 | the zoom index goes down by one unless it is already zero, and reports whether it changed |
| MultiTabs.MultiWin.ZoomNorm | src/multitab.c:1277-1284 | the zoom index becomes the normal index, and reports whether it changed |
| MultiTabs.MultiWin.ShadeMenusForTabs | src/multitab.c:576-612 | previous/left is shaded exactly at the first tab and next/right exactly at the last, unless there are several tabs and switching wraps |
| MultiTabs.MultiWin.ShadeRules | src/multitab.c:576-600 | with wrapping and several tabs nothing is shaded; a single tab shades both directions |
| MultiTabs.MultiWin.MoveTabByOne | src/multitab.c:1311-1327 | the current tab moves one place (wrapping if configured) and the menus are reshaded; with no current tab or no target nothing changes; the tab bar, scroll bar and deleted flag are never touched |
| MultiTabs.MultiWin.PlaceTab | src/multitab.c:637-638 | the tab list becomes the move of the tab at k to pos; tabs stay distinct and the current tab stays in the list |
| MultiTabs.MultiWin.DropTab | src/multitab.c:1702-1710 | the tab leaves the list, the count goes down by one, and the current tab is cleared if it was that tab |
| MultiTabs.MultiWin.NotifyTabRemoved | src/multitab.c:1694-1727 | an unknown tab changes nothing; a known one is removed, clears the current tab if it was current, deletes the window when it was the last (leaving bar and shading alone), hides the tab bar when one tab is left unless it is always shown, and reshades otherwise; zoom and scroll bar are untouched |
| MultiTabs.MultiWin.SetScrollBarPosition | src/multitab.c:2072-2078 | the position is set only while it is still being queried, and the stored position is returned |
| MultiTabs.ZoomInThenOut | src/multitab.c:1259-1275 | zooming in and then out returns to the same index when not at the largest |
| MultiTabs.ZoomStaysInRange | src/multitab.c:1259-1284 | any sequence of zoom actions keeps the index within the zoom factor table |
| RoxtermEnv.CursorBlinkMode | src/roxterm.c:2851-2861 | definition of the blink mode choice (no contract of its own); its meaning is stated by CursorBlinkModes |
| RoxtermEnv.NewEnvironment | src/roxterm.c:474-518 | definition of the modified environment (no contract of its own); its meaning is stated by NewEnvironmentSpec and NoReplacementKeepsEnvironment |
| RoxtermEnv.EqualsPrefixes | src/roxterm.c:484-490 | one "NAME=" prefix per complete name/value pair of the replacement list, in order |
| RoxtermEnv.StartsWithAny | src/roxterm.c:495-504 | an entry is skipped exactly when it starts with the "NAME=" of some replaced name |
| RoxtermEnv.ModifyEnvironment | src/roxterm.c:474-518 | the loops build the kept entries followed by one NAME=value per pair, as NewEnvironment defines |
| RoxtermEnv.KeepUnreplaced | src/roxterm.c:492-508 | the first loop leaves at the front of the buffer exactly the entries of env that set no replaced name, in order |
| RoxtermEnv.AppendAssignments | src/roxterm.c:510-514 | the second loop appends NAME=value for every pair after the kept entries |
| RoxtermEnv.Kept | src/roxterm.c:493-510 | the kept entries are never more than the old environment |
| RoxtermEnv.Assignments | src/roxterm.c:512-516 | one assignment per replacement pair |
| RoxtermEnv.KeptMembers | src/roxterm.c:493-510 | an entry is kept if and only if it was in the environment and sets no replaced name |
| RoxtermEnv.AssignmentAt | src/roxterm.c:512-516 | the j-th appended entry is NAME=value of the j-th pair |
| RoxtermEnv.NewEnvironmentSpec | src/roxterm.c:470-518 | the new environment keeps every entry not replaced, ends with every replacement in order, has nothing else, and is at most as long as the two together |
| RoxtermEnv.NoReplacementKeepsEnvironment | src/roxterm.c:474-518 | with no replacement pairs the environment is copied unchanged |
| RoxtermEnv.ReplacedNameHasOnlyNewValues | src/roxterm.c:495-504 | no kept entry sets a replaced name, so each replaced name has only its new value |
| RoxtermEnv.Xor3 | src/roxterm.c:2857-2858 | xor with 3 flips the two low bits and leaves the higher ones alone |
| RoxtermEnv.Xor3Involution | src/roxterm.c:2857-2858 | xor with 3 twice is the identity |
| RoxtermEnv.CursorBlinkModes | src/roxterm.c:2850-2862 | with the mode unset, cursor_blinks -1, 0 and 1 give VTE's system, off and on modes; a set mode is passed through |
| RoxtermDrag.QuoteWords | src/roxterm.c:3107-3130 | definition of the quoting of dropped URIs (no contract of its own); its meaning is stated by QuoteWordsStep and QuoteWordsEmpty |
| RoxtermDrag.DroppedText | src/roxterm.c:3095-3145 | definition of the text a drop inserts (no contract of its own); its meaning is stated by DroppedTextSpec |
| RoxtermDrag.SplitCrlf | src/roxterm.c:3101 | splitting on CRLF always gives at least one piece |
| RoxtermDrag.JoinSplitCrlf | src/roxterm.c:3101 | joining the pieces with CRLF gives back the dropped text |
| RoxtermDrag.EscapeQuotes | src/roxterm.c:3114-3121 | escaping quotes never shortens a URI |
| RoxtermDrag.EscapeWithoutQuotes | src/roxterm.c:3114-3121 | a URI without a quote is left as it is |
| RoxtermDrag.DragDataReceived | src/roxterm.c:3094-3145 | the loop feeds the child exactly the text DroppedText gives, or nothing |
| RoxtermDrag.QuoteWordsStep | src/roxterm.c:3107-3125 | each non-empty URI adds one quoted word to the joined text; empty lines add nothing |
| RoxtermDrag.JoinStep | src/roxterm.c:3122-3130 | the "' '" separator and the closing "' " together quote each word on its own |
| RoxtermDrag.ReadEscaped | src/roxterm.c:3114-3121 | a shell reading an escaped URI inside quotes gets the URI back |
| RoxtermDrag.ReadQuotedWord | src/roxterm.c:3114-3130 | a shell reads one quoted word as exactly that URI |
| RoxtermDrag.ReadQuoteWords | src/roxterm.c:3107-3130 | a shell reads the joined text as the list of non-empty URIs |
| RoxtermDrag.QuoteWordsEmpty | src/roxterm.c:3126-3131 | the joined text is empty if and only if no URI was non-empty |
| RoxtermDrag.DroppedTextSpec | src/roxterm.c:3094-3145 | text without CRLF is fed as it is; with CRLF nothing is fed when every line is blank, otherwise a shell reads the fed text back as the non-empty URIs |
| RoxtermGeometry.Geometry | src/roxterm.c:4053-4100 | definition of the corrected geometry handling (no contract of its own); its meaning is stated by GeometrySpec, GeometryOfSize and SizeAccepted |
| RoxtermGeometry.GeometryAsWritten | src/roxterm.c:4053-4100 | definition of the geometry option handling as written (no contract of its own); its meaning is stated by GeometryAsWrittenDereferencesNull, GeometryAsWrittenSilent and GeometrySpec |
| RoxtermGeometry.CheckGeomOffsets | src/roxterm.c:3968-3982 | definition of check_geom_offsets (no contract of its own); its meaning is stated by CheckOffsetsOf and CheckOffsetsAt |
| RoxtermGeometry.SignEnd | src/roxterm.c:3954-3955 | the digits start after at most one leading sign |
| RoxtermGeometry.ParseGeomN | src/roxterm.c:3949-3966 | a parsed number ends inside the string, after at least one digit past the sign |
| RoxtermGeometry.ParseGeomNSound | src/roxterm.c:3949-3966 | a parsed number is a run of digits ended by the end of the string or an allowed terminator, and its value is that decimal, negated after '-' |
| RoxtermGeometry.ParseGeomNComplete | src/roxterm.c:3949-3966 | every optionally signed run of digits ended by the end or an allowed terminator is parsed, to its value and end |
| RoxtermGeometry.ParseGeomNOfNumber | src/roxterm.c:3949-3966 | a written number followed by an allowed terminator parses back to itself |
| RoxtermGeometry.ParseGeomNAt | src/roxterm.c:3949-3966 | an optional sign, digits of value v and then the end or a terminator parse to v, negated after '-', ending after the digits |
| RoxtermGeometry.OffsetAt | src/roxterm.c:3949-3966 | a signed offset followed by the end or a terminator parses back to itself |
| RoxtermGeometry.NumberShape | src/roxterm.c:3954-3961 | where the sign, digits and terminator of a written number fall in the string |
| RoxtermGeometry.CheckOffsetsOf | src/roxterm.c:3970-3982 | any pair of signed offsets passes the offset check |
| RoxtermGeometry.CheckOffsetsAt | src/roxterm.c:3970-3982 | a string holding two signed offsets from i to its end passes the offset check at i |
| RoxtermGeometry.GeometryAsWrittenDereferencesNull | src/roxterm.c:4077-4078 | as written, "80x" and "80xy" dereference the null result of parsing the height |
| RoxtermGeometry.GeometryAsWrittenSilent | src/roxterm.c:4089-4100 | as written, a rejected geometry such as "80", or the empty one, is dropped without the warning, because the test is on the pointer and not on the parsed result |
| RoxtermGeometry.GeometrySpec | src/roxterm.c:4053-4100 | a kept geometry and any size come from the given string; the warning is shown exactly when a given geometry, the empty one included, is rejected; where the code as written finishes it keeps the same geometry and size |
| RoxtermGeometry.GeometryOfSize | src/roxterm.c:4068-4092 | "WxH" with or without offsets is kept and gives columns W and rows H |
| RoxtermGeometry.SizeText | src/roxterm.c:4068-4092 | any digits of W, 'x' and digits of H, with or without two offsets after them, are kept as that size |
| RoxtermGeometry.SizeParses | src/roxterm.c:4071-4076 | the width parses up to the 'x' and the height up to the end or the sign of the offsets |
| RoxtermGeometry.SizeAccepted | src/roxterm.c:4068-4092 | a width, 'x', a height and then the end or valid offsets make the geometry accepted with that size |
| RoxtermGeometry.GeometryOfOffsets | src/roxterm.c:4058-4066 | a geometry of offsets alone is kept and sets no size |
| RoxtermGeometry.GeometrySignedHeight | src/roxterm.c:4075-4076 | the height may carry a sign: "80x-24" gives rows -24 |
| RoxtermSession.Atoi | src/roxterm.c:4931-4932 | definition of atoi as strtol's value (no contract of its own); its meaning is stated by AtoiOfCount |
| RoxtermSession.ArgcOf | src/roxterm.c:4926-4950 | definition of the argc a <command> leaves (no contract of its own); its meaning is stated by SessionParser.ReadCommand, OpenCommand and StartElement |
| RoxtermSession.FirstUnknown | src/roxterm.c:4996-5015 | nothing is reported exactly when every attribute name is known; a reported name is unknown |
| RoxtermSession.FirstUnknownAt | src/roxterm.c:4996-5015 | the reported name is the first unknown one in document order |
| RoxtermSession.LastValue | src/roxterm.c:4967-4980 | a value is found exactly when the attribute is present, and it is one of its values |
| RoxtermSession.AtoiOfCount | src/roxterm.c:4931-4932 | atoi reads back a written argument count |
| RoxtermSession.Argv | src/roxterm.c:4940-4943 | the command is the arguments filled in before the first empty slot of the zeroed vector |
| RoxtermSession.ArgvOfFilled | src/roxterm.c:4940-4943 | a vector filled with all its arguments and ended by its spare slot gives exactly those arguments |
| RoxtermSession.CheckAttributes | src/roxterm.c:4996-5015 | the loop reports the first attribute whose name is not allowed, or nothing |
| RoxtermSession.SessionParser.constructor | src/roxterm.c:5192 | a fresh parser has no open tag, no command and no windows |
| RoxtermSession.SessionParser.OpenCommandAsWritten | src/roxterm.c:4919-4951 | as written, an unknown attribute is an error; otherwise argc is the last argc attribute or the count left from an earlier command, and zero is reported as missing |
| RoxtermSession.SessionParser.OpenCommand | src/roxterm.c:4919-4951 | with the count reset for each command, a command without argc is reported as missing and argc n allocates n+1 slots |
| RoxtermSession.SessionParser.ReadCommand | src/roxterm.c:4926-4950 | the attribute loop and allocation shared by both readings of <command> |
| RoxtermSession.SessionParser.OpenArg | src/roxterm.c:4953-4994 | too many args, an unknown attribute or a missing s are errors that change nothing; otherwise s is stored in the next slot |
| RoxtermSession.SessionParser.StartElement | src/roxterm.c:5017-5106 | each element is accepted only in its parent, with the errors for unknown, misplaced and nested elements; `<command>` is read by the corrected `OpenCommand` (argc reset for each command), not by `OpenCommandAsWritten`; an error leaves the state unchanged except for `<roxterm_session>`, which opens the session tag even when it reports an unknown attribute, as the source does |
| RoxtermSession.SessionParser.EndElement | src/roxterm.c:5108-5176 | each closing tag needs its open tag and closed children; closing a tab records its command, closing a window records its tabs |
| RoxtermSession.ReadTab | src/roxterm.c:4813-4918 | the tags a session file writes for a tab are accepted and record exactly that tab's command |
| RoxtermSession.ReadWindow | src/roxterm.c:4625-4812 | the tags for a window are accepted and record its tabs; a window without tabs is not recorded |
| RoxtermSession.ReadSession | src/roxterm.c:5017-5176 | a whole session is accepted and yields its non-empty windows in order |
| RoxtermSession.AfterOneCommand | src/roxterm.c:4919-4951 | after a tab whose command had one argument the parser keeps argc 1 into the next tab |
| RoxtermSession.StaleArgc | src/roxterm.c:4924-4950 | a <command> without argc after an earlier command is accepted as written and refused when corrected |
| RoxtermSession.AfterCommandClosed | src/roxterm.c:5160-5166 | </command> keeps the vector, so a second <command> in the tab is nested and a further <arg> is still taken |
| KeyFiles.GetInteger | src/optsfile.c:376 | definition of the integer lookup (no contract of its own); its meaning is stated by OptsFile.LookupIntWithDefault |
| KeyFiles.GetString | src/optsfile.c:355 | a string is found exactly when the key is stored, and it is the stored value; KeyFiles.GetStringAfterSet and OptsFile.LookupStringWithDefault state what a lookup returns after a set and with a default |
| KeyFiles.GetStringAfterSet | src/optsfile.c:355 | a string set under a key reads back from it, and every other key reads as before |
| KeyFiles.ParseInteger | src/optsfile.c:376 | a parsed integer fits a C int |
| CStrings.StrChr | src/roxterm.c:3962 | the index found holds the character and no earlier index does; none exactly when the character does not occur |
| CStrings.StrRChr | src/options.c:213 | the index found holds the character and no later index does; none exactly when the character does not occur |
| FileNames.BuildFilename | src/dynopts.c:110 | g_build_filename of two elements: an empty element is skipped, so the other comes back unchanged; what else it keeps is stated by FileNames.BuildFilenameEnds and FileNames.BuildFilenameComponents |
| FileNames.BuildFilenameEnds | src/dynopts.c:110 | the built name starts with the first element up to its trailing separators and ends with the second after its leading ones |
| FileNames.BuildFilenameComponents | src/dynopts.c:110 | whatever separators the elements carry, the built name's components are the first element's followed by the second's: none lost, added or merged |
| FileNames.Leafname | src/options.c:203-208 | the text after the last separator, or the whole name without one: it holds no separator, it is a suffix of the name, it is shorter exactly when the name has a separator, and then a separator comes right before it |
| FileNames.LeafnameUnique | src/options.c:203-208 | the leafname is the only separator-free suffix that is the whole name or follows a separator |
| FileNames.LeafnameAppend | src/options.c:203-208 | text put before a name does not change its leafname when the name has a separator or the text ends in one |
| FileNames.LeafnameOfBuild | src/options.c:210-226 | the leafname of a directory joined with a leaf without separators is that leaf |
| FileNames.JoinPlain | src/options.c:215-219 | components that neither end nor start with a separator are joined by exactly one |

## Left out

These parts are not modelled at all:

- GTK, GDK and VTE widget code (building windows, menus, dialogs and terminals, signal wiring, painting): it is user interface with no checkable contract beyond the state the model keeps.
- D-Bus messaging between roxterm instances and the configuration manager: inter-process I/O.
- The threads, locks and condition variables of maitch's `Builder` and of the OSC 52 shim: the model has a single worker that takes one job at a time. The shim's reader and writer loops are I/O and are also left out.
- `fork`/`exec`, pipes and file descriptors in the spawner: the model covers the message protocol written to the pipe, and the pipe I/O itself is left out.
- Writing session files and the GMarkup parser itself: the session parser's callbacks receive element names and attributes as values.
- Floating point: zoom factors and `options_lookup_double`. Zoom is modelled by its index in the zoom table.
- maitch's configure, package-detection and install machinery, and `mscript.py`: these are outside the build engine.
- The menu tree's handlers for changing and selecting encodings: they only update widgets.

Some behaviour is taken as an oracle or a parameter:

- Outside services:
  - GLib functions (key files, `g_build_filename` of two elements, `strtol`) are modelled from their documented behaviour; `g_build_filename` keeps the separator rules of `g_build_path`, including elements made only of separators.
  - Looking up programs on `PATH` and asking whether a path is a file or directory in `uri.c` are parameters.
  - Colour-name parsing in `colourscheme.c` is an oracle.
  - Case folding and collation, used when the dynamic-options list is sorted, are an oracle.
  - `MAX_CAPACITY` for the OSC 52 filter comes from `config.h`, which is not part of this model, so it is a parameter.
- Build outcomes:
  - Whether a build job succeeds is an oracle (the set of failing jobs).
  - What a rule's `dep_func` generates is an oracle.
  - The file system is a snapshot of paths and modification times, and paths are not normalised with `os.path.normpath`.

Some behaviour is modelled in a simplified or bounded form:

- `BuildGroup` takes target and dependency names as already substituted.
- `is_uptodate` follows Python 2's rules: `None` compares below every int, and an mtime of 0 counts as false.
- `list_static_deps` extends the rule's own `deps` list in place when that list is non-empty, and `satisfy_deps` extends the job's `wdeps` list in place when that is non-empty. The model returns the extended list and leaves both lists as they were.
- In the session parser, window and tab attribute values are not interpreted; only the attribute names are checked.
- Recursive substitution (`MaitchStrings.Subst`): a `depth` bound stands in for Python's recursion limit. With recursion on, the source's skip mode loops forever once an undefined name is left in the text; the model stops at the bound with an error instead. A `${-NAME}` escape can never arise, because the pattern's name group cannot contain '-'.
- DynOpts.DynamicOptions.ListFull: models the unsorted listing ("Default", then each search path's new entries in order). The sorted variant, which orders names by a case-folding comparison, is not modelled.

Some contracts are deliberately weaker than the source:

- Encodings.Add: requires the stored count to be below `INT_MAX`; the C `int` overflow of `count + 1` is not modelled.
- Encodings.AddAppends: the same bound as `Encodings.Add`.
- RoxtermEnv.CursorBlinkModes: the 32-bit wrap-around of `blinks + 1` is not modelled.
- RoxtermGeometry.ParseGeomNSound: `sscanf`'s behaviour when a number overflows is not modelled; numbers are taken as read exactly.
- RoxtermSession.AtoiOfCount: requires the count to be at most `INT_MAX`, because `atoi` is undefined beyond it.
- OptsFile.LookupIntAfterSet: requires the value to fit a C `int`, which is the type `g_key_file_set_integer` takes.
- MenuTrees.TabAccel: only the accelerators for tabs 0 to 9 exist; other tabs have none.
- Spawn.Int32ThroughUint32: requires the code to fit an `int32_t`, its C type.
- Spawn.ParseErrorOfErrBody: requires the domain to fit a `uint32_t` and the code an `int32_t`, their C types.
- Spawn.ListenerReportsChildError: requires the domain to fit a `uint32_t` and the code an `int32_t`, their C types.
- Spawn.ListenerStartsChild: requires the pid to be a positive `int32_t`, as `pid_t` is.
- MaitchBuildRun.BuildOutcome: requires every rule's targets to be owned by that rule in `explicit_rules`. `add_rule` (maitch.py:552-556) lets a later rule that names the same target take it over, which leaves the earlier rule owning none of its own targets; that case is not modelled.
- MaitchBuildRun.Build: the same ownership requirement as `MaitchBuildRun.BuildOutcome`.
- GetName.SuggestName: numbers are unbounded. The C `int` overflow of `atoi` on a trailing number above `INT_MAX`, and of `++num` past it, is not modelled.
- Uri.FormatOne: only `%%` and one `%s` count as defined directives. Flags, widths and precisions such as `%5s`, which printf accepts, give no result in the model.
- IntPtrMap.IntPointerMap.Contains: requires `key >= 0`. For a negative key the source shifts by a negative amount, which C leaves undefined.
- IntPtrMap.IntPointerMap.Insert: requires `key >= 0`, for the same reason as `Contains`.
- IntPtrMap.IntPointerMap.Remove: requires `key >= 0`, for the same reason as `Contains`.

## Findings

| source | as written | input that shows it | evidently intended | confidence | as-written member | corrected member |
|---|---|---|---|---|---|---|
| src/getname.c:51-52 | the backwards scan for trailing digits has no lower bound | a name made only of digits, such as "42", or the empty name: the scan reads `orig[-1]` | stop at the start of the name, so that all of it counts as the digits | not executed | GetName.ScanAsWrittenReadsBeforeStart | GetName.SuggestName |
| src/encodings.c:69-83 | the stored `count` is used as the list length without a sign check | a count of "-1" loses "Default"; with "-2", `g_new` of zero slots returns NULL and `list[0]` is stored through it; with "-3" or below, `g_new` aborts | treat a negative count as zero | not executed | Encodings.ListAsWrittenNegativeCount | Encodings.List |
| src/shim.c:353-410 | the one-byte allowance sets the capacity to `max_capacity + 1`, which can be below the current capacity | start 0, end = capacity = max + 2, one spare byte wanted: the assertion fails. With capacity = max + 1 it reports success with no free byte | never shrink the buffer; report success only when a byte is free | not executed | ShimFilter.EnsureAsWrittenAsserts | ShimFilter.EnsureCorrectedSpec |
| src/shim.c:545-556 | the unsigned guards `offset < buflen - k` wrap around when fewer than k bytes are buffered | buffer [0x9D] with offset 1: the comparisons let reads go past the end | check `offset + k < buflen` | not executed | ShimFilter.Contains52AsWrittenReadsOutside | ShimFilter.Osc52Filter.BufContains52 |
| src/multitab.c:1428-1433 | a zoom index past the table's end is replaced by the zoom factor's value instead of the last index | a stored index of 15 becomes 3, the last zoom factor 3.58 truncated to an int | clamp to the last index, 14 | not executed | MultiTabs.InitialZoomAsWrittenShrinks | MultiTabs.InitialZoom |
| src/roxterm.c:4077-4078 | when the height is missing, `parse_geom_n` returns NULL and the result is dereferenced anyway | "80x" or "80xy" | reject the geometry | not executed | RoxtermGeometry.GeometryAsWrittenDereferencesNull | RoxtermGeometry.GeometrySpec |
| src/roxterm.c:4097 | `if (!geom)` tests the pointer rather than the parsed result, so the warning about a bad geometry never shows | "80" | warn when parsing fails | not executed | RoxtermGeometry.GeometryAsWrittenSilent | RoxtermGeometry.GeometrySpec |
| src/roxterm.c:4919-4950 | `parse_open_command` never resets `argc`, so an earlier command's count survives | a `<command>` element without `argc` after one with `argc="2"` is accepted | reset `argc` for each command, so that a command without its own `argc` is rejected | not executed | RoxtermSession.SessionParser.OpenCommandAsWritten | RoxtermSession.SessionParser.OpenCommand |
