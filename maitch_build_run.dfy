/**
 * What a whole build promises: resolution (add_target, add_job,
 * satisfy_deps) keeps the bookkeeping invariant and raises a circular
 * dependency only when the rules have a cycle; the worker never waits
 * forever, never hits a missing edge in job_done, and starts every job
 * after the jobs it depends on; and the jobs started form no cycle.
 */
module MaitchBuildRun {
  import opened Wrappers
  import opened MaitchFiles
  import opened MaitchRule
  import opened MaitchBuild
  import opened MaitchBuildInv

  /** Along a chain whose every rule is ranked below the one before, ranks strictly fall. */
  lemma {:induction false} RankFallsAlongPath(rules: seq<Rule>, explicitRules: map<string, nat>,
                                              jobs: set<nat>, rank: map<nat, nat>, p: seq<nat>)
    requires jobs <= rank.Keys
    requires forall a, b :: a in jobs && a < |rules| && DependsOn(rules, explicitRules, a, b) ==> b in jobs && rank[b] < rank[a]
    requires IsPath(rules, explicitRules, p) && |p| >= 2 && forall i :: 0 <= i < |p| ==> p[i] in jobs
    ensures rank[p[|p| - 1]] < rank[p[0]]
    decreases |p|
  {
    assert DependsOn(rules, explicitRules, p[0], p[1]);
    if |p| > 2 {
      var q := p[1..];
      assert forall i :: 0 <= i < |q| ==> q[i] == p[i + 1];
      RankFallsAlongPath(rules, explicitRules, jobs, rank, q);
    }
  }

  /** A ranking that falls along every dependency leaves no cycle. */
  lemma RankedIsAcyclic(rules: seq<Rule>, explicitRules: map<string, nat>, jobs: set<nat>, rank: map<nat, nat>)
    requires jobs <= rank.Keys
    requires forall a, b :: a in jobs && a < |rules| && DependsOn(rules, explicitRules, a, b) ==> b in jobs && rank[b] < rank[a]
    ensures Acyclic(rules, explicitRules, jobs)
  {
    forall p | IsPath(rules, explicitRules, p) && |p| >= 2 && (forall i :: 0 <= i < |p| ==> p[i] in jobs)
      ensures p[0] != p[|p| - 1]
    {
      RankFallsAlongPath(rules, explicitRules, jobs, rank, p);
    }
  }

  /** The jobs of a sequence, as a set. */
  function Members(s: seq<nat>): (r: set<nat>)
    ensures forall j :: j in r <==> j in s
  {
    set j | j in s
  }

  // ---------------------------------------------------------------------
  // Resolution

  /**
   * The facts one resolution step hands to the next come in bundles, each
   * stated as "every part holds", so that a proof which only passes a
   * bundle along does not have to look inside it. The Open and Close
   * lemmas convert between a bundle and its parts.
   */
  datatype Part = First | Second | Third | Fourth

  /** Resolving along the chain `stack` of jobs being calculated: the invariant holds and nothing has run. */
  ghost predicate Resolution(c: Ctx, g: Graph, k: Book, stack: seq<nat>)
  {
    forall part :: ResolutionPart(c, g, k, stack, part)
  }

  ghost predicate ResolutionPart(c: Ctx, g: Graph, k: Book, stack: seq<nat>, part: Part)
  {
    match part
    case First => Inv(c, g, k, -1)
    case Second => Resolving(g)
    case Third => |g.calculating| == |c.rules| && Stack(c, g, stack)
    case Fourth => IsPath(c.rules, c.explicitRules, stack)
  }

  lemma OpenResolution(c: Ctx, g: Graph, k: Book, stack: seq<nat>)
    requires Resolution(c, g, k, stack)
    ensures Inv(c, g, k, -1) && Resolving(g) && |g.calculating| == |c.rules| && Stack(c, g, stack)
    ensures IsPath(c.rules, c.explicitRules, stack)
  {
    assert ResolutionPart(c, g, k, stack, First) && ResolutionPart(c, g, k, stack, Second);
    assert ResolutionPart(c, g, k, stack, Third) && ResolutionPart(c, g, k, stack, Fourth);
  }

  lemma CloseResolution(c: Ctx, g: Graph, k: Book, stack: seq<nat>)
    requires Inv(c, g, k, -1) && Resolving(g) && |g.calculating| == |c.rules| && Stack(c, g, stack)
    requires IsPath(c.rules, c.explicitRules, stack)
    ensures Resolution(c, g, k, stack)
  {
  }

  /**
   * From (g, k) to (g1, k1) within one resolution: the invariant still
   * holds, nothing has run, nothing was lost, only new jobs (or `owner`)
   * gained edges, and the same jobs are being calculated.
   */
  ghost predicate Extends(c: Ctx, g: Graph, k: Book, g1: Graph, k1: Book, owner: int)
  {
    forall part :: ExtendsPart(c, g, k, g1, k1, owner, part)
  }

  ghost predicate ExtendsPart(c: Ctx, g: Graph, k: Book, g1: Graph, k1: Book, owner: int, part: Part)
  {
    match part
    case First => Inv(c, g1, k1, -1)
    case Second => Resolving(g1)
    case Third => Grown(g, k, g1, k1, owner)
    case Fourth => g1.calculating == g.calculating
  }

  lemma OpenExtends(c: Ctx, g: Graph, k: Book, g1: Graph, k1: Book, owner: int)
    requires Extends(c, g, k, g1, k1, owner)
    ensures Inv(c, g1, k1, -1) && Resolving(g1) && Grown(g, k, g1, k1, owner) && g1.calculating == g.calculating
  {
    assert ExtendsPart(c, g, k, g1, k1, owner, First) && ExtendsPart(c, g, k, g1, k1, owner, Second);
    assert ExtendsPart(c, g, k, g1, k1, owner, Third) && ExtendsPart(c, g, k, g1, k1, owner, Fourth);
  }

  lemma CloseExtends(c: Ctx, g: Graph, k: Book, g1: Graph, k1: Book, owner: int)
    requires Inv(c, g1, k1, -1) && Resolving(g1) && Grown(g, k, g1, k1, owner) && g1.calculating == g.calculating
    ensures Extends(c, g, k, g1, k1, owner)
  {
  }

  lemma ExtendsRefl(c: Ctx, g: Graph, k: Book, stack: seq<nat>, owner: int)
    requires Resolution(c, g, k, stack)
    ensures Extends(c, g, k, g, k, owner)
  {
    OpenResolution(c, g, k, stack);
    CloseExtends(c, g, k, g, k, owner);
  }

  lemma ExtendsTrans(c: Ctx, g: Graph, k: Book, g1: Graph, k1: Book, g2: Graph, k2: Book, o: int, o2: int)
    requires Extends(c, g, k, g1, k1, o) && Extends(c, g1, k1, g2, k2, o2)
    requires o2 == o || o2 == -1 || (o2 >= 0 && o2 !in k.added)
    ensures Extends(c, g, k, g2, k2, o)
  {
    OpenExtends(c, g, k, g1, k1, o);
    OpenExtends(c, g1, k1, g2, k2, o2);
    GrownTrans(g, k, g1, k1, g2, k2, o, o2);
    CloseExtends(c, g, k, g2, k2, o);
  }

  lemma ResolutionMoves(c: Ctx, g: Graph, k: Book, stack: seq<nat>, g1: Graph, k1: Book, o: int)
    requires Resolution(c, g, k, stack) && Extends(c, g, k, g1, k1, o)
    ensures Resolution(c, g1, k1, stack)
  {
    OpenResolution(c, g, k, stack);
    OpenExtends(c, g, k, g1, k1, o);
    CloseResolution(c, g1, k1, stack);
  }

  /** `job`, on top of the chain, has been added and is being calculated, and every job blocking it is resolved. */
  ghost predicate Top(c: Ctx, g: Graph, k: Book, job: nat, stack: seq<nat>)
  {
    forall part :: TopPart(c, g, k, job, stack, part)
  }

  ghost predicate TopPart(c: Ctx, g: Graph, k: Book, job: nat, stack: seq<nat>, part: Part)
  {
    match part
    case First => stack != [] && stack[|stack| - 1] == job && job < |c.rules|
    case Second => job in k.added
    case Third => job < |g.calculating| && g.calculating[job]
    case Fourth => forall b :: 0 <= b < |g.blocking| && job in g.blocking[b] ==> b in k.rank
  }

  lemma OpenTop(c: Ctx, g: Graph, k: Book, job: nat, stack: seq<nat>)
    requires Top(c, g, k, job, stack)
    ensures stack != [] && stack[|stack| - 1] == job && job < |c.rules| && job in k.added
    ensures job < |g.calculating| && g.calculating[job]
    ensures forall b :: 0 <= b < |g.blocking| && job in g.blocking[b] ==> b in k.rank
  {
    assert TopPart(c, g, k, job, stack, First) && TopPart(c, g, k, job, stack, Second);
    assert TopPart(c, g, k, job, stack, Third) && TopPart(c, g, k, job, stack, Fourth);
  }

  lemma CloseTop(c: Ctx, g: Graph, k: Book, job: nat, stack: seq<nat>)
    requires stack != [] && stack[|stack| - 1] == job && job < |c.rules| && job in k.added
    requires job < |g.calculating| && g.calculating[job]
    requires forall b :: 0 <= b < |g.blocking| && job in g.blocking[b] ==> b in k.rank
    ensures Top(c, g, k, job, stack)
  {
  }

  /** `job` is blocked by the explicit rule of each of the names `ds`. */
  ghost predicate Edges(c: Ctx, g: Graph, job: nat, ds: seq<string>)
  {
    forall d <- ds :: d in c.explicitRules ==> c.explicitRules[d] < |g.blocking| && job in g.blocking[c.explicitRules[d]]
  }

  lemma EdgesSnoc(c: Ctx, g: Graph, k: Book, g1: Graph, k1: Book, job: nat, deps: seq<string>, i: nat)
    requires Extends(c, g, k, g1, k1, job) && i < |deps| && Edges(c, g, job, deps[..i])
    requires deps[i] in c.explicitRules ==> c.explicitRules[deps[i]] < |g1.blocking| && job in g1.blocking[c.explicitRules[deps[i]]]
    ensures Edges(c, g1, job, deps[..i + 1])
  {
    OpenExtends(c, g, k, g1, k1, job);
    forall d <- deps[..i + 1] | d in c.explicitRules
      ensures c.explicitRules[d] < |g1.blocking| && job in g1.blocking[c.explicitRules[d]]
    {
      if d != deps[i] {
        assert d in deps[..i];
      }
    }
  }

  /** A queued dependency names the rule that owns it, which the job therefore depends on. */
  lemma QueuedOwner(c: Ctx, g: Graph, k: Book, job: nat, dep: string)
    requires WellFormed(c.rules, c.explicitRules) && Owners(c, g, k)
    requires job < |c.rules| && dep in JobDeps(c.rules[job]) && dep in g.queued
    ensures g.queued[dep] < |c.rules| && g.queued[dep] in k.added
    ensures DependsOn(c.rules, c.explicitRules, job, g.queued[dep])
  {
    assert c.explicitRules[dep] == g.queued[dep];
  }

  /** The explicit rule of a dependency that is not queued has not been added, and extends the chain. */
  lemma UnqueuedOwner(c: Ctx, g: Graph, k: Book, job: nat, dep: string, stack: seq<nat>)
    requires WellFormed(c.rules, c.explicitRules) && Owners(c, g, k)
    requires job < |c.rules| && dep in JobDeps(c.rules[job]) && dep !in g.queued && dep in c.explicitRules
    requires IsPath(c.rules, c.explicitRules, stack) && stack != [] && stack[|stack| - 1] == job
    ensures var rule := c.explicitRules[dep];
      rule < |c.rules| && rule !in k.added && DependsOn(c.rules, c.explicitRules, job, rule)
      && IsPath(c.rules, c.explicitRules, stack + [rule])
  {
    var rule := c.explicitRules[dep];
    assert dep in c.rules[rule].targets;
    assert DependsOn(c.rules, c.explicitRules, job, rule);
    var p := stack + [rule];
    assert forall i :: 0 <= i < |stack| ==> p[i] == stack[i];
  }

  /** The rule add_job is called on has not been added before. */
  lemma NotAdded(c: Ctx, g: Graph, k: Book, job: nat, name: string)
    requires WellFormed(c.rules, c.explicitRules) && Owners(c, g, k)
    requires name in c.explicitRules && c.explicitRules[name] == job && name !in g.queued
    ensures job < |c.rules| && job !in k.added
  {
    assert name in c.rules[job].targets;
  }

  /** A dependency owned by a job still being calculated closes a cycle through the chain. */
  lemma CycleThrough(c: Ctx, g: Graph, stack: seq<nat>, rule: nat)
    requires |g.calculating| == |c.rules| && Stack(c, g, stack)
    requires IsPath(c.rules, c.explicitRules, stack) && stack != [] && stack[|stack| - 1] < |c.rules|
    requires rule < |c.rules| && g.calculating[rule]
    requires DependsOn(c.rules, c.explicitRules, stack[|stack| - 1], rule)
    ensures HasCycle(c.rules, c.explicitRules)
  {
    var i :| 0 <= i < |stack| && stack[i] == rule;
    var p := stack[i..] + [rule];
    assert IsPath(c.rules, c.explicitRules, p);
  }

  /**
   * add_job on the explicit rule of `name`, reached along the chain
   * `stack` of jobs being calculated: a circular dependency is a cycle in
   * the rules; success keeps the invariant and ranks the job.
   */
  lemma AddJobKeeps(c: Ctx, g: Graph, k: Book, job: nat, name: string, stack: seq<nat>) returns (k1: Book)
    requires WellFormed(c.rules, c.explicitRules) && Sized(c, g)
    requires name in c.explicitRules && c.explicitRules[name] == job && name !in g.queued
    requires Resolution(c, g, k, stack) && IsPath(c.rules, c.explicitRules, stack + [job])
    ensures var r := AddJobF(c, g, job, name);
      (r.1.Some? && r.1.value.Circular? ==> HasCycle(c.rules, c.explicitRules))
      && (r.1.None? ==> Extends(c, g, k, r.0, k1, -1) && job in k1.rank)
    decreases Unqueued(c, g), 0, 0
  {
    var k0 := AddJobBegin(c, g, k, job, name, stack);
    var g1 := Start(g, job, c.rules[job].targets);
    StartSized(c, g, job, c.rules[job].targets);
    QueueingShrinks(c.explicitRules.Keys, g.queued.Keys, g1.queued.Keys, name);
    var deps := JobDeps(c.rules[job]);
    var k2 := SatisfyDepsKeeps(c, g1, k0, job, deps, 0, stack + [job]);
    AddJobUnfold(c, g, job, name);
    k1 := k2;
    var s := SatisfyDepsF(c, g1, job, deps, 0);
    if s.1.None? {
      k1 := AddJobEnd(c, g, k, g1, k0, s.0, k2, job, stack + [job]);
    }
  }

  /** add_job up to satisfy_deps: the job joins the chain, with no blocker yet. */
  lemma AddJobBegin(c: Ctx, g: Graph, k: Book, job: nat, name: string, stack: seq<nat>) returns (k0: Book)
    requires WellFormed(c.rules, c.explicitRules) && Sized(c, g)
    requires name in c.explicitRules && c.explicitRules[name] == job && name !in g.queued
    requires Resolution(c, g, k, stack) && IsPath(c.rules, c.explicitRules, stack + [job])
    ensures job < |c.rules| && job !in k.added && k0 == k.(added := k.added + {job})
    ensures job < |g.calculating| && !g.calculating[job]
    ensures Start(g, job, c.rules[job].targets).calculating == g.calculating[job := true]
    ensures var g1 := Start(g, job, c.rules[job].targets);
      Resolution(c, g1, k0, stack + [job]) && Top(c, g1, k0, job, stack + [job])
      && Grown(g, k, g1, k0, -1) && Edges(c, g1, job, JobDeps(c.rules[job])[..0])
  {
    OpenResolution(c, g, k, stack);
    InvParts(c, g, k, -1);
    NotAdded(c, g, k, job, name);
    k0 := k.(added := k.added + {job});
    var g1 := Start(g, job, c.rules[job].targets);
    StartKeepsInv(c, g, k, job);
    StartFacts(c, g, k, job, stack);
    CloseResolution(c, g1, k0, stack + [job]);
    CloseTop(c, g1, k0, job, stack + [job]);
  }

  /** add_job after a satisfy_deps that raised nothing: the job leaves the chain, ranked above its blockers. */
  lemma AddJobEnd(c: Ctx, g: Graph, k: Book, g1: Graph, k0: Book, s: Graph, k2: Book, job: nat, stack: seq<nat>) returns (k1: Book)
    requires WellFormed(c.rules, c.explicitRules) && job < |g.calculating| && job < |c.rules| && Sized(c, s)
    requires job !in k.added && !g.calculating[job] && g1.calculating == g.calculating[job := true]
    requires Grown(g, k, g1, k0, -1) && Extends(c, g1, k0, s, k2, job)
    requires Top(c, s, k2, job, stack) && Edges(c, s, job, JobDeps(c.rules[job]))
    ensures Extends(c, g, k, Finish(s, job), k1, -1) && job in k1.rank
  {
    OpenExtends(c, g1, k0, s, k2, job);
    OpenTop(c, s, k2, job, stack);
    FinishKeepsInv(c, s, k2, job);
    FinishFacts(c, s, k2, job);
    k1 := k2.(rank := k2.rank[job := k2.nextRank], nextRank := k2.nextRank + 1);
    GrownTrans(g, k, g1, k0, s, k2, -1, job);
    GrownTrans(g, k, s, k2, Finish(s, job), k1, -1, -1);
    assert Finish(s, job).calculating == g.calculating;
    CloseExtends(c, g, k, Finish(s, job), k1, -1);
  }

  /** satisfy_deps from the i-th dependency on, for the job on top of the chain. */
  lemma SatisfyDepsKeeps(c: Ctx, g: Graph, k: Book, job: nat, deps: seq<string>, i: nat, stack: seq<nat>) returns (k1: Book)
    requires WellFormed(c.rules, c.explicitRules) && Sized(c, g) && job < |c.rules| && i <= |deps|
    requires deps == JobDeps(c.rules[job])
    requires Resolution(c, g, k, stack) && Top(c, g, k, job, stack) && Edges(c, g, job, deps[..i])
    ensures var r := SatisfyDepsF(c, g, job, deps, i);
      (r.1.Some? && r.1.value.Circular? ==> HasCycle(c.rules, c.explicitRules))
      && (r.1.None? ==> Extends(c, g, k, r.0, k1, job) && Top(c, r.0, k1, job, stack) && Edges(c, r.0, job, deps))
    decreases Unqueued(c, g), 2, |deps| - i
  {
    if i == |deps| {
      assert deps[..i] == deps;
      ExtendsRefl(c, g, k, stack, job);
      return k;
    }
    assert deps[i] in deps;
    var k2 := SatisfyDepKeeps(c, g, k, job, deps[i], stack);
    var s := SatisfyDepF(c, g, job, deps[i]);
    if s.1.Some? {
      return k;
    }
    ResolutionMoves(c, g, k, stack, s.0, k2, job);
    EdgesSnoc(c, g, k, s.0, k2, job, deps, i);
    k1 := SatisfyDepsKeeps(c, s.0, k2, job, deps, i + 1, stack);
    var r := SatisfyDepsF(c, s.0, job, deps, i + 1);
    if r.1.None? {
      ExtendsTrans(c, g, k, s.0, k2, r.0, k1, job, job);
    }
  }

  /** One dependency of satisfy_deps, for the job on top of the chain. */
  lemma SatisfyDepKeeps(c: Ctx, g: Graph, k: Book, job: nat, dep: string, stack: seq<nat>) returns (k1: Book)
    requires WellFormed(c.rules, c.explicitRules) && Sized(c, g) && job < |c.rules| && dep in JobDeps(c.rules[job])
    requires Resolution(c, g, k, stack) && Top(c, g, k, job, stack)
    ensures var r := SatisfyDepF(c, g, job, dep);
      (r.1.Some? && r.1.value.Circular? ==> HasCycle(c.rules, c.explicitRules))
      && (r.1.None? ==> Extends(c, g, k, r.0, k1, job) && Top(c, r.0, k1, job, stack)
                        && (dep in c.explicitRules ==> c.explicitRules[dep] < |r.0.blocking| && job in r.0.blocking[c.explicitRules[dep]]))
    decreases Unqueued(c, g), 1, 0
  {
    k1 := k;
    if dep in g.queued {
      QueuedDepKeeps(c, g, k, job, dep, stack);
    } else if dep in c.explicitRules {
      k1 := ExplicitDepKeeps(c, g, k, job, dep, stack);
    } else {
      SourceDepKeeps(c, g, k, job, dep, stack);
    }
  }

  /** A dependency already queued: a cycle when its owner is still being calculated, otherwise one more edge. */
  lemma QueuedDepKeeps(c: Ctx, g: Graph, k: Book, job: nat, dep: string, stack: seq<nat>)
    requires WellFormed(c.rules, c.explicitRules) && Sized(c, g) && job < |c.rules| && dep in JobDeps(c.rules[job])
    requires dep in g.queued
    requires Resolution(c, g, k, stack) && Top(c, g, k, job, stack)
    ensures var r := SatisfyDepF(c, g, job, dep);
      (r.1.Some? && r.1.value.Circular? ==> HasCycle(c.rules, c.explicitRules))
      && (r.1.None? ==> Extends(c, g, k, r.0, k, job) && Top(c, r.0, k, job, stack)
                        && (dep in c.explicitRules ==> c.explicitRules[dep] < |r.0.blocking| && job in r.0.blocking[c.explicitRules[dep]]))
  {
    if g.calculating[g.queued[dep]] {
      QueuedCycle(c, g, k, job, dep, stack);
    } else {
      MarkQueued(c, g, k, job, dep, stack);
    }
  }

  /** A dependency with no explicit rule is a source file: finding it changes nothing. */
  lemma SourceDepKeeps(c: Ctx, g: Graph, k: Book, job: nat, dep: string, stack: seq<nat>)
    requires WellFormed(c.rules, c.explicitRules) && Sized(c, g) && job < |c.rules|
    requires dep !in g.queued && dep !in c.explicitRules
    requires Resolution(c, g, k, stack) && Top(c, g, k, job, stack)
    ensures var r := SatisfyDepF(c, g, job, dep);
      r.1.None? ==> Extends(c, g, k, r.0, k, job) && Top(c, r.0, k, job, stack)
  {
    ExtendsRefl(c, g, k, stack, job);
  }

  /** A dependency with an explicit rule not yet queued: the rule is marked blocking, then added as a job. */
  lemma ExplicitDepKeeps(c: Ctx, g: Graph, k: Book, job: nat, dep: string, stack: seq<nat>) returns (k1: Book)
    requires WellFormed(c.rules, c.explicitRules) && Sized(c, g) && job < |c.rules| && dep in JobDeps(c.rules[job])
    requires dep !in g.queued && dep in c.explicitRules
    requires Resolution(c, g, k, stack) && Top(c, g, k, job, stack)
    ensures var r := SatisfyDepF(c, g, job, dep);
      (r.1.Some? && r.1.value.Circular? ==> HasCycle(c.rules, c.explicitRules))
      && (r.1.None? ==> Extends(c, g, k, r.0, k1, job) && Top(c, r.0, k1, job, stack)
                        && c.explicitRules[dep] < |r.0.blocking| && job in r.0.blocking[c.explicitRules[dep]])
    decreases Unqueued(c, g), 0, 1
  {
    var rule := c.explicitRules[dep];
    MarkExplicit(c, g, k, job, dep, stack);
    var g1 := MarkBlocking(g, job, rule);
    k1 := AddJobKeeps(c, g1, k, rule, dep, stack);
    if AddJobF(c, g1, rule, dep).1.None? {
      AfterExplicit(c, g, k, job, dep, stack, k1);
    }
  }

  /** A queued dependency whose owner is still being calculated: the rules have a cycle. */
  lemma QueuedCycle(c: Ctx, g: Graph, k: Book, job: nat, dep: string, stack: seq<nat>)
    requires WellFormed(c.rules, c.explicitRules) && Sized(c, g) && job < |c.rules| && dep in JobDeps(c.rules[job])
    requires dep in g.queued && g.calculating[g.queued[dep]]
    requires Resolution(c, g, k, stack) && Top(c, g, k, job, stack)
    ensures HasCycle(c.rules, c.explicitRules)
  {
    OpenResolution(c, g, k, stack);
    InvParts(c, g, k, -1);
    OpenTop(c, g, k, job, stack);
    QueuedOwner(c, g, k, job, dep);
    CycleThrough(c, g, stack, g.queued[dep]);
  }

  /** A queued dependency whose owner is resolved: mark_blocking keeps everything. */
  lemma MarkQueued(c: Ctx, g: Graph, k: Book, job: nat, dep: string, stack: seq<nat>)
    requires WellFormed(c.rules, c.explicitRules) && Sized(c, g) && job < |c.rules| && dep in JobDeps(c.rules[job])
    requires dep in g.queued && !g.calculating[g.queued[dep]]
    requires Resolution(c, g, k, stack) && Top(c, g, k, job, stack)
    ensures var g1 := MarkBlocking(g, job, g.queued[dep]);
      Extends(c, g, k, g1, k, job) && Top(c, g1, k, job, stack)
      && (dep in c.explicitRules ==> c.explicitRules[dep] < |g1.blocking| && job in g1.blocking[c.explicitRules[dep]])
  {
    var rule := QueuedResolved(c, g, k, job, dep, stack);
    var g1 := MarkBlocking(g, job, rule);
    OpenResolution(c, g, k, stack);
    OpenTop(c, g, k, job, stack);
    MarkKeepsInv(c, g, k, job, rule);
    MarkFacts(c, g, k, job, rule);
    CloseExtends(c, g, k, g1, k, job);
    CloseTop(c, g1, k, job, stack);
  }

  /** The owner of a queued dependency not being calculated is ranked, and the job depends on it. */
  lemma QueuedResolved(c: Ctx, g: Graph, k: Book, job: nat, dep: string, stack: seq<nat>) returns (rule: nat)
    requires WellFormed(c.rules, c.explicitRules) && Sized(c, g) && job < |c.rules| && dep in JobDeps(c.rules[job])
    requires dep in g.queued && !g.calculating[g.queued[dep]]
    requires Resolution(c, g, k, stack)
    ensures rule == g.queued[dep] && rule < |c.rules| && rule in k.rank && dep in c.explicitRules && c.explicitRules[dep] == rule
    ensures DependsOn(c.rules, c.explicitRules, job, rule)
  {
    OpenResolution(c, g, k, stack);
    InvParts(c, g, k, -1);
    QueuedOwner(c, g, k, job, dep);
    rule := g.queued[dep];
  }

  /** A dependency with an explicit rule not yet queued: mark_blocking, before add_job takes the rule on. */
  lemma MarkExplicit(c: Ctx, g: Graph, k: Book, job: nat, dep: string, stack: seq<nat>)
    requires WellFormed(c.rules, c.explicitRules) && Sized(c, g) && job < |c.rules| && dep in JobDeps(c.rules[job])
    requires dep !in g.queued && dep in c.explicitRules
    requires Resolution(c, g, k, stack) && Top(c, g, k, job, stack)
    ensures var rule := c.explicitRules[dep]; var g1 := MarkBlocking(g, job, rule);
      rule < |c.rules| && Sized(c, g1) && Extends(c, g, k, g1, k, job) && Resolution(c, g1, k, stack)
      && IsPath(c.rules, c.explicitRules, stack + [rule]) && job in g1.blocking[rule]
      && (forall b :: 0 <= b < |c.rules| && job in g1.blocking[b] ==> b == rule || b in k.rank)
  {
    OpenResolution(c, g, k, stack);
    InvParts(c, g, k, -1);
    OpenTop(c, g, k, job, stack);
    UnqueuedOwner(c, g, k, job, dep, stack);
    var rule := c.explicitRules[dep];
    var g1 := MarkBlocking(g, job, rule);
    MarkSized(c, g, job, rule);
    MarkKeepsInv(c, g, k, job, rule);
    MarkFacts(c, g, k, job, rule);
    CloseExtends(c, g, k, g1, k, job);
    ResolutionMoves(c, g, k, stack, g1, k, job);
  }

  /** After add_job took on the dependency's rule: the job is blocked by it, and everything else carries over. */
  lemma AfterExplicit(c: Ctx, g: Graph, k: Book, job: nat, dep: string, stack: seq<nat>, k1: Book)
    requires WellFormed(c.rules, c.explicitRules) && Sized(c, g) && job < |c.rules|
    requires dep !in g.queued && dep in c.explicitRules && Top(c, g, k, job, stack)
    requires var rule := c.explicitRules[dep]; var g1 := MarkBlocking(g, job, rule);
      rule < |c.rules| && Sized(c, g1) && Extends(c, g, k, g1, k, job) && job in g1.blocking[rule]
      && (forall b :: 0 <= b < |c.rules| && job in g1.blocking[b] ==> b == rule || b in k.rank)
      && var r := AddJobF(c, g1, rule, dep);
      r.1.None? && Extends(c, g1, k, r.0, k1, -1) && rule in k1.rank
    ensures var rule := c.explicitRules[dep]; var r := AddJobF(c, MarkBlocking(g, job, rule), rule, dep);
      Extends(c, g, k, r.0, k1, job) && Top(c, r.0, k1, job, stack)
      && rule < |r.0.blocking| && job in r.0.blocking[rule]
  {
    var rule := c.explicitRules[dep];
    var g1 := MarkBlocking(g, job, rule);
    var r := AddJobF(c, g1, rule, dep);
    OpenTop(c, g, k, job, stack);
    OpenExtends(c, g, k, g1, k, job);
    OpenExtends(c, g1, k, r.0, k1, -1);
    ExtendsTrans(c, g, k, g1, k, r.0, k1, job, -1);
    forall b | 0 <= b < |r.0.blocking| && job in r.0.blocking[b]
      ensures b in k1.rank
    {
      assert job in g1.blocking[b];
    }
    CloseTop(c, r.0, k1, job, stack);
  }

  /** A queued target's explicit rule has been added and resolved. */
  lemma QueuedTarget(c: Ctx, g: Graph, k: Book, target: string)
    requires Inv(c, g, k, -1) && Resolved(g) && target in g.queued
    ensures target in c.explicitRules && c.explicitRules[target] in k.rank
  {
    InvParts(c, g, k, -1);
    assert c.explicitRules[target] == g.queued[target];
  }

  /** add_target between targets: nothing is being calculated, so add_job starts a fresh chain. */
  lemma AddTargetKeeps(c: Ctx, g: Graph, k: Book, target: string) returns (k1: Book)
    requires Inv(c, g, k, -1) && Resolving(g) && Resolved(g)
    ensures var r := AddTargetF(c, g, target);
      (r.1.Some? ==> r.1.value.Circular? || r.1.value.NotFound? || r.1.value == KeyError(target))
      && (r.1.Some? && r.1.value.Circular? ==> HasCycle(c.rules, c.explicitRules))
      && (r.1.None? ==> Inv(c, r.0, k1, -1) && Resolving(r.0) && Resolved(r.0)
                        && (forall j <- k.rank :: j in k1.rank)
                        && target in c.explicitRules && c.explicitRules[target] in k1.rank)
  {
    k1 := k;
    if target in g.queued {
      QueuedTarget(c, g, k, target);
    } else if target in c.explicitRules {
      k1 := AddTargetJob(c, g, k, target);
      var r := AddJobF(c, g, c.explicitRules[target], target);
      if r.1.None? {
        OpenExtends(c, g, k, r.0, k1, -1);
      }
    }
  }

  /** add_target on a target that is not queued but has an explicit rule: add_job on that rule, from an empty chain. */
  lemma AddTargetJob(c: Ctx, g: Graph, k: Book, target: string) returns (k1: Book)
    requires Inv(c, g, k, -1) && Resolving(g) && Resolved(g)
    requires target !in g.queued && target in c.explicitRules
    ensures var r := AddJobF(c, g, c.explicitRules[target], target);
      (r.1.Some? ==> r.1.value.Circular? || r.1.value.NotFound?)
      && (r.1.Some? && r.1.value.Circular? ==> HasCycle(c.rules, c.explicitRules))
      && (r.1.None? ==> Extends(c, g, k, r.0, k1, -1) && c.explicitRules[target] in k1.rank)
  {
    var rule := c.explicitRules[target];
    AddJobErrors(c, g, rule, target);
    FreshChain(c, g, k, rule);
    k1 := AddJobKeeps(c, g, k, rule, target, []);
  }

  /** Between targets the chain is empty, and a single rule is a chain of its own. */
  lemma FreshChain(c: Ctx, g: Graph, k: Book, rule: nat)
    requires Inv(c, g, k, -1) && Resolving(g) && Resolved(g) && rule < |c.rules|
    ensures Resolution(c, g, k, []) && IsPath(c.rules, c.explicitRules, [] + [rule])
  {
    InvParts(c, g, k, -1);
    assert [] + [rule] == [rule];
    CloseResolution(c, g, k, []);
  }

  /** BuildGroup.__init__'s loop over the targets, from the i-th on. */
  lemma AddTargetsKeeps(c: Ctx, g: Graph, k: Book, targets: seq<string>, i: nat) returns (k1: Book)
    requires Inv(c, g, k, -1) && Resolving(g) && Resolved(g) && i <= |targets|
    requires forall t <- targets[..i] :: t in c.explicitRules && c.explicitRules[t] in k.rank
    ensures var r := AddTargetsF(c, g, targets, i);
      (r.1.Some? ==> r.1.value.Circular? || r.1.value.NotFound?
                     || (r.1.value.KeyError? && r.1.value.name in targets && r.1.value.name !in c.explicitRules))
      && (r.1.Some? && r.1.value.Circular? ==> HasCycle(c.rules, c.explicitRules))
      && (r.1.None? ==> Inv(c, r.0, k1, -1) && Resolving(r.0) && Resolved(r.0)
                        && forall t <- targets :: t in c.explicitRules && c.explicitRules[t] in k1.rank)
    decreases |targets| - i
  {
    if i == |targets| {
      assert targets[..i] == targets;
      return k;
    }
    var k2 := AddTargetKeeps(c, g, k, targets[i]);
    var s := AddTargetF(c, g, targets[i]);
    if s.1.Some? {
      if s.1.value.KeyError? {
        assert targets[i] in targets;
      }
      return k;
    }
    forall t <- targets[..i + 1]
      ensures t in c.explicitRules && c.explicitRules[t] in k2.rank
    {
      if t != targets[i] {
        assert t in targets[..i];
      }
    }
    k1 := AddTargetsKeeps(c, s.0, k2, targets, i + 1);
  }

  // ---------------------------------------------------------------------
  // The worker

  /** job_done's loop never meets a missing edge, and leaves the mirror whole again. */
  lemma {:induction false} UnblockAllKeeps(c: Ctx, g: Graph, k: Book, x: nat, bl: seq<nat>, i: nat)
    requires Inv(c, g, k, x) && Resolved(g) && !g.cancelled && x < |c.rules| && Done(c, g, x)
    requires bl == g.blocking[x] && i <= |bl| && forall j :: 0 <= j < |bl| ==> bl[j] < |c.rules|
    requires forall j :: i <= j < |bl| ==> x in g.blockedBy[bl[j]]
    requires forall j :: 0 <= j < i ==> x !in g.blockedBy[bl[j]]
    ensures var r := UnblockAll(c, g, x, bl, i);
      r.1.None? && Inv(c, r.0, k, -1) && Resolved(r.0) && !r.0.cancelled
    decreases |bl| - i
  {
    if i == |bl| {
      forall a <- g.blocking[x]
        ensures x !in g.blockedBy[a]
      {
        var j :| 0 <= j < |bl| && bl[j] == a;
      }
      UnblockedAll(c, g, k, x);
    } else {
      UnblockNext(c, g, k, x, bl, i);
      UnblockAllKeeps(c, Unblock(g, bl[i], x), k, x, bl, i + 1);
    }
  }

  /** One job_done step of unblock_all keeps what the rest of the loop needs. */
  lemma UnblockNext(c: Ctx, g: Graph, k: Book, x: nat, bl: seq<nat>, i: nat)
    requires Inv(c, g, k, x) && Resolved(g) && !g.cancelled && x < |c.rules| && Done(c, g, x)
    requires bl == g.blocking[x] && i < |bl| && forall j :: 0 <= j < |bl| ==> bl[j] < |c.rules|
    requires forall j :: i <= j < |bl| ==> x in g.blockedBy[bl[j]]
    requires forall j :: 0 <= j < i ==> x !in g.blockedBy[bl[j]]
    ensures var g1 := Unblock(g, bl[i], x);
      Inv(c, g1, k, x) && Resolved(g1) && !g1.cancelled && Done(c, g1, x) && bl == g1.blocking[x]
      && (forall j :: i + 1 <= j < |bl| ==> x in g1.blockedBy[bl[j]])
      && (forall j :: 0 <= j < i + 1 ==> x !in g1.blockedBy[bl[j]])
  {
    var a := bl[i];
    assert a in bl;
    UnblockKeepsInv(c, g, k, x, a);
    var g1 := Unblock(g, a, x);
    InvParts(c, g, k, x);
    assert NoDup(bl);
    assert g1.blocking == g.blocking;
    forall j | 0 <= j < |bl| && j != i
      ensures g1.blockedBy[bl[j]] == g.blockedBy[bl[j]]
    {
      assert bl[j] in bl;
    }
  }

  /** One round of the worker keeps the invariant, and the worker stops only with both queues empty. */
  lemma WorkerStepKeeps(c: Ctx, g: Graph, k: Book)
    requires Inv(c, g, k, -1) && Resolved(g)
    ensures var r := WorkerStep(c, g);
      Inv(c, r.0, k, -1) && Resolved(r.0) && (r.1 ==> r.0.pending == [] && r.0.ready == [])
  {
    if g.ready == [] {
      if g.pending != [] {
        ReadyBelow(c, g, k, g.pending[0]);
      }
    } else {
      var job := g.ready[|g.ready| - 1];
      PopSized(c, g);
      if job in c.failing {
        PopFailingKeepsInv(c, g, k);
        InvParts(c, g, k, -1);
        assert !Pop(g).cancelled;
      } else {
        PopBlocks(c, g, k);
        PopKeepsInv(c, g, k);
        var g1 := Pop(g);
        var bl := g1.blocking[job];
        forall j | 0 <= j < |bl|
          ensures bl[j] < |c.rules| && job in g1.blockedBy[bl[j]]
        {
          assert bl[j] in bl;
        }
        UnblockAllKeeps(c, g1, k, job, bl, 0);
      }
    }
  }

  /** Builder.run keeps the invariant and ends with both queues empty. */
  lemma {:induction false} RunKeeps(c: Ctx, g: Graph, k: Book)
    requires Inv(c, g, k, -1) && Resolved(g)
    ensures Inv(c, RunF(c, g), k, -1) && Resolved(RunF(c, g)) && RunF(c, g).pending == [] && RunF(c, g).ready == []
    decreases 2 * |g.pending| + |g.ready|
  {
    WorkerStepKeeps(c, g, k);
    var r := WorkerStep(c, g);
    if !r.1 {
      RunKeeps(c, r.0, k);
    }
  }

  /** Once resolved, every dependency of an added job is owned by a job ranked below it. */
  lemma RanksFall(c: Ctx, g: Graph, k: Book)
    requires Inv(c, g, k, -1) && Resolved(g)
    ensures k.added <= k.rank.Keys && k.rank.Keys <= k.added
    ensures forall a, b :: a in k.added && a < |c.rules| && DependsOn(c.rules, c.explicitRules, a, b) ==>
      b in k.added && k.rank[b] < k.rank[a]
  {
    InvParts(c, g, k, -1);
    RankedFall(c, g, k);
  }

  /** RanksFall from the only concerns of the invariant it needs. */
  lemma RankedFall(c: Ctx, g: Graph, k: Book)
    requires WellFormed(c.rules, c.explicitRules) && Sized(c, g) && Resolved(g)
    requires Owners(c, g, k) && Ranked(c, g, k)
    ensures k.added <= k.rank.Keys && k.rank.Keys <= k.added
    ensures forall a, b :: a in k.added && a < |c.rules| && DependsOn(c.rules, c.explicitRules, a, b) ==>
      b in k.added && k.rank[b] < k.rank[a]
  {
    forall a: nat, b: nat | a in k.added && a < |c.rules| && DependsOn(c.rules, c.explicitRules, a, b)
      ensures b in k.added && k.rank[b] < k.rank[a]
    {
      var d :| d in JobDeps(c.rules[a]) && d in c.explicitRules && c.explicitRules[d] == b;
      assert a in g.blocking[b];
    }
  }

  /** What a finished run leaves: the order of the log, and who ran. */
  lemma RunOutcome(c: Ctx, g: Graph, k: Book)
    requires Inv(c, g, k, -1) && Resolved(g) && g.pending == [] && g.ready == []
    ensures NoDup(g.log) && (forall j <- g.log :: j in k.added) && (forall j <- k.rank :: j in k.added)
    ensures forall i, b :: 0 <= i < |g.log| && DependsOn(c.rules, c.explicitRules, g.log[i], b) ==> b in g.log[..i]
    ensures !g.cancelled ==> (forall j <- k.added :: j in g.log) && forall j <- g.log :: j !in c.failing
    ensures g.cancelled ==> (g.log != [] && g.log[|g.log| - 1] in c.failing
                             && forall i :: 0 <= i < |g.log| - 1 ==> g.log[i] !in c.failing)
  {
    InvParts(c, g, k, -1);
    forall i, b: nat | 0 <= i < |g.log| && DependsOn(c.rules, c.explicitRules, g.log[i], b)
      ensures b in g.log[..i]
    {
      var d :| d in JobDeps(c.rules[g.log[i]]) && d in c.explicitRules && c.explicitRules[d] == b;
      assert g.log[i] in g.log;
      assert g.log[i] in g.blocking[b];
    }
    if !g.cancelled {
      forall j <- g.log
        ensures j !in c.failing
      {
        var i :| 0 <= i < |g.log| && g.log[i] == j;
      }
    }
  }

  /** The jobs that ran form no cycle. */
  lemma RunAcyclic(c: Ctx, g: Graph, k: Book)
    requires Inv(c, g, k, -1) && Resolved(g) && g.pending == [] && g.ready == []
    ensures Acyclic(c.rules, c.explicitRules, Members(g.log))
  {
    RanksFall(c, g, k);
    RunOutcome(c, g, k);
    var jobs := Members(g.log);
    forall a, b | a in jobs && a < |c.rules| && DependsOn(c.rules, c.explicitRules, a, b)
      ensures b in jobs && k.rank[b] < k.rank[a]
    {
      var i :| 0 <= i < |g.log| && g.log[i] == a;
      assert b in g.log[..i];
    }
    RankedIsAcyclic(c.rules, c.explicitRules, jobs, k.rank);
  }

  // ---------------------------------------------------------------------
  // A whole build

  /**
   * What a resolution error means: a circular dependency (only when the
   * rules have a cycle), a missing file, or a target without an explicit
   * rule.
   */
  ghost predicate ResolutionError(c: Ctx, targets: seq<string>, e: MaitchError)
  {
    (e.Circular? || e.NotFound? || (e.KeyError? && e.name in targets && e.name !in c.explicitRules))
    && (e.Circular? ==> HasCycle(c.rules, c.explicitRules))
  }

  /**
   * What a build that resolved promises of the jobs it started, in order:
   * each at most once and only after every job it depends on, with no
   * cycle among them; if none raised, every target's rule ran; if one
   * raised, it is the last one started.
   */
  ghost predicate Ran(c: Ctx, targets: seq<string>, log: seq<nat>, cancelled: bool)
  {
    (forall t <- targets :: t in c.explicitRules)
    && NoDup(log) && Acyclic(c.rules, c.explicitRules, Members(log))
    && (forall i, b :: 0 <= i < |log| && DependsOn(c.rules, c.explicitRules, log[i], b) ==> b in log[..i])
    && (!cancelled ==> (forall t <- targets :: c.explicitRules[t] in log) && forall j <- log :: j !in c.failing)
    && (cancelled ==> log != [] && log[|log| - 1] in c.failing && forall i :: 0 <= i < |log| - 1 ==> log[i] !in c.failing)
  }

  /**
   * Some rule reachable from a target's explicit rule lies on a cycle: a
   * chain of rules starting there repeats a rule.
   */
  ghost predicate ReachableCycle(c: Ctx, targets: seq<string>)
  {
    exists t, p: seq<nat>, i, j :: t in targets && t in c.explicitRules && IsPath(c.rules, c.explicitRules, p)
      && |p| > 0 && p[0] == c.explicitRules[t] && 0 <= i < j < |p| && p[i] == p[j]
  }

  /** A chain that starts in a set of jobs closed under dependencies stays in it. */
  lemma {:induction false} ChainStaysIn(c: Ctx, jobs: set<nat>, p: seq<nat>, n: nat)
    requires forall a, b :: a in jobs && a < |c.rules| && DependsOn(c.rules, c.explicitRules, a, b) ==> b in jobs
    requires IsPath(c.rules, c.explicitRules, p) && |p| > 0 && p[0] in jobs && n < |p|
    ensures p[n] in jobs
  {
    if n > 0 {
      ChainStaysIn(c, jobs, p, n - 1);
      assert DependsOn(c.rules, c.explicitRules, p[n - 1], p[n]);
    }
  }

  /** A chain that starts in ranked jobs closed under dependencies never repeats a rule. */
  lemma NoRepeat(c: Ctx, jobs: set<nat>, rank: map<nat, nat>, p: seq<nat>, i: nat, j: nat)
    requires jobs <= rank.Keys
    requires forall a, b :: a in jobs && a < |c.rules| && DependsOn(c.rules, c.explicitRules, a, b) ==>
      b in jobs && rank[b] < rank[a]
    requires IsPath(c.rules, c.explicitRules, p) && |p| > 0 && p[0] in jobs && i < j < |p|
    ensures p[i] != p[j]
  {
    var q := p[i..j + 1];
    forall n | 0 <= n < |q|
      ensures q[n] in jobs
    {
      ChainStaysIn(c, jobs, p, i + n);
    }
    forall n | 0 <= n < |q| - 1
      ensures DependsOn(c.rules, c.explicitRules, q[n], q[n + 1])
    {
      assert q[n] == p[i + n] && q[n + 1] == p[i + n + 1];
    }
    RankFallsAlongPath(c.rules, c.explicitRules, jobs, rank, q);
  }

  /**
   * When every target's rule is among jobs that are closed under
   * dependencies and ranked so that ranks fall along them, no rule
   * reachable from a target lies on a cycle.
   */
  lemma NoReachableCycle(c: Ctx, targets: seq<string>, jobs: set<nat>, rank: map<nat, nat>)
    requires jobs <= rank.Keys
    requires forall a, b :: a in jobs && a < |c.rules| && DependsOn(c.rules, c.explicitRules, a, b) ==>
      b in jobs && rank[b] < rank[a]
    requires forall t <- targets :: t in c.explicitRules && c.explicitRules[t] in jobs
    ensures !ReachableCycle(c, targets)
  {
    forall t, p: seq<nat>, i, j | t in targets && t in c.explicitRules && IsPath(c.rules, c.explicitRules, p)
      && |p| > 0 && p[0] == c.explicitRules[t] && 0 <= i < j < |p|
      ensures p[i] != p[j]
    {
      NoRepeat(c, jobs, rank, p, i, j);
    }
  }

  /**
   * build's promise about cycles: a build that resolves without an error
   * had no cycle reachable from its targets, so a reachable cycle always
   * ends resolution with an error.
   */
  lemma BuildFindsCycles(c: Ctx, targets: seq<string>)
    requires WellFormed(c.rules, c.explicitRules)
    ensures ReachableCycle(c, targets) ==> BuildF(c, targets).0.Some?
  {
    var g0 := Initial(c);
    var k0 := Book({}, map[], 0);
    InitialInv(c);
    var k := AddTargetsKeeps(c, g0, k0, targets, 0);
    var (g1, err) := AddTargetsF(c, g0, targets, 0);
    if err.None? {
      RanksFall(c, g1, k);
      NoReachableCycle(c, targets, k.added, k.rank);
    }
  }

  /**
   * A build resolves its targets and then runs: an error runs nothing;
   * otherwise no cycle was reachable and the run keeps its promise.
   */
  lemma BuildOutcome(c: Ctx, targets: seq<string>)
    requires WellFormed(c.rules, c.explicitRules)
    ensures var (err, g) := BuildF(c, targets);
      (forall j <- g.log :: j < |c.rules|)
      && (err.Some? ==> g.log == [] && !g.cancelled && ResolutionError(c, targets, err.value))
      && (err.None? ==> Ran(c, targets, g.log, g.cancelled) && !ReachableCycle(c, targets))
  {
    var g0 := Initial(c);
    var k0 := Book({}, map[], 0);
    InitialInv(c);
    var k := AddTargetsKeeps(c, g0, k0, targets, 0);
    var (g1, err) := AddTargetsF(c, g0, targets, 0);
    if err.None? {
      RunPromise(c, g1, k, targets);
    }
    BuildFindsCycles(c, targets);
  }

  /** Running a resolved group keeps the promise of Ran. */
  lemma RunPromise(c: Ctx, g: Graph, k: Book, targets: seq<string>)
    requires Inv(c, g, k, -1) && Resolving(g) && Resolved(g)
    requires forall t <- targets :: t in c.explicitRules && c.explicitRules[t] in k.rank
    ensures Ran(c, targets, RunF(c, g).log, RunF(c, g).cancelled)
  {
    RunKeeps(c, g, k);
    var r := RunF(c, g);
    RunOutcome(c, r, k);
    RunAcyclic(c, r, k);
  }

  /**
   * build mode: create the BuildGroup, add each target, and run the
   * jobs with one worker. Returns the resolution error, if any, the jobs
   * started in order and whether the build was cancelled.
   */
  method Build(ctx: Ctx, targets: seq<string>) returns (err: Option<MaitchError>, log: seq<nat>, cancelled: bool)
    requires WellFormed(ctx.rules, ctx.explicitRules)
    ensures forall j <- log :: j < |ctx.rules|
    ensures err.Some? ==> log == [] && !cancelled && ResolutionError(ctx, targets, err.value)
    ensures err.None? ==> Ran(ctx, targets, log, cancelled) && !ReachableCycle(ctx, targets)
  {
    BuildOutcome(ctx, targets);
    ghost var resolved := AddTargetsF(ctx, Initial(ctx), targets, 0);
    ghost var built := BuildF(ctx, targets);
    assert resolved.1.Some? ==> built == (resolved.1, Initial(ctx));
    assert resolved.1.None? ==> built == (None, RunF(ctx, resolved.0));
    var bg := new BuildGroup(ctx);
    err := bg.AddTargets(targets);
    if err.Some? {
      return err, [], false;
    }
    bg.Run();
    assert built.1 == bg.Snap();
    return None, bg.log, bg.cancelled;
  }
}
