/**
 * maitch's BuildGroup: the demand-driven dependency resolver and the job
 * scheduler, with Builder.run as a single sequential worker.
 *
 * Rules live in an arena and are named by their index. The `queued` map,
 * `pending_jobs`, `ready_queue` and each rule's `blocking`, `blocked_by`
 * and `calculating` attributes are fields of the group that its methods
 * update in place. Names are taken as already substituted. Whether a job's
 * run() raises is an oracle: the set `failing`.
 *
 * Each method is specified by a function on a snapshot of the fields
 * (a `Graph`); what the functions keep invariant is proved in
 * MaitchBuildInv and MaitchBuildRun.
 */
module MaitchBuild {
  import opened Wrappers
  import opened MaitchFiles
  import opened MaitchRule

  predicate NoDup(s: seq<nat>)
  {
    forall i, j :: 0 <= i < j < |s| ==> s[i] != s[j]
  }

  /** list.remove: drops the first occurrence of x. */
  function Remove(s: seq<nat>, x: nat): (r: seq<nat>)
    ensures x in s ==> |r| == |s| - 1
    ensures x !in s ==> r == s
    ensures forall y :: y in r ==> y in s
    ensures forall y :: y in s && y != x ==> y in r
    ensures NoDup(s) ==> NoDup(r) && x !in r
  {
    if s == [] then []
    else if s[0] == x then s[1..]
    else
      var r := [s[0]] + Remove(s[1..], x);
      assert NoDup(s) ==> s[0] !in s[1..];
      r
  }

  /** Every name satisfy_deps resolves for a rule: its wdeps, then deps and sources. */
  function JobDeps(rule: Rule): (r: seq<string>)
    ensures r == rule.wdeps + rule.deps + rule.sources
    ensures forall x :: x in r <==> x in rule.wdeps || x in ListStaticDeps(rule)
    ensures r == [] <==> rule.wdeps == [] && rule.deps == [] && rule.sources == []
  {
    rule.wdeps + ListStaticDeps(rule)
  }

  /**
   * The explicit rules as Context.add_rule registers them: each target
   * names the rule that lists it, and no target is claimed by two rules.
   */
  predicate WellFormed(rules: seq<Rule>, explicitRules: map<string, nat>)
  {
    (forall t <- explicitRules :: explicitRules[t] < |rules| && t in rules[explicitRules[t]].targets)
    && (forall j, t :: 0 <= j < |rules| && t in rules[j].targets ==> t in explicitRules && explicitRules[t] == j)
  }

  /** Rule a needs rule b: some dependency of a is a target of b. */
  ghost predicate DependsOn(rules: seq<Rule>, explicitRules: map<string, nat>, a: nat, b: nat)
  {
    a < |rules| && exists d <- JobDeps(rules[a]) :: d in explicitRules && explicitRules[d] == b
  }

  /** A chain of rules, each needing the next. */
  ghost predicate IsPath(rules: seq<Rule>, explicitRules: map<string, nat>, p: seq<nat>)
  {
    (forall k :: 0 <= k < |p| ==> p[k] < |rules|)
    && forall k :: 0 <= k < |p| - 1 ==> DependsOn(rules, explicitRules, p[k], p[k + 1])
  }

  /** No chain of rules within `jobs` leads back to where it started. */
  ghost predicate Acyclic(rules: seq<Rule>, explicitRules: map<string, nat>, jobs: set<nat>)
  {
    forall p :: IsPath(rules, explicitRules, p) && |p| >= 2 && (forall k :: 0 <= k < |p| ==> p[k] in jobs)
      ==> p[0] != p[|p| - 1]
  }

  /** Some chain of rules leads back to where it started. */
  ghost predicate HasCycle(rules: seq<Rule>, explicitRules: map<string, nat>)
  {
    exists p :: IsPath(rules, explicitRules, p) && |p| >= 2 && p[0] == p[|p| - 1]
  }

  /** What a BuildGroup works from: the rules, explicit_rules, the file system and which jobs raise when run. */
  datatype Ctx = Ctx(rules: seq<Rule>, explicitRules: map<string, nat>, fs: FileSystem, dirs: Dirs, failing: set<nat>)

  /**
   * The BuildGroup's fields at one moment, with each rule's blocking,
   * blocked_by and calculating; `log` lists the jobs the worker has
   * started, in order.
   */
  datatype Graph = Graph(
    queued: map<string, nat>,
    pending: seq<nat>,
    ready: seq<nat>,
    blocking: seq<seq<nat>>,
    blockedBy: seq<seq<nat>>,
    calculating: seq<bool>,
    cancelled: bool,
    log: seq<nat>)

  /** Every rule index the graph holds is a rule of the arena. */
  predicate Sized(c: Ctx, g: Graph)
  {
    var n := |c.rules|;
    |g.blocking| == n && |g.blockedBy| == n && |g.calculating| == n
    && (forall t <- g.queued :: g.queued[t] < n)
    && (forall j <- g.pending :: j < n) && (forall j <- g.ready :: j < n) && (forall j <- g.log :: j < n)
    && (forall b, a :: 0 <= b < n && a in g.blocking[b] ==> a < n)
    && (forall a, b :: 0 <= a < n && b in g.blockedBy[a] ==> b < n)
  }

  /** The group as BuildGroup.__init__ creates it, before any target is added. */
  function Initial(c: Ctx): (g: Graph)
    ensures Sized(c, g) && g.queued == map[] && g.pending == [] && g.ready == [] && g.log == [] && !g.cancelled
    ensures forall j :: 0 <= j < |c.rules| ==> g.blocking[j] == [] && g.blockedBy[j] == [] && !g.calculating[j]
  {
    var n := |c.rules|;
    Graph(map[], [], [], seq(n, _ => []), seq(n, _ => []), seq(n, _ => false), false, [])
  }

  /** The explicit targets not yet queued: add_job always queues one of them, which bounds the recursion. */
  function Unqueued(c: Ctx, g: Graph): nat
  {
    |c.explicitRules.Keys - g.queued.Keys|
  }

  lemma QueueingShrinks(all: set<string>, before: set<string>, after: set<string>, name: string)
    requires before <= after && name in all && name !in before && name in after
    ensures |all - after| < |all - before|
  {
    var gone := (all - before) - (all - after);
    assert name in gone;
    assert all - before == (all - after) + gone;
  }

  // ---------------------------------------------------------------------
  // One step each

  /** mark_blocking: `blocker` blocks `blocked`, recorded on both sides without duplicates. */
  function MarkBlocking(g: Graph, blocked: nat, blocker: nat): (r: Graph)
    requires blocked < |g.blockedBy| && blocker < |g.blocking|
    ensures |r.blocking| == |g.blocking| && |r.blockedBy| == |g.blockedBy|
    ensures blocked in r.blocking[blocker] && blocker in r.blockedBy[blocked]
    ensures forall b :: 0 <= b < |g.blocking| && b != blocker ==> r.blocking[b] == g.blocking[b]
    ensures forall a :: 0 <= a < |g.blockedBy| && a != blocked ==> r.blockedBy[a] == g.blockedBy[a]
    ensures forall x :: x in r.blocking[blocker] <==> x in g.blocking[blocker] || x == blocked
    ensures forall x :: x in r.blockedBy[blocked] <==> x in g.blockedBy[blocked] || x == blocker
    ensures NoDup(g.blocking[blocker]) ==> NoDup(r.blocking[blocker])
    ensures NoDup(g.blockedBy[blocked]) ==> NoDup(r.blockedBy[blocked])
    ensures r.queued == g.queued && r.pending == g.pending && r.ready == g.ready && r.calculating == g.calculating && r.cancelled == g.cancelled && r.log == g.log
  {
    g.(blocking := g.blocking[blocker := if blocked in g.blocking[blocker] then g.blocking[blocker] else g.blocking[blocker] + [blocked]],
       blockedBy := g.blockedBy[blocked := if blocker in g.blockedBy[blocked] then g.blockedBy[blocked] else g.blockedBy[blocked] + [blocker]])
  }

  /** make_job_ready: a pending job moves to the end of ready_queue; any other job is left alone. */
  function MakeReady(g: Graph, job: nat): (r: Graph)
    ensures job in g.pending ==> r.ready == g.ready + [job] && |r.pending| == |g.pending| - 1
    ensures job in g.pending ==> r.pending == Remove(g.pending, job)
    ensures job !in g.pending ==> r == g
    ensures r.queued == g.queued && r.blocking == g.blocking && r.blockedBy == g.blockedBy && r.calculating == g.calculating && r.cancelled == g.cancelled && r.log == g.log
  {
    if job in g.pending then g.(pending := Remove(g.pending, job), ready := g.ready + [job]) else g
  }

  /** unblock_job once the edge is known to be there: `blocker` leaves blocked_by, and an empty blocked_by makes the job ready. */
  function Unblock(g: Graph, blocked: nat, blocker: nat): (r: Graph)
    requires blocked < |g.blockedBy|
    ensures |r.blockedBy| == |g.blockedBy| && r.blockedBy[blocked] == Remove(g.blockedBy[blocked], blocker)
    ensures forall a :: 0 <= a < |g.blockedBy| && a != blocked ==> r.blockedBy[a] == g.blockedBy[a]
    ensures |r.pending| + |r.ready| == |g.pending| + |g.ready| && |r.ready| >= |g.ready|
    ensures r.pending == if r.blockedBy[blocked] == [] && blocked in g.pending then Remove(g.pending, blocked) else g.pending
    ensures r.ready == if r.blockedBy[blocked] == [] && blocked in g.pending then g.ready + [blocked] else g.ready
    ensures r.queued == g.queued && r.blocking == g.blocking && r.calculating == g.calculating && r.cancelled == g.cancelled && r.log == g.log
  {
    var g1 := g.(blockedBy := g.blockedBy[blocked := Remove(g.blockedBy[blocked], blocker)]);
    if g1.blockedBy[blocked] == [] then MakeReady(g1, blocked) else g1
  }

  /** cancel_all_jobs: the first call sets `cancelled` and empties both queues; a later call changes nothing. */
  function Cancel(g: Graph): (r: Graph)
    ensures r.cancelled
    ensures !g.cancelled ==> r.pending == [] && r.ready == []
    ensures r.queued == g.queued && r.blocking == g.blocking && r.blockedBy == g.blockedBy && r.calculating == g.calculating && r.log == g.log
    ensures g.cancelled ==> r == g
  {
    if g.cancelled then g else g.(cancelled := true, pending := [], ready := [])
  }

  /** queued[t] = job for each target t, in order. */
  function Register(q: map<string, nat>, ts: seq<string>, job: nat): (r: map<string, nat>)
    ensures forall t :: t in r <==> t in q || t in ts
    ensures forall t <- r :: r[t] == if t in ts then job else q[t]
  {
    if ts == [] then q else Register(q, ts[..|ts| - 1], job)[ts[|ts| - 1] := job]
  }

  /** add_job up to satisfy_deps: the job is calculating, appended to pending_jobs, and owns its targets in `queued`. */
  function Start(g: Graph, job: nat, targets: seq<string>): (r: Graph)
    requires job < |g.calculating|
    ensures r.pending == g.pending + [job] && r.calculating == g.calculating[job := true]
    ensures r.queued == Register(g.queued, targets, job)
    ensures r.ready == g.ready && r.blocking == g.blocking && r.blockedBy == g.blockedBy && r.cancelled == g.cancelled && r.log == g.log
  {
    g.(calculating := g.calculating[job := true], pending := g.pending + [job], queued := Register(g.queued, targets, job))
  }

  /** add_job after satisfy_deps: the job is no longer calculating, and becomes ready when nothing blocks it. */
  function Finish(g: Graph, job: nat): (r: Graph)
    requires job < |g.calculating| && job < |g.blockedBy|
    ensures r.calculating == g.calculating[job := false]
    ensures r.pending == if g.blockedBy[job] == [] && job in g.pending then Remove(g.pending, job) else g.pending
    ensures r.ready == if g.blockedBy[job] == [] && job in g.pending then g.ready + [job] else g.ready
    ensures r.queued == g.queued && r.blocking == g.blocking && r.blockedBy == g.blockedBy && r.cancelled == g.cancelled && r.log == g.log
  {
    var g1 := g.(calculating := g.calculating[job := false]);
    if g1.blockedBy[job] == [] then MakeReady(g1, job) else g1
  }

  /** The worker's pop: the last ready job leaves ready_queue and is started. */
  function Pop(g: Graph): (r: Graph)
    requires g.ready != []
    ensures r.log == g.log + [g.ready[|g.ready| - 1]] && r.ready == g.ready[..|g.ready| - 1]
    ensures r.queued == g.queued && r.pending == g.pending && r.blocking == g.blocking && r.blockedBy == g.blockedBy && r.calculating == g.calculating && r.cancelled == g.cancelled
  {
    g.(ready := g.ready[..|g.ready| - 1], log := g.log + [g.ready[|g.ready| - 1]])
  }

  // Each step keeps the graph within the arena.

  lemma StartSized(c: Ctx, g: Graph, job: nat, targets: seq<string>)
    requires Sized(c, g) && job < |c.rules|
    ensures Sized(c, Start(g, job, targets))
  {
  }

  lemma FinishSized(c: Ctx, g: Graph, job: nat)
    requires Sized(c, g) && job < |c.rules|
    ensures Sized(c, Finish(g, job))
  {
  }

  lemma MarkSized(c: Ctx, g: Graph, blocked: nat, blocker: nat)
    requires Sized(c, g) && blocked < |c.rules| && blocker < |c.rules|
    ensures Sized(c, MarkBlocking(g, blocked, blocker))
  {
    var r := MarkBlocking(g, blocked, blocker);
    forall b, a | 0 <= b < |c.rules| && a in r.blocking[b] ensures a < |c.rules| {
      if b != blocker {
        assert a in g.blocking[b];
      }
    }
    forall a, b | 0 <= a < |c.rules| && b in r.blockedBy[a] ensures b < |c.rules| {
      if a != blocked {
        assert b in g.blockedBy[a];
      }
    }
  }

  lemma UnblockSized(c: Ctx, g: Graph, blocked: nat, blocker: nat)
    requires Sized(c, g) && blocked < |c.rules|
    ensures Sized(c, Unblock(g, blocked, blocker))
  {
    var r := Unblock(g, blocked, blocker);
    forall a, b | 0 <= a < |c.rules| && b in r.blockedBy[a] ensures b < |c.rules| {
      if a != blocked {
        assert b in g.blockedBy[a];
      }
    }
  }

  lemma PopSized(c: Ctx, g: Graph)
    requires Sized(c, g) && g.ready != []
    ensures Sized(c, Pop(g)) && Sized(c, Cancel(Pop(g)))
  {
    var r := Pop(g);
    assert r.pending == g.pending;
    assert g.ready == r.ready + [g.ready[|g.ready| - 1]];
    assert forall j <- r.ready :: j in g.ready;
    assert forall j <- r.log :: j in g.log || j in g.ready;
    assert Sized(c, r);
    if r.cancelled {
      assert Cancel(r) == r;
    }
  }

  // ---------------------------------------------------------------------
  // Resolution: add_target, add_job and satisfy_deps

  /**
   * add_job(explicit_rules[name]) when `name` is not queued. On success
   * the job's targets are queued and every dependency has been resolved.
   */
  function AddJobF(c: Ctx, g: Graph, job: nat, name: string): (r: (Graph, Option<MaitchError>))
    requires WellFormed(c.rules, c.explicitRules) && Sized(c, g)
    requires name in c.explicitRules && c.explicitRules[name] == job && name !in g.queued
    ensures Sized(c, r.0) && g.queued.Keys <= r.0.queued.Keys && Unqueued(c, r.0) < Unqueued(c, g)
    decreases Unqueued(c, g), 0, 0
  {
    var g1 := Start(g, job, c.rules[job].targets);
    StartSized(c, g, job, c.rules[job].targets);
    QueueingShrinks(c.explicitRules.Keys, g.queued.Keys, g1.queued.Keys, name);
    var (g2, err) := SatisfyDepsF(c, g1, job, JobDeps(c.rules[job]), 0);
    FinishSized(c, g2, job);
    if err.Some? then (g2, err) else (Finish(g2, job), None)
  }

  /** AddJobF in terms of its two halves, Start and Finish around satisfy_deps. */
  lemma AddJobUnfold(c: Ctx, g: Graph, job: nat, name: string)
    requires WellFormed(c.rules, c.explicitRules) && Sized(c, g)
    requires name in c.explicitRules && c.explicitRules[name] == job && name !in g.queued
    ensures Sized(c, Start(g, job, c.rules[job].targets))
    ensures var s := SatisfyDepsF(c, Start(g, job, c.rules[job].targets), job, JobDeps(c.rules[job]), 0);
      AddJobF(c, g, job, name) == if s.1.Some? then s else (Finish(s.0, job), None)
  {
    StartSized(c, g, job, c.rules[job].targets);
  }

  /** satisfy_deps from the i-th dependency on; the first one that raises stops it. */
  function SatisfyDepsF(c: Ctx, g: Graph, job: nat, deps: seq<string>, i: nat): (r: (Graph, Option<MaitchError>))
    requires WellFormed(c.rules, c.explicitRules) && Sized(c, g) && job < |c.rules| && i <= |deps|
    ensures Sized(c, r.0) && g.queued.Keys <= r.0.queued.Keys && Unqueued(c, r.0) <= Unqueued(c, g)
    decreases Unqueued(c, g), 2, |deps| - i
  {
    if i == |deps| then (g, None)
    else
      var (g1, err) := SatisfyDepF(c, g, job, deps[i]);
      if err.Some? then (g1, err) else SatisfyDepsF(c, g1, job, deps, i + 1)
  }

  /**
   * One dependency of satisfy_deps: a queued owner blocks the job (a
   * circular dependency if that owner is still being calculated), an
   * explicit rule blocks the job and is added, and any other name must
   * be an existing file.
   */
  function SatisfyDepF(c: Ctx, g: Graph, job: nat, dep: string): (r: (Graph, Option<MaitchError>))
    requires WellFormed(c.rules, c.explicitRules) && Sized(c, g) && job < |c.rules|
    ensures Sized(c, r.0) && g.queued.Keys <= r.0.queued.Keys && Unqueued(c, r.0) <= Unqueued(c, g)
    decreases Unqueued(c, g), 1, 0
  {
    if dep in g.queued then
      var rule := g.queued[dep];
      if g.calculating[rule] then (g, Some(Circular(rule, dep)))
      else
        MarkSized(c, g, job, rule);
        (MarkBlocking(g, job, rule), None)
    else if dep in c.explicitRules then
      var rule := c.explicitRules[dep];
      MarkSized(c, g, job, rule);
      AddJobF(c, MarkBlocking(g, job, rule), rule, dep)
    else
      match FindSource(c.fs, c.dirs, dep, c.rules[job].where, true)
      case Err(e) => (g, Some(e))
      case Ok(_) => (g, None)
  }

  /** add_target: a queued target needs nothing; otherwise its explicit rule is added (KeyError when it has none). */
  function AddTargetF(c: Ctx, g: Graph, target: string): (r: (Graph, Option<MaitchError>))
    requires WellFormed(c.rules, c.explicitRules) && Sized(c, g)
    ensures Sized(c, r.0)
    ensures r.1 == Some(KeyError(target)) <==> target !in g.queued && target !in c.explicitRules
  {
    if target in g.queued then (g, None)
    else if target !in c.explicitRules then (g, Some(KeyError(target)))
    else
      var r := AddJobF(c, g, c.explicitRules[target], target);
      assert r.1 != Some(KeyError(target)) by { AddJobErrors(c, g, c.explicitRules[target], target); }
      r
  }

  /** BuildGroup.__init__'s loop from the i-th target on; the first target that raises stops it. */
  function AddTargetsF(c: Ctx, g: Graph, targets: seq<string>, i: nat): (r: (Graph, Option<MaitchError>))
    requires WellFormed(c.rules, c.explicitRules) && Sized(c, g) && i <= |targets|
    ensures Sized(c, r.0)
    decreases |targets| - i
  {
    if i == |targets| then (g, None)
    else
      var (g1, err) := AddTargetF(c, g, targets[i]);
      if err.Some? then (g1, err) else AddTargetsF(c, g1, targets, i + 1)
  }

  /** Resolving from target i on: target i either raises, which stops there, or hands on to target i + 1. */
  lemma AddTargetsStep(c: Ctx, g: Graph, targets: seq<string>, i: nat)
    requires WellFormed(c.rules, c.explicitRules) && Sized(c, g) && i < |targets|
    ensures var (g1, err) := AddTargetF(c, g, targets[i]);
      AddTargetsF(c, g, targets, i) == if err.Some? then (g1, err) else AddTargetsF(c, g1, targets, i + 1)
  {
  }

  /** Resolution raises only a circular dependency or a missing file. */
  lemma AddJobErrors(c: Ctx, g: Graph, job: nat, name: string)
    requires WellFormed(c.rules, c.explicitRules) && Sized(c, g)
    requires name in c.explicitRules && c.explicitRules[name] == job && name !in g.queued
    ensures var e := AddJobF(c, g, job, name).1; e.Some? ==> e.value.Circular? || e.value.NotFound?
    decreases Unqueued(c, g), 0, 0
  {
    var g1 := Start(g, job, c.rules[job].targets);
    StartSized(c, g, job, c.rules[job].targets);
    QueueingShrinks(c.explicitRules.Keys, g.queued.Keys, g1.queued.Keys, name);
    SatisfyDepsErrors(c, g1, job, JobDeps(c.rules[job]), 0);
  }

  lemma SatisfyDepsErrors(c: Ctx, g: Graph, job: nat, deps: seq<string>, i: nat)
    requires WellFormed(c.rules, c.explicitRules) && Sized(c, g) && job < |c.rules| && i <= |deps|
    ensures var e := SatisfyDepsF(c, g, job, deps, i).1; e.Some? ==> e.value.Circular? || e.value.NotFound?
    decreases Unqueued(c, g), 2, |deps| - i
  {
    if i < |deps| {
      SatisfyDepErrors(c, g, job, deps[i]);
      var (g1, err) := SatisfyDepF(c, g, job, deps[i]);
      if err.None? {
        SatisfyDepsErrors(c, g1, job, deps, i + 1);
      }
    }
  }

  lemma SatisfyDepErrors(c: Ctx, g: Graph, job: nat, dep: string)
    requires WellFormed(c.rules, c.explicitRules) && Sized(c, g) && job < |c.rules|
    ensures var e := SatisfyDepF(c, g, job, dep).1; e.Some? ==> e.value.Circular? || e.value.NotFound?
    decreases Unqueued(c, g), 1, 0
  {
    if dep !in g.queued && dep in c.explicitRules {
      var rule := c.explicitRules[dep];
      MarkSized(c, g, job, rule);
      AddJobErrors(c, MarkBlocking(g, job, rule), rule, dep);
    }
  }

  // ---------------------------------------------------------------------
  // The worker: Builder.run and job_done

  /** job_done's loop from the i-th job `done` blocks: each loses that blocker; a missing edge raises. */
  function UnblockAll(c: Ctx, g: Graph, done: nat, bl: seq<nat>, i: nat): (r: (Graph, Option<MaitchError>))
    requires Sized(c, g) && i <= |bl| && forall a <- bl :: a < |c.rules|
    ensures Sized(c, r.0)
    ensures |r.0.pending| + |r.0.ready| == |g.pending| + |g.ready| && |r.0.ready| >= |g.ready|
    ensures r.0.queued == g.queued && r.0.blocking == g.blocking && r.0.calculating == g.calculating && r.0.cancelled == g.cancelled && r.0.log == g.log
    decreases |bl| - i
  {
    if i == |bl| then (g, None)
    else
      assert bl[i] in bl;
      if done !in g.blockedBy[bl[i]] then (g, Some(NotBlocked(bl[i], done)))
      else
        UnblockSized(c, g, bl[i], done);
        UnblockAll(c, Unblock(g, bl[i], done), done, bl, i + 1)
  }

  /**
   * One round of Builder.run's loop, for a lone worker: with both queues
   * empty it finishes; otherwise it pops the last ready job and runs it.
   * A job that raises cancels all jobs and ends the worker, as does an
   * error from job_done; a job that succeeds goes through job_done. (With
   * a job pending and none ready the worker would wait; MaitchBuildRun
   * proves that this never happens, and here the worker stops.)
   */
  function WorkerStep(c: Ctx, g: Graph): (r: (Graph, bool))
    requires Sized(c, g)
    ensures Sized(c, r.0)
    ensures !r.1 ==> 2 * |r.0.pending| + |r.0.ready| < 2 * |g.pending| + |g.ready|
  {
    if g.ready == [] then (g, true)
    else
      var job := g.ready[|g.ready| - 1];
      var g1 := Pop(g);
      PopSized(c, g);
      assert job in g.ready;
      if job in c.failing then (Cancel(g1), true)
      else
        var (g2, err) := UnblockAll(c, g1, job, g1.blocking[job], 0);
        if err.Some? then (Cancel(g2), true) else (g2, false)
  }

  /** Builder.run: worker steps until the worker finishes. */
  function RunF(c: Ctx, g: Graph): (r: Graph)
    requires Sized(c, g)
    ensures Sized(c, r)
    decreases 2 * |g.pending| + |g.ready|
  {
    var (g1, finished) := WorkerStep(c, g);
    if finished then g1 else RunF(c, g1)
  }

  /** A whole build in build mode: add every target, then run the jobs; a resolution error runs nothing. */
  function BuildF(c: Ctx, targets: seq<string>): (r: (Option<MaitchError>, Graph))
    requires WellFormed(c.rules, c.explicitRules)
    ensures r.0.Some? ==> r.1.log == [] && !r.1.cancelled
  {
    var g0 := Initial(c);
    var (g1, err) := AddTargetsF(c, g0, targets, 0);
    if err.Some? then (err, g0) else (None, RunF(c, g1))
  }

  // ---------------------------------------------------------------------
  // The BuildGroup

  class BuildGroup {
    const ctx: Ctx

    var queued: map<string, nat>
    var pendingJobs: seq<nat>
    var readyQueue: seq<nat>
    var blocking: seq<seq<nat>>
    var blockedBy: seq<seq<nat>>
    var calculating: seq<bool>
    var cancelled: bool
    /** The jobs the worker has started, in order. */
    var log: seq<nat>

    function Snap(): Graph
      reads this
    {
      Graph(queued, pendingJobs, readyQueue, blocking, blockedBy, calculating, cancelled, log)
    }

    /** The fields fit the arena of rules, whose explicit rules are well formed. */
    predicate Valid()
      reads this
    {
      WellFormed(ctx.rules, ctx.explicitRules) && Sized(ctx, Snap())
    }

    /** BuildGroup.__init__ before the targets are added. */
    constructor (ctx: Ctx)
      requires WellFormed(ctx.rules, ctx.explicitRules)
      ensures this.ctx == ctx && Valid() && Snap() == Initial(ctx)
    {
      this.ctx := ctx;
      queued := map[];
      pendingJobs := [];
      readyQueue := [];
      blocking := seq(|ctx.rules|, _ => []);
      blockedBy := seq(|ctx.rules|, _ => []);
      calculating := seq(|ctx.rules|, _ => false);
      cancelled := false;
      log := [];
    }

    /** make_job_ready. */
    method MakeJobReady(job: nat)
      modifies this`pendingJobs, this`readyQueue
      ensures Snap() == MakeReady(old(Snap()), job)
    {
      if job in pendingJobs {
        pendingJobs := Remove(pendingJobs, job);
        readyQueue := readyQueue + [job];
      }
    }

    /** mark_blocking. */
    method MarkBlockingOf(blocked: nat, blocker: nat)
      requires blocked < |blockedBy| && blocker < |blocking|
      modifies this`blocking, this`blockedBy
      ensures Snap() == MarkBlocking(old(Snap()), blocked, blocker)
    {
      if blocked !in blocking[blocker] {
        blocking := blocking[blocker := blocking[blocker] + [blocked]];
      }
      if blocker !in blockedBy[blocked] {
        blockedBy := blockedBy[blocked := blockedBy[blocked] + [blocker]];
      }
    }

    /** unblock_job: raises when `blocker` does not block `blocked`; otherwise removes that one edge. */
    method UnblockJob(blocked: nat, blocker: nat) returns (err: Option<MaitchError>)
      requires blocked < |blockedBy|
      modifies this`blockedBy, this`pendingJobs, this`readyQueue
      ensures err.Some? <==> blocker !in old(blockedBy[blocked])
      ensures err.Some? ==> err.value == NotBlocked(blocked, blocker) && Snap() == old(Snap())
      ensures err.None? ==> Snap() == Unblock(old(Snap()), blocked, blocker)
    {
      if blocker !in blockedBy[blocked] {
        return Some(NotBlocked(blocked, blocker));
      }
      blockedBy := blockedBy[blocked := Remove(blockedBy[blocked], blocker)];
      if blockedBy[blocked] == [] {
        MakeJobReady(blocked);
      }
      return None;
    }

    /** cancel_all_jobs. */
    method CancelAllJobs()
      modifies this`cancelled, this`pendingJobs, this`readyQueue
      ensures Snap() == Cancel(old(Snap()))
    {
      if !cancelled {
        cancelled := true;
        readyQueue := [];
        pendingJobs := [];
      }
    }

    /** The first half of add_job: calculating, appended to pending_jobs, and its targets queued. */
    method StartJob(job: nat)
      requires Valid() && job < |ctx.rules|
      modifies this`calculating, this`pendingJobs, this`queued
      ensures Valid() && Snap() == Start(old(Snap()), job, ctx.rules[job].targets)
    {
      ghost var g0 := Snap();
      var targets := ctx.rules[job].targets;
      StartSized(ctx, g0, job, targets);
      calculating := calculating[job := true];
      pendingJobs := pendingJobs + [job];
      var q := queued;
      var i := 0;
      while i < |targets|
        invariant 0 <= i <= |targets|
        invariant q == Register(g0.queued, targets[..i], job)
      {
        assert targets[..i + 1][..i] == targets[..i];
        q := q[targets[i] := job];
        i := i + 1;
      }
      assert targets[..i] == targets;
      queued := q;
    }

    /** The second half of add_job: no longer calculating, and ready when nothing blocks it. */
    method FinishJob(job: nat)
      requires Valid() && job < |ctx.rules|
      modifies this`calculating, this`pendingJobs, this`readyQueue
      ensures Valid() && Snap() == Finish(old(Snap()), job)
    {
      FinishSized(ctx, Snap(), job);
      calculating := calculating[job := false];
      if blockedBy[job] == [] {
        MakeJobReady(job);
      }
    }

    /**
     * add_job for the explicit rule of `name`, which is not queued. (Its
     * early return for a job already pending cannot happen here: such a
     * job's targets, `name` among them, are queued.)
     */
    method AddJob(job: nat, ghost name: string) returns (err: Option<MaitchError>)
      requires Valid() && name in ctx.explicitRules && ctx.explicitRules[name] == job && name !in queued
      modifies this
      ensures Valid() && (Snap(), err) == AddJobF(ctx, old(Snap()), job, name)
      decreases Unqueued(ctx, Snap()), 0, 0
    {
      ghost var g0 := Snap();
      StartJob(job);
      QueueingShrinks(ctx.explicitRules.Keys, g0.queued.Keys, queued.Keys, name);
      err := SatisfyDeps(job, JobDeps(ctx.rules[job]));
      AddJobUnfold(ctx, g0, job, name);
      if err.Some? {
        return;
      }
      FinishJob(job);
    }

    /** satisfy_deps: each dependency in turn; the first that raises stops the loop. */
    method SatisfyDeps(job: nat, deps: seq<string>) returns (err: Option<MaitchError>)
      requires Valid() && job < |ctx.rules|
      modifies this
      ensures Valid() && (Snap(), err) == SatisfyDepsF(ctx, old(Snap()), job, deps, 0)
      decreases Unqueued(ctx, Snap()), 2, |deps|
    {
      ghost var g0 := Snap();
      var i := 0;
      while i < |deps|
        invariant 0 <= i <= |deps| && Valid()
        invariant Unqueued(ctx, Snap()) <= Unqueued(ctx, g0)
        invariant SatisfyDepsF(ctx, Snap(), job, deps, i) == SatisfyDepsF(ctx, g0, job, deps, 0)
      {
        err := SatisfyDep(job, deps[i]);
        if err.Some? {
          return;
        }
        i := i + 1;
      }
      return None;
    }

    /** One dependency of satisfy_deps. */
    method SatisfyDep(job: nat, dep: string) returns (err: Option<MaitchError>)
      requires Valid() && job < |ctx.rules|
      modifies this
      ensures Valid() && (Snap(), err) == SatisfyDepF(ctx, old(Snap()), job, dep)
      decreases Unqueued(ctx, Snap()), 1, 0
    {
      if dep in queued {
        var rule := queued[dep];
        if calculating[rule] {
          return Some(Circular(rule, dep));
        }
        MarkSized(ctx, Snap(), job, rule);
        MarkBlockingOf(job, rule);
        return None;
      } else if dep in ctx.explicitRules {
        var rule := ctx.explicitRules[dep];
        MarkSized(ctx, Snap(), job, rule);
        MarkBlockingOf(job, rule);
        err := AddJob(rule, dep);
      } else {
        var found := FindSource(ctx.fs, ctx.dirs, dep, ctx.rules[job].where, true);
        if found.Err? {
          return Some(found.error);
        }
        return None;
      }
    }

    /**
     * The loop of BuildGroup.__init__: each target is added in turn, and
     * the first that raises stops the loop.
     */
    method AddTargets(targets: seq<string>) returns (err: Option<MaitchError>)
      requires Valid()
      modifies this
      ensures Valid() && (Snap(), err) == AddTargetsF(ctx, old(Snap()), targets, 0)
    {
      var i := 0;
      ghost var snap := Snap();
      while i < |targets|
        invariant 0 <= i <= |targets| && Valid()
        invariant snap == Snap()
        invariant AddTargetsF(ctx, snap, targets, i) == AddTargetsF(ctx, old(Snap()), targets, 0)
      {
        err := AddTarget(targets[i]);
        AddTargetsStep(ctx, snap, targets, i);
        if err.Some? {
          return;
        }
        snap := Snap();
        i := i + 1;
      }
      err := None;
    }

    /** add_target. */
    method AddTarget(target: string) returns (err: Option<MaitchError>)
      requires Valid()
      modifies this
      ensures Valid() && (Snap(), err) == AddTargetF(ctx, old(Snap()), target)
    {
      if target in queued {
        return None;
      }
      if target !in ctx.explicitRules {
        return Some(KeyError(target));
      }
      err := AddJob(ctx.explicitRules[target], target);
    }

    /** job_done: each job that `job` blocks loses it as a blocker. */
    method JobDone(job: nat) returns (err: Option<MaitchError>)
      requires Valid() && job < |ctx.rules|
      modifies this`blockedBy, this`pendingJobs, this`readyQueue
      ensures Valid() && (Snap(), err) == UnblockAll(ctx, old(Snap()), job, old(blocking[job]), 0)
    {
      ghost var g0 := Snap();
      var bl := blocking[job];
      var i := 0;
      while i < |bl|
        invariant 0 <= i <= |bl| && Valid() && blocking == g0.blocking
        invariant UnblockAll(ctx, Snap(), job, bl, i) == UnblockAll(ctx, g0, job, bl, 0)
      {
        assert bl[i] in bl;
        err := UnblockJob(bl[i], job);
        if err.Some? {
          return;
        }
        i := i + 1;
      }
      return None;
    }

    /** One round of Builder.run's loop; `finished` ends the worker. */
    method Step() returns (finished: bool)
      requires Valid()
      modifies this`blockedBy, this`pendingJobs, this`readyQueue, this`cancelled, this`log
      ensures Valid() && (Snap(), finished) == WorkerStep(ctx, old(Snap()))
    {
      if readyQueue == [] {
        return true;
      }
      var job := readyQueue[|readyQueue| - 1];
      PopSized(ctx, Snap());
      assert job in readyQueue;
      readyQueue := readyQueue[..|readyQueue| - 1];
      log := log + [job];
      if job in ctx.failing {
        CancelAllJobs();
        return true;
      }
      var err := JobDone(job);
      if err.Some? {
        CancelAllJobs();
        return true;
      }
      return false;
    }

    /** Builder.run with one worker. */
    method Run()
      requires Valid()
      modifies this`blockedBy, this`pendingJobs, this`readyQueue, this`cancelled, this`log
      ensures Valid() && Snap() == RunF(ctx, old(Snap()))
    {
      var finished := false;
      while !finished
        invariant Valid()
        invariant !finished ==> RunF(ctx, Snap()) == RunF(ctx, old(Snap()))
        invariant finished ==> Snap() == RunF(ctx, old(Snap()))
        decreases !finished, 2 * |pendingJobs| + |readyQueue|
      {
        ghost var g := Snap();
        finished := Step();
      }
    }
  }
}
