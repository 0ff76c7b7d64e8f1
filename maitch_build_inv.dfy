/**
 * What BuildGroup's bookkeeping keeps invariant, and that each single
 * step of MaitchBuild keeps it.
 *
 * The invariant is split into small predicates, each about one concern:
 * no duplicates, who owns a target, where a job is, when a job is
 * blocked, the mirror between blocking and blocked_by, that every edge is
 * a real dependency, the order in which jobs were resolved, and the run
 * log. `Book` holds what only the proofs need: the jobs add_job has taken
 * on and the order in which their resolution finished.
 */
module MaitchBuildInv {
  import opened Wrappers
  import opened MaitchFiles
  import opened MaitchRule
  import opened MaitchBuild

  datatype Book = Book(added: set<nat>, rank: map<nat, nat>, nextRank: nat)

  /** A job that has run without raising. */
  ghost predicate Done(c: Ctx, g: Graph, b: nat)
  {
    b in g.log && b !in c.failing
  }

  ghost predicate Distinct(c: Ctx, g: Graph)
    requires Sized(c, g)
  {
    NoDup(g.pending) && NoDup(g.ready) && NoDup(g.log)
    && (forall b :: 0 <= b < |c.rules| ==> NoDup(g.blocking[b]))
    && (forall a :: 0 <= a < |c.rules| ==> NoDup(g.blockedBy[a]))
  }

  /** `queued` maps each target of an added job to that job, which is its explicit rule. */
  ghost predicate Owners(c: Ctx, g: Graph, k: Book)
  {
    (forall j <- k.added :: j < |c.rules|)
    && (forall t <- g.queued :: g.queued[t] in k.added && t in c.explicitRules && c.explicitRules[t] == g.queued[t])
    && (forall j, t :: j in k.added && j < |c.rules| && t in c.rules[j].targets ==> t in g.queued)
  }

  /** An added job is pending, ready or in the log, in exactly one of them; cancelling empties the queues. */
  ghost predicate Places(c: Ctx, g: Graph, k: Book)
    requires Sized(c, g)
  {
    (forall j <- g.pending :: j in k.added && j !in g.ready && j !in g.log)
    && (forall j <- g.ready :: j in k.added && j !in g.log)
    && (forall j <- g.log :: j in k.added)
    && (forall j :: 0 <= j < |c.rules| && g.calculating[j] ==> j in g.pending)
    && (g.cancelled ==> g.pending == [] && g.ready == [])
    && (!g.cancelled ==> forall j <- k.added :: j in g.pending || j in g.ready || j in g.log)
  }

  /** A ready or started job has no blocker; a pending job that is not being calculated has one. */
  ghost predicate Blocked(c: Ctx, g: Graph)
    requires Sized(c, g)
  {
    (forall j <- g.ready :: g.blockedBy[j] == [])
    && (forall j <- g.log :: g.blockedBy[j] == [])
    && (forall j <- g.pending :: !g.calculating[j] ==> g.blockedBy[j] != [])
  }

  /**
   * blocking and blocked_by mirror each other, except that a job that has
   * run keeps its blocking list; x is the job whose dependents job_done is
   * unblocking (-1 for none).
   */
  ghost predicate Mirror(c: Ctx, g: Graph, x: int)
    requires Sized(c, g)
  {
    (forall a, b :: 0 <= a < |c.rules| && b in g.blockedBy[a] ==> a in g.blocking[b] && (Done(c, g, b) ==> b == x))
    && (forall b, a :: 0 <= b < |c.rules| && a in g.blocking[b] ==> b in g.blockedBy[a] || Done(c, g, b))
  }

  /** Every edge is a dependency of an added job on the owner of one of its names. */
  ghost predicate Real(c: Ctx, g: Graph, k: Book)
    requires Sized(c, g)
  {
    forall b, a :: 0 <= b < |c.rules| && a in g.blocking[b] ==> a in k.added && DependsOn(c.rules, c.explicitRules, a, b)
  }

  /** Resolution order: a resolved job is blocked by the owner of each of its dependencies, each resolved before it. */
  ghost predicate Ranked(c: Ctx, g: Graph, k: Book)
    requires WellFormed(c.rules, c.explicitRules) && Sized(c, g)
  {
    (forall j: nat :: j in k.rank <==> j in k.added && j < |c.rules| && !g.calculating[j])
    && (forall j <- k.rank :: k.rank[j] < k.nextRank)
    && (forall b, a :: 0 <= b < |c.rules| && a in g.blocking[b] && a in k.rank ==> b in k.rank && k.rank[b] < k.rank[a])
    && (forall a, d :: a in k.rank && a < |c.rules| && d in JobDeps(c.rules[a]) && d in c.explicitRules ==>
          a in g.blocking[c.explicitRules[d]])
  }

  /** Only the last job run may have raised, and then the build is cancelled; a job runs after all its blockers. */
  ghost predicate Logged(c: Ctx, g: Graph)
    requires Sized(c, g)
  {
    (forall i :: 0 <= i < |g.log| - 1 ==> g.log[i] !in c.failing)
    && (g.cancelled <==> g.log != [] && g.log[|g.log| - 1] in c.failing)
    && (forall i, b :: 0 <= i < |g.log| && 0 <= b < |c.rules| && g.log[i] in g.blocking[b] ==> b in g.log[..i])
  }

  /** The concerns the invariant is made of, one predicate each. */
  datatype Concern = NoDups | Owning | Placing | Blocking | Mirroring | Edges | Ranking | Logging

  ghost predicate Keeps(c: Ctx, g: Graph, k: Book, x: int, concern: Concern)
  {
    match concern
    case NoDups => Sized(c, g) && Distinct(c, g)
    case Owning => Owners(c, g, k)
    case Placing => Sized(c, g) && Places(c, g, k)
    case Blocking => Sized(c, g) && Blocked(c, g)
    case Mirroring => Sized(c, g) && Mirror(c, g, x)
    case Edges => Sized(c, g) && Real(c, g, k)
    case Ranking => WellFormed(c.rules, c.explicitRules) && Sized(c, g) && Ranked(c, g, k)
    case Logging => Sized(c, g) && Logged(c, g)
  }

  /**
   * The invariant, with x the job whose dependents job_done is unblocking
   * (-1 for none): the arena's shape, and each concern. Stated over the
   * concerns so that a proof that only passes the invariant along does
   * not have to look inside them.
   */
  ghost predicate Inv(c: Ctx, g: Graph, k: Book, x: int)
  {
    WellFormed(c.rules, c.explicitRules) && Sized(c, g) && forall concern :: Keeps(c, g, k, x, concern)
  }

  /** The invariant, concern by concern. */
  lemma InvParts(c: Ctx, g: Graph, k: Book, x: int)
    requires Inv(c, g, k, x)
    ensures WellFormed(c.rules, c.explicitRules) && Sized(c, g)
    ensures Distinct(c, g) && Owners(c, g, k) && Places(c, g, k) && Blocked(c, g)
    ensures Mirror(c, g, x) && Real(c, g, k) && Ranked(c, g, k) && Logged(c, g)
  {
    assert Keeps(c, g, k, x, NoDups) && Keeps(c, g, k, x, Owning);
    assert Keeps(c, g, k, x, Placing) && Keeps(c, g, k, x, Blocking) && Keeps(c, g, k, x, Mirroring);
    assert Keeps(c, g, k, x, Edges) && Keeps(c, g, k, x, Ranking) && Keeps(c, g, k, x, Logging);
  }

  /** The invariant from its concerns. */
  lemma InvFromParts(c: Ctx, g: Graph, k: Book, x: int)
    requires WellFormed(c.rules, c.explicitRules) && Sized(c, g)
    requires Distinct(c, g) && Owners(c, g, k) && Places(c, g, k) && Blocked(c, g)
    requires Mirror(c, g, x) && Real(c, g, k) && Ranked(c, g, k) && Logged(c, g)
    ensures Inv(c, g, k, x)
  {
  }

  /** Still resolving: nothing has run and nothing is cancelled. */
  predicate Resolving(g: Graph)
  {
    g.log == [] && !g.cancelled
  }

  /** No job is being calculated. */
  predicate Resolved(g: Graph)
  {
    forall j :: 0 <= j < |g.calculating| ==> !g.calculating[j]
  }

  /** The jobs being calculated are exactly those of the chain `stack`. */
  ghost predicate Stack(c: Ctx, g: Graph, stack: seq<nat>)
    requires |g.calculating| == |c.rules|
  {
    forall j :: 0 <= j < |c.rules| ==> (g.calculating[j] <==> j in stack)
  }

  /** Between two moments of one resolution: nothing is lost, and only new jobs (or `owner`) gain edges. */
  ghost predicate Grown(g0: Graph, k0: Book, g1: Graph, k1: Book, owner: int)
  {
    k0.added <= k1.added
    && (forall j <- k0.rank :: j in k1.rank && k1.rank[j] == k0.rank[j])
    && k0.nextRank <= k1.nextRank
    && |g0.blocking| == |g1.blocking|
    && (forall b, a :: 0 <= b < |g0.blocking| && a in g0.blocking[b] ==> a in g1.blocking[b])
    && (forall b, a :: 0 <= b < |g1.blocking| && a in g1.blocking[b] && a !in g0.blocking[b] ==> a !in k0.added || a == owner)
  }

  lemma GrownTrans(g0: Graph, k0: Book, g1: Graph, k1: Book, g2: Graph, k2: Book, o: int, o2: int)
    requires Grown(g0, k0, g1, k1, o) && Grown(g1, k1, g2, k2, o2)
    requires o2 == o || o2 == -1 || (o2 >= 0 && o2 !in k0.added)
    ensures Grown(g0, k0, g2, k2, o)
  {
  }

  lemma NoDupSnoc(s: seq<nat>, x: nat)
    requires NoDup(s) && x !in s
    ensures NoDup(s + [x])
  {
  }

  lemma NoDupPrefix(s: seq<nat>, n: nat)
    requires NoDup(s) && n <= |s|
    ensures NoDup(s[..n]) && forall y <- s[..n] :: y in s
  {
  }

  /** The empty group satisfies the invariant. */
  lemma InitialInv(c: Ctx)
    requires WellFormed(c.rules, c.explicitRules)
    ensures Inv(c, Initial(c), Book({}, map[], 0), -1) && Resolving(Initial(c)) && Resolved(Initial(c))
  {
    InvFromParts(c, Initial(c), Book({}, map[], 0), -1);
  }

  // ---------------------------------------------------------------------
  // add_job up to satisfy_deps

  lemma StartKeepsInv(c: Ctx, g: Graph, k: Book, job: nat)
    requires Inv(c, g, k, -1) && Resolving(g) && job < |c.rules| && job !in k.added
    ensures Inv(c, Start(g, job, c.rules[job].targets), k.(added := k.added + {job}), -1)
  {
    InvParts(c, g, k, -1);
    var g1 := Start(g, job, c.rules[job].targets);
    var k1 := k.(added := k.added + {job});
    StartSized(c, g, job, c.rules[job].targets);
    StartDistinct(c, g, k, job);
    StartOwners(c, g, k, job);
    StartPlaces(c, g, k, job);
    StartBlocked(c, g, job);
    StartRanked(c, g, k, job);
    StartFrame(c, g, k, job);
    InvFromParts(c, g1, k1, -1);
  }

  lemma StartDistinct(c: Ctx, g: Graph, k: Book, job: nat)
    requires Sized(c, g) && Distinct(c, g) && job < |c.rules| && job !in g.pending
    requires Sized(c, Start(g, job, c.rules[job].targets))
    ensures Distinct(c, Start(g, job, c.rules[job].targets))
  {
    NoDupSnoc(g.pending, job);
  }

  lemma StartOwners(c: Ctx, g: Graph, k: Book, job: nat)
    requires WellFormed(c.rules, c.explicitRules) && Sized(c, g) && Owners(c, g, k) && job < |c.rules|
    ensures Owners(c, Start(g, job, c.rules[job].targets), k.(added := k.added + {job}))
  {
  }

  lemma StartPlaces(c: Ctx, g: Graph, k: Book, job: nat)
    requires Sized(c, g) && Places(c, g, k) && Resolving(g) && job < |c.rules| && job !in k.added
    requires Sized(c, Start(g, job, c.rules[job].targets))
    ensures Places(c, Start(g, job, c.rules[job].targets), k.(added := k.added + {job}))
  {
  }

  lemma StartBlocked(c: Ctx, g: Graph, job: nat)
    requires Sized(c, g) && Blocked(c, g) && job < |c.rules|
    requires Sized(c, Start(g, job, c.rules[job].targets))
    ensures Blocked(c, Start(g, job, c.rules[job].targets))
  {
  }

  lemma StartRanked(c: Ctx, g: Graph, k: Book, job: nat)
    requires WellFormed(c.rules, c.explicitRules) && Sized(c, g) && Ranked(c, g, k) && job < |c.rules| && job !in k.added
    requires Sized(c, Start(g, job, c.rules[job].targets))
    ensures Ranked(c, Start(g, job, c.rules[job].targets), k.(added := k.added + {job}))
  {
    assert job !in k.rank;
  }

  lemma StartFrame(c: Ctx, g: Graph, k: Book, job: nat)
    requires Sized(c, g) && Mirror(c, g, -1) && Real(c, g, k) && Logged(c, g) && job < |c.rules|
    requires Sized(c, Start(g, job, c.rules[job].targets))
    ensures var g1 := Start(g, job, c.rules[job].targets);
      Mirror(c, g1, -1) && Real(c, g1, k.(added := k.added + {job})) && Logged(c, g1)
  {
  }

  lemma StartFacts(c: Ctx, g: Graph, k: Book, job: nat, stack: seq<nat>)
    requires Inv(c, g, k, -1) && Resolving(g) && job < |c.rules| && job !in k.added
    requires Stack(c, g, stack)
    ensures var g1 := Start(g, job, c.rules[job].targets);
      Resolving(g1) && Grown(g, k, g1, k.(added := k.added + {job}), -1) && Stack(c, g1, stack + [job])
      && (forall b :: 0 <= b < |c.rules| ==> job !in g1.blocking[b])
  {
    InvParts(c, g, k, -1);
  }

  // ---------------------------------------------------------------------
  // mark_blocking while resolving

  lemma MarkKeepsInv(c: Ctx, g: Graph, k: Book, job: nat, rule: nat)
    requires Inv(c, g, k, -1) && Resolving(g)
    requires job < |c.rules| && g.calculating[job] && rule < |c.rules|
    requires DependsOn(c.rules, c.explicitRules, job, rule)
    ensures Inv(c, MarkBlocking(g, job, rule), k, -1)
  {
    InvParts(c, g, k, -1);
    MarkSized(c, g, job, rule);
    MarkDistinct(c, g, k, job, rule);
    MarkMirror(c, g, k, job, rule);
    MarkReal(c, g, k, job, rule);
    MarkBlocked(c, g, k, job, rule);
    MarkRanked(c, g, k, job, rule);
    MarkFrame(c, g, k, job, rule);
    InvFromParts(c, MarkBlocking(g, job, rule), k, -1);
  }

  lemma MarkBlocked(c: Ctx, g: Graph, k: Book, job: nat, rule: nat)
    requires Sized(c, g) && Blocked(c, g) && Places(c, g, k) && Resolving(g)
    requires job < |c.rules| && g.calculating[job] && rule < |c.rules|
    requires Sized(c, MarkBlocking(g, job, rule))
    ensures Blocked(c, MarkBlocking(g, job, rule))
  {
    assert job in g.pending;
    assert job !in g.ready;
  }

  lemma MarkRanked(c: Ctx, g: Graph, k: Book, job: nat, rule: nat)
    requires WellFormed(c.rules, c.explicitRules) && Sized(c, g) && Ranked(c, g, k)
    requires job < |c.rules| && g.calculating[job] && rule < |c.rules|
    requires Sized(c, MarkBlocking(g, job, rule))
    ensures Ranked(c, MarkBlocking(g, job, rule), k)
  {
    RankedMoreEdges(c, g, MarkBlocking(g, job, rule), k, job, rule);
  }

  /** An edge from a job not yet resolved leaves the resolution order as it was. */
  lemma RankedMoreEdges(c: Ctx, g: Graph, g1: Graph, k: Book, job: nat, rule: nat)
    requires WellFormed(c.rules, c.explicitRules) && Sized(c, g) && Sized(c, g1) && Ranked(c, g, k)
    requires job < |c.rules| && g.calculating[job] && rule < |c.rules| && g1.calculating == g.calculating
    requires forall b :: 0 <= b < |c.rules| && b != rule ==> g1.blocking[b] == g.blocking[b]
    requires forall x :: x in g1.blocking[rule] <==> x in g.blocking[rule] || x == job
    ensures Ranked(c, g1, k)
  {
    forall b, a | 0 <= b < |c.rules| && a in g1.blocking[b] && a in k.rank
      ensures b in k.rank && k.rank[b] < k.rank[a]
    {
      if b == rule {
        assert a != job;
        assert a in g.blocking[b];
      }
    }
    forall a, d | a in k.rank && a < |c.rules| && d in JobDeps(c.rules[a]) && d in c.explicitRules
      ensures a in g1.blocking[c.explicitRules[d]]
    {
      assert a in g.blocking[c.explicitRules[d]];
    }
  }

  lemma MarkFrame(c: Ctx, g: Graph, k: Book, job: nat, rule: nat)
    requires Sized(c, g) && Owners(c, g, k) && Places(c, g, k) && Logged(c, g) && Resolving(g)
    requires job < |c.rules| && rule < |c.rules|
    requires Sized(c, MarkBlocking(g, job, rule))
    ensures var g1 := MarkBlocking(g, job, rule);
      Owners(c, g1, k) && Places(c, g1, k) && Logged(c, g1)
  {
  }

  lemma MarkDistinct(c: Ctx, g: Graph, k: Book, job: nat, rule: nat)
    requires Sized(c, g) && Distinct(c, g) && job < |c.rules| && rule < |c.rules|
    requires Sized(c, MarkBlocking(g, job, rule))
    ensures Distinct(c, MarkBlocking(g, job, rule))
  {
  }

  lemma MarkMirror(c: Ctx, g: Graph, k: Book, job: nat, rule: nat)
    requires Sized(c, g) && Mirror(c, g, -1) && Resolving(g) && job < |c.rules| && rule < |c.rules|
    requires Sized(c, MarkBlocking(g, job, rule))
    ensures Mirror(c, MarkBlocking(g, job, rule), -1)
  {
    var g1 := MarkBlocking(g, job, rule);
    forall a, b | 0 <= a < |c.rules| && b in g1.blockedBy[a]
      ensures a in g1.blocking[b]
    {
      if (a != job || b != rule) && a == job {
        assert b in g.blockedBy[a];
      }
    }
    forall b, a | 0 <= b < |c.rules| && a in g1.blocking[b]
      ensures b in g1.blockedBy[a]
    {
      if (a != job || b != rule) && b == rule {
        assert a in g.blocking[b];
      }
    }
  }

  lemma MarkReal(c: Ctx, g: Graph, k: Book, job: nat, rule: nat)
    requires Sized(c, g) && Real(c, g, k)
    requires job < |c.rules| && job in k.added && rule < |c.rules| && DependsOn(c.rules, c.explicitRules, job, rule)
    requires Sized(c, MarkBlocking(g, job, rule))
    ensures Real(c, MarkBlocking(g, job, rule), k)
  {
    var g1 := MarkBlocking(g, job, rule);
    forall b, a | 0 <= b < |c.rules| && a in g1.blocking[b]
      ensures a in k.added && DependsOn(c.rules, c.explicitRules, a, b)
    {
      if (a != job || b != rule) && b == rule {
        assert a in g.blocking[b];
      }
    }
  }

  lemma MarkFacts(c: Ctx, g: Graph, k: Book, job: nat, rule: nat)
    requires Inv(c, g, k, -1) && Resolving(g)
    requires job < |c.rules| && rule < |c.rules|
    ensures var g1 := MarkBlocking(g, job, rule);
      Resolving(g1) && Grown(g, k, g1, k, job) && g1.calculating == g.calculating
      && forall b :: 0 <= b < |c.rules| && job in g1.blocking[b] ==> b == rule || job in g.blocking[b]
  {
    InvParts(c, g, k, -1);
  }

  // ---------------------------------------------------------------------
  // add_job after satisfy_deps

  lemma FinishKeepsInv(c: Ctx, g: Graph, k: Book, job: nat)
    requires Inv(c, g, k, -1) && Resolving(g)
    requires job < |c.rules| && g.calculating[job]
    requires forall b :: 0 <= b < |c.rules| && job in g.blocking[b] ==> b in k.rank
    requires forall d <- JobDeps(c.rules[job]) :: d in c.explicitRules ==> job in g.blocking[c.explicitRules[d]]
    ensures Inv(c, Finish(g, job), k.(rank := k.rank[job := k.nextRank], nextRank := k.nextRank + 1), -1)
  {
    InvParts(c, g, k, -1);
    FinishSized(c, g, job);
    assert job in g.pending && job !in g.ready;
    FinishDistinct(c, g, job);
    FinishPlaces(c, g, k, job);
    FinishBlocked(c, g, job);
    FinishRanked(c, g, k, job);
    FinishFrame(c, g, k, job);
    InvFromParts(c, Finish(g, job), k.(rank := k.rank[job := k.nextRank], nextRank := k.nextRank + 1), -1);
  }

  lemma FinishDistinct(c: Ctx, g: Graph, job: nat)
    requires Sized(c, g) && Distinct(c, g) && job < |c.rules| && job !in g.ready
    requires Sized(c, Finish(g, job))
    ensures Distinct(c, Finish(g, job))
  {
    if g.blockedBy[job] == [] && job in g.pending {
      NoDupSnoc(g.ready, job);
    }
  }

  lemma FinishPlaces(c: Ctx, g: Graph, k: Book, job: nat)
    requires Sized(c, g) && Places(c, g, k) && Resolving(g) && job < |c.rules| && job in g.pending && NoDup(g.pending)
    requires Sized(c, Finish(g, job))
    ensures Places(c, Finish(g, job), k.(rank := k.rank[job := k.nextRank], nextRank := k.nextRank + 1))
  {
  }

  lemma FinishBlocked(c: Ctx, g: Graph, job: nat)
    requires Sized(c, g) && Blocked(c, g) && job < |c.rules| && job in g.pending && NoDup(g.pending)
    requires Sized(c, Finish(g, job))
    ensures Blocked(c, Finish(g, job))
  {
    var g1 := Finish(g, job);
    forall j <- g1.pending
      ensures !g1.calculating[j] ==> g1.blockedBy[j] != []
    {
      assert j in g.pending;
    }
  }

  lemma FinishFrame(c: Ctx, g: Graph, k: Book, job: nat)
    requires Sized(c, g) && Owners(c, g, k) && Mirror(c, g, -1) && Real(c, g, k) && Logged(c, g) && job < |c.rules|
    requires Sized(c, Finish(g, job))
    ensures var g1 := Finish(g, job);
      var k1 := k.(rank := k.rank[job := k.nextRank], nextRank := k.nextRank + 1);
      Owners(c, g1, k1) && Mirror(c, g1, -1) && Real(c, g1, k1) && Logged(c, g1)
  {
    var g1 := Finish(g, job);
    EdgesSame(c, g, g1, k, k.(rank := k.rank[job := k.nextRank], nextRank := k.nextRank + 1));
    MirrorLogSame(c, g, g1);
  }

  /** Owners and Real read only the target map, the blocking lists and the added jobs. */
  lemma EdgesSame(c: Ctx, g: Graph, g1: Graph, k: Book, k1: Book)
    requires Sized(c, g) && Sized(c, g1) && Owners(c, g, k) && Real(c, g, k)
    requires g1.queued == g.queued && g1.blocking == g.blocking && k1.added == k.added
    ensures Owners(c, g1, k1) && Real(c, g1, k1)
  {
  }

  /** Mirror and Logged read only the edges, the log and the cancelled flag. */
  lemma MirrorLogSame(c: Ctx, g: Graph, g1: Graph)
    requires Sized(c, g) && Sized(c, g1) && Mirror(c, g, -1) && Logged(c, g)
    requires g1.blocking == g.blocking && g1.blockedBy == g.blockedBy && g1.log == g.log && g1.cancelled == g.cancelled
    ensures Mirror(c, g1, -1) && Logged(c, g1)
  {
    assert forall b :: Done(c, g1, b) == Done(c, g, b);
  }

  lemma FinishRanked(c: Ctx, g: Graph, k: Book, job: nat)
    requires job < |c.rules| && WellFormed(c.rules, c.explicitRules) && Sized(c, g) && Ranked(c, g, k) && Sized(c, Finish(g, job))
    requires g.calculating[job]
    requires forall b :: 0 <= b < |c.rules| && job in g.blocking[b] ==> b in k.rank
    requires forall d <- JobDeps(c.rules[job]) :: d in c.explicitRules ==> job in g.blocking[c.explicitRules[d]]
    requires job in k.added
    ensures Ranked(c, Finish(g, job), k.(rank := k.rank[job := k.nextRank], nextRank := k.nextRank + 1))
  {
    RankOne(c, g, Finish(g, job), k, job);
  }

  /** Giving the job whose calculation ends the next rank keeps the resolution order. */
  lemma RankOne(c: Ctx, g: Graph, g1: Graph, k: Book, job: nat)
    requires job < |c.rules| && WellFormed(c.rules, c.explicitRules) && Sized(c, g) && Ranked(c, g, k) && Sized(c, g1)
    requires g1.blocking == g.blocking && g1.calculating == g.calculating[job := false]
    requires g.calculating[job] && job in k.added
    requires forall b :: 0 <= b < |c.rules| && job in g.blocking[b] ==> b in k.rank
    requires forall d <- JobDeps(c.rules[job]) :: d in c.explicitRules ==> job in g.blocking[c.explicitRules[d]]
    ensures Ranked(c, g1, k.(rank := k.rank[job := k.nextRank], nextRank := k.nextRank + 1))
  {
    RankOneDomain(c, g, g1, k, job);
    RankOneOrder(c, g, k, job);
  }

  lemma RankOneDomain(c: Ctx, g: Graph, g1: Graph, k: Book, job: nat)
    requires job < |c.rules| && WellFormed(c.rules, c.explicitRules) && Sized(c, g) && Ranked(c, g, k) && Sized(c, g1)
    requires g1.calculating == g.calculating[job := false] && g.calculating[job] && job in k.added
    ensures var k1 := k.(rank := k.rank[job := k.nextRank], nextRank := k.nextRank + 1);
      (forall j: nat :: j in k1.rank <==> j in k1.added && j < |c.rules| && !g1.calculating[j])
      && (forall j <- k1.rank :: k1.rank[j] < k1.nextRank)
  {
    var k1 := k.(rank := k.rank[job := k.nextRank], nextRank := k.nextRank + 1);
    forall j: nat
      ensures j in k1.rank <==> j in k1.added && j < |c.rules| && !g1.calculating[j]
    {
      if j != job && j < |c.rules| {
        assert g1.calculating[j] == g.calculating[j];
      }
    }
  }

  lemma RankOneOrder(c: Ctx, g: Graph, k: Book, job: nat)
    requires job < |c.rules| && WellFormed(c.rules, c.explicitRules) && Sized(c, g) && Ranked(c, g, k)
    requires g.calculating[job]
    requires forall b :: 0 <= b < |c.rules| && job in g.blocking[b] ==> b in k.rank
    requires forall d <- JobDeps(c.rules[job]) :: d in c.explicitRules ==> job in g.blocking[c.explicitRules[d]]
    ensures var k1 := k.(rank := k.rank[job := k.nextRank], nextRank := k.nextRank + 1);
      (forall b, a :: 0 <= b < |c.rules| && a in g.blocking[b] && a in k1.rank ==> b in k1.rank && k1.rank[b] < k1.rank[a])
      && (forall a, d :: a in k1.rank && a < |c.rules| && d in JobDeps(c.rules[a]) && d in c.explicitRules ==>
            a in g.blocking[c.explicitRules[d]])
  {
    var k1 := k.(rank := k.rank[job := k.nextRank], nextRank := k.nextRank + 1);
    assert job !in k.rank;
    forall b, a | 0 <= b < |c.rules| && a in g.blocking[b] && a in k1.rank
      ensures b in k1.rank && k1.rank[b] < k1.rank[a]
    {
      if a != job {
        assert a in k.rank;
        assert b != job;
      }
    }
    forall a, d | a in k1.rank && a < |c.rules| && d in JobDeps(c.rules[a]) && d in c.explicitRules
      ensures a in g.blocking[c.explicitRules[d]]
    {
      if a != job {
        assert a in k.rank;
      }
    }
  }

  lemma FinishFacts(c: Ctx, g: Graph, k: Book, job: nat)
    requires Inv(c, g, k, -1) && Resolving(g)
    requires job < |c.rules| && g.calculating[job]
    ensures var k1 := k.(rank := k.rank[job := k.nextRank], nextRank := k.nextRank + 1);
      Resolving(Finish(g, job)) && Grown(g, k, Finish(g, job), k1, -1)
  {
    InvParts(c, g, k, -1);
    assert job !in k.rank;
  }

  // ---------------------------------------------------------------------
  // The worker

  /** A job left pending always has, down its chain of blockers, a ready job: a lone worker never waits forever. */
  lemma ReadyBelow(c: Ctx, g: Graph, k: Book, j: nat)
    requires Inv(c, g, k, -1) && Resolved(g) && j in g.pending
    ensures g.ready != []
  {
    InvParts(c, g, k, -1);
    ReadyBelowFrom(c, g, k, j);
  }

  lemma {:induction false} ReadyBelowFrom(c: Ctx, g: Graph, k: Book, j: nat)
    requires WellFormed(c.rules, c.explicitRules) && Sized(c, g) && Resolved(g)
    requires Places(c, g, k) && Blocked(c, g) && Mirror(c, g, -1) && Ranked(c, g, k) && Logged(c, g)
    requires j in g.pending
    ensures g.ready != []
    decreases if j in k.rank then k.rank[j] else 0
  {
    var b := BlockerOf(c, g, k, j);
    if b !in g.ready {
      ReadyBelowFrom(c, g, k, b);
    }
  }

  /** The first blocker of a pending job is itself pending or ready, and was resolved before it. */
  lemma BlockerOf(c: Ctx, g: Graph, k: Book, j: nat) returns (b: nat)
    requires WellFormed(c.rules, c.explicitRules) && Sized(c, g) && Resolved(g)
    requires Places(c, g, k) && Blocked(c, g) && Mirror(c, g, -1) && Ranked(c, g, k) && Logged(c, g)
    requires j in g.pending
    ensures j in k.rank && b in k.rank && k.rank[b] < k.rank[j]
    ensures b in g.pending || b in g.ready
  {
    assert j < |c.rules|;
    b := g.blockedBy[j][0];
    assert b in g.blockedBy[j];
    assert j in g.blocking[b];
    assert !Done(c, g, b);
    assert b in k.added;
    if b in g.log {
      LastFailing(c, g, b);
    }
  }

  /** A job in the log that raised is the last one, and then the build is cancelled. */
  lemma LastFailing(c: Ctx, g: Graph, b: nat)
    requires Sized(c, g) && Logged(c, g) && b in g.log && b in c.failing
    ensures g.cancelled
  {
    var i :| 0 <= i < |g.log| && g.log[i] == b;
  }

  lemma PopKeepsInv(c: Ctx, g: Graph, k: Book)
    requires Inv(c, g, k, -1) && Resolved(g) && g.ready != [] && g.ready[|g.ready| - 1] !in c.failing
    ensures var job := g.ready[|g.ready| - 1];
      job < |c.rules| && Inv(c, Pop(g), k, job) && Resolved(Pop(g)) && !Pop(g).cancelled && Done(c, Pop(g), job)
  {
    InvParts(c, g, k, -1);
    PopSized(c, g);
    PopKeepsParts(c, g, k);
    PopLogged(c, g, k);
    InvFromParts(c, Pop(g), k, g.ready[|g.ready| - 1]);
  }

  lemma PopFailingKeepsInv(c: Ctx, g: Graph, k: Book)
    requires Inv(c, g, k, -1) && Resolved(g) && g.ready != [] && g.ready[|g.ready| - 1] in c.failing
    ensures Inv(c, Cancel(Pop(g)), k, -1) && Resolved(Cancel(Pop(g)))
  {
    InvParts(c, g, k, -1);
    PopSized(c, g);
    PopKeepsParts(c, g, k);
    PopLogged(c, g, k);
    InvFromParts(c, Cancel(Pop(g)), k, -1);
  }

  lemma PopKeepsParts(c: Ctx, g: Graph, k: Book)
    requires Inv(c, g, k, -1) && Resolved(g) && g.ready != []
    requires Sized(c, Pop(g)) && Sized(c, Cancel(Pop(g)))
    ensures var job := g.ready[|g.ready| - 1];
      job < |c.rules| && job !in g.log && !g.cancelled
      && Distinct(c, Pop(g)) && Distinct(c, Cancel(Pop(g)))
      && Places(c, Pop(g), k) && Places(c, Cancel(Pop(g)), k)
      && Blocked(c, Pop(g)) && Blocked(c, Cancel(Pop(g)))
      && (job !in c.failing ==> Mirror(c, Pop(g), job))
      && (job in c.failing ==> Mirror(c, Cancel(Pop(g)), -1))
      && Owners(c, Pop(g), k) && Real(c, Pop(g), k) && Ranked(c, Pop(g), k)
      && Owners(c, Cancel(Pop(g)), k) && Real(c, Cancel(Pop(g)), k) && Ranked(c, Cancel(Pop(g)), k)
  {
    InvParts(c, g, k, -1);
    var job := g.ready[|g.ready| - 1];
    assert job in g.ready;
    PopDistinct(c, g);
    PopPlaces(c, g, k);
    PopBlocked(c, g);
    PopMirror(c, g);
    PopFrame(c, g, k);
  }

  lemma PopDistinct(c: Ctx, g: Graph)
    requires Sized(c, g) && Distinct(c, g) && g.ready != [] && g.ready[|g.ready| - 1] !in g.log
    requires Sized(c, Pop(g)) && Sized(c, Cancel(Pop(g)))
    ensures Distinct(c, Pop(g)) && Distinct(c, Cancel(Pop(g)))
  {
    NoDupPrefix(g.ready, |g.ready| - 1);
    NoDupSnoc(g.log, g.ready[|g.ready| - 1]);
  }

  lemma PopPlaces(c: Ctx, g: Graph, k: Book)
    requires Sized(c, g) && Places(c, g, k) && Resolved(g) && g.ready != [] && NoDup(g.ready)
    requires Sized(c, Pop(g)) && Sized(c, Cancel(Pop(g)))
    ensures Places(c, Pop(g), k) && Places(c, Cancel(Pop(g)), k)
  {
    var job := g.ready[|g.ready| - 1];
    assert job in g.ready;
    assert g.ready == Pop(g).ready + [job];
    NoDupPrefix(g.ready, |g.ready| - 1);
  }

  lemma PopBlocked(c: Ctx, g: Graph)
    requires Sized(c, g) && Blocked(c, g) && g.ready != []
    requires Sized(c, Pop(g)) && Sized(c, Cancel(Pop(g)))
    ensures Blocked(c, Pop(g)) && Blocked(c, Cancel(Pop(g)))
  {
    assert g.ready[|g.ready| - 1] in g.ready;
  }

  lemma PopMirror(c: Ctx, g: Graph)
    requires Sized(c, g) && Mirror(c, g, -1) && g.ready != []
    requires Sized(c, Pop(g)) && Sized(c, Cancel(Pop(g)))
    ensures g.ready[|g.ready| - 1] !in c.failing ==> Mirror(c, Pop(g), g.ready[|g.ready| - 1])
    ensures g.ready[|g.ready| - 1] in c.failing ==> Mirror(c, Cancel(Pop(g)), -1)
  {
    var job := g.ready[|g.ready| - 1];
    MirrorLogGrows(c, g, Pop(g), job);
    MirrorLogGrows(c, g, Cancel(Pop(g)), job);
  }

  /** Logging a job keeps the mirror, the job being the one whose dependents wait to be unblocked if it did not raise. */
  lemma MirrorLogGrows(c: Ctx, g: Graph, g1: Graph, job: nat)
    requires Sized(c, g) && Sized(c, g1) && Mirror(c, g, -1)
    requires g1.blocking == g.blocking && g1.blockedBy == g.blockedBy && g1.log == g.log + [job]
    ensures job !in c.failing ==> Mirror(c, g1, job)
    ensures job in c.failing ==> Mirror(c, g1, -1)
  {
    assert forall b :: Done(c, g1, b) <==> Done(c, g, b) || (b == job && job !in c.failing);
  }

  lemma PopFrame(c: Ctx, g: Graph, k: Book)
    requires WellFormed(c.rules, c.explicitRules) && Sized(c, g) && Owners(c, g, k) && Real(c, g, k) && Ranked(c, g, k) && g.ready != []
    requires Sized(c, Pop(g)) && Sized(c, Cancel(Pop(g)))
    ensures Owners(c, Pop(g), k) && Real(c, Pop(g), k) && Ranked(c, Pop(g), k)
    ensures Owners(c, Cancel(Pop(g)), k) && Real(c, Cancel(Pop(g)), k) && Ranked(c, Cancel(Pop(g)), k)
  {
    SameFrame(c, g, Pop(g), k);
    SameFrame(c, g, Cancel(Pop(g)), k);
  }

  /** Owners, Real and Ranked read only the target map, the blocking lists and the calculating flags. */
  lemma SameFrame(c: Ctx, g: Graph, g2: Graph, k: Book)
    requires WellFormed(c.rules, c.explicitRules) && Sized(c, g) && Sized(c, g2)
    requires g2.queued == g.queued && g2.blocking == g.blocking && g2.calculating == g.calculating
    requires Owners(c, g, k) && Real(c, g, k) && Ranked(c, g, k)
    ensures Owners(c, g2, k) && Real(c, g2, k) && Ranked(c, g2, k)
  {
  }

  lemma PopLogged(c: Ctx, g: Graph, k: Book)
    requires Sized(c, g) && Logged(c, g) && Places(c, g, k) && Blocked(c, g) && Mirror(c, g, -1)
    requires g.ready != [] && Sized(c, Pop(g)) && Sized(c, Cancel(Pop(g)))
    ensures g.ready[|g.ready| - 1] !in c.failing ==> Logged(c, Pop(g))
    ensures g.ready[|g.ready| - 1] in c.failing ==> Logged(c, Cancel(Pop(g)))
  {
    var job := g.ready[|g.ready| - 1];
    var g1 := Pop(g);
    assert job in g.ready;
    assert !g.cancelled;
    forall i, b | 0 <= i < |g1.log| && 0 <= b < |c.rules| && g1.log[i] in g1.blocking[b]
      ensures b in g1.log[..i]
    {
      if i == |g.log| {
        assert g1.log[..i] == g.log;
        assert b !in g.blockedBy[job];
      } else {
        assert g1.log[..i] == g.log[..i];
      }
    }
  }

  /** Every job the popped job blocks still waits for it. */
  lemma PopBlocks(c: Ctx, g: Graph, k: Book)
    requires Inv(c, g, k, -1) && g.ready != []
    ensures g.ready[|g.ready| - 1] < |c.rules|
    ensures forall a <- g.blocking[g.ready[|g.ready| - 1]] :: g.ready[|g.ready| - 1] in g.blockedBy[a]
  {
    InvParts(c, g, k, -1);
    assert g.ready[|g.ready| - 1] in g.ready;
  }

  /** A job that a finished job still blocks is pending. */
  lemma UnblockTarget(c: Ctx, g: Graph, k: Book, x: nat, a: nat)
    requires Inv(c, g, k, x) && !g.cancelled
    requires x < |c.rules| && a in g.blocking[x] && x in g.blockedBy[a]
    ensures a < |c.rules| && a in g.pending && a !in g.ready && a !in g.log
  {
    InvParts(c, g, k, x);
  }

  lemma UnblockKeepsInv(c: Ctx, g: Graph, k: Book, x: nat, a: nat)
    requires Inv(c, g, k, x) && Resolved(g) && !g.cancelled
    requires x < |c.rules| && Done(c, g, x) && a in g.blocking[x] && x in g.blockedBy[a]
    ensures Inv(c, Unblock(g, a, x), k, x) && Resolved(Unblock(g, a, x)) && !Unblock(g, a, x).cancelled
    ensures Done(c, Unblock(g, a, x), x)
  {
    InvParts(c, g, k, x);
    UnblockTarget(c, g, k, x, a);
    UnblockSized(c, g, a, x);
    UnblockDistinct(c, g, x, a);
    UnblockPlaces(c, g, k, x, a);
    UnblockBlocked(c, g, x, a);
    UnblockMirror(c, g, x, a);
    UnblockFrame(c, g, k, x, a);
    InvFromParts(c, Unblock(g, a, x), k, x);
  }

  lemma UnblockDistinct(c: Ctx, g: Graph, x: nat, a: nat)
    requires Sized(c, g) && Distinct(c, g) && a < |c.rules| && a !in g.ready
    requires Sized(c, Unblock(g, a, x))
    ensures Distinct(c, Unblock(g, a, x))
  {
    if Unblock(g, a, x).blockedBy[a] == [] && a in g.pending {
      NoDupSnoc(g.ready, a);
    }
  }

  lemma UnblockPlaces(c: Ctx, g: Graph, k: Book, x: nat, a: nat)
    requires Sized(c, g) && Places(c, g, k) && Resolved(g) && a < |c.rules| && a in g.pending && NoDup(g.pending)
    requires Sized(c, Unblock(g, a, x))
    ensures Places(c, Unblock(g, a, x), k)
  {
  }

  lemma UnblockBlocked(c: Ctx, g: Graph, x: nat, a: nat)
    requires Sized(c, g) && Blocked(c, g) && a < |c.rules| && a in g.pending && a !in g.log && NoDup(g.pending)
    requires Sized(c, Unblock(g, a, x))
    ensures Blocked(c, Unblock(g, a, x))
  {
    var g1 := Unblock(g, a, x);
    forall j <- g1.pending
      ensures !g1.calculating[j] ==> g1.blockedBy[j] != []
    {
      assert j in g.pending;
    }
  }

  lemma UnblockMirror(c: Ctx, g: Graph, x: nat, a: nat)
    requires Sized(c, g) && Mirror(c, g, x) && Done(c, g, x) && a < |c.rules|
    requires Sized(c, Unblock(g, a, x))
    ensures Mirror(c, Unblock(g, a, x), x)
  {
    MirrorDropEdge(c, g, Unblock(g, a, x), x, a);
  }

  /** Dropping the edge from a to x keeps the mirror, x having run. */
  lemma MirrorDropEdge(c: Ctx, g: Graph, g1: Graph, x: nat, a: nat)
    requires Sized(c, g) && Sized(c, g1) && Mirror(c, g, x) && Done(c, g, x) && a < |c.rules|
    requires g1.log == g.log && g1.blocking == g.blocking
    requires g1.blockedBy[a] == Remove(g.blockedBy[a], x)
    requires forall a1 :: 0 <= a1 < |c.rules| && a1 != a ==> g1.blockedBy[a1] == g.blockedBy[a1]
    ensures Mirror(c, g1, x)
  {
    forall a1, b | 0 <= a1 < |c.rules| && b in g1.blockedBy[a1]
      ensures b in g.blockedBy[a1]
    {
    }
    forall b, a1 | 0 <= b < |c.rules| && a1 in g1.blocking[b] && b != x
      ensures b in g1.blockedBy[a1] || Done(c, g1, b)
    {
      assert b in g.blockedBy[a1] || Done(c, g, b);
    }
  }

  lemma UnblockFrame(c: Ctx, g: Graph, k: Book, x: nat, a: nat)
    requires WellFormed(c.rules, c.explicitRules) && Sized(c, g) && Owners(c, g, k) && Real(c, g, k) && Ranked(c, g, k) && Logged(c, g)
    requires a < |c.rules| && Sized(c, Unblock(g, a, x))
    ensures var g1 := Unblock(g, a, x);
      Owners(c, g1, k) && Real(c, g1, k) && Ranked(c, g1, k) && Logged(c, g1)
  {
    var g1 := Unblock(g, a, x);
    SameFrame(c, g, g1, k);
    assert g1.log == g.log && g1.cancelled == g.cancelled && g1.blocking == g.blocking;
  }

  lemma UnblockedAll(c: Ctx, g: Graph, k: Book, x: nat)
    requires Inv(c, g, k, x) && x < |c.rules|
    requires forall a <- g.blocking[x] :: x !in g.blockedBy[a]
    ensures Inv(c, g, k, -1)
  {
    InvParts(c, g, k, x);
    InvFromParts(c, g, k, -1);
  }
}
