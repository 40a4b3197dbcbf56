/**
 * What the page-rank iteration guarantees, proved about the specification
 * functions of module PageRank (and so about the solver, whose result is
 * proved equal to PageRanks): the key set, mass conservation, the teleport
 * lower bound, when the solver stops, and the decay = 0 and one-page cases.
 */
module PageRankProperties {
  import opened Pages
  import opened Sums
  import opened PageRank

  // ---------------------------------------------------------------------------
  // The graph
  // ---------------------------------------------------------------------------

  /** A page none of whose links survives the filter stays in the graph, with no targets. */
  lemma DanglingPageKept(webpages: set<Page>, p: Page)
    requires UniqueUris(webpages) && p in webpages
    requires forall u :: u in p.links ==> u == p.uri || u !in Uris(webpages)
    ensures p.uri in WebGraph(webpages) && WebGraph(webpages)[p.uri] == {}
  {
  }

  /** A collection of one page gives a graph of one dangling page. */
  lemma SinglePageGraph(p: Page)
    ensures WebGraph({p}) == map[p.uri := {}]
  {
    DanglingPageKept({p}, p);
  }

  // ---------------------------------------------------------------------------
  // Key sets
  // ---------------------------------------------------------------------------

  /** One iteration ranks exactly the pages of the graph. */
  lemma StepKeys(g: Graph, rank: Ranks, decay: real)
    ensures Step(g, rank, decay).Keys == g.Keys
  {
  }

  /** The start distribution ranks exactly the given pages. */
  lemma UniformKeys(keys: set<Uri>)
    ensures Uniform(keys).Keys == keys
  {
  }

  /** Whatever the number of iterations, the ranks are those of the graph's pages. */
  lemma {:induction false} IterateKeys(g: Graph, decay: real, epsilon: real, rank: Ranks, fuel: nat)
    ensures Iterate(g, decay, epsilon, rank, fuel).Keys == g.Keys
    decreases fuel
  {
    var next := Step(g, rank, decay);
    StepKeys(g, rank, decay);
    if !(fuel <= 1 || Converged(g.Keys, rank, next, epsilon)) {
      IterateKeys(g, decay, epsilon, next, fuel - 1);
    }
  }

  /** With at least one iteration every page has a rank; with none, no page has. */
  lemma PageRanksKeys(g: Graph, decay: real, limit: int, epsilon: real)
    ensures PageRanks(g, decay, limit, epsilon).Keys == if 0 < limit then g.Keys else {}
  {
    if 0 < limit {
      IterateKeys(g, decay, epsilon, Uniform(g.Keys), limit);
    }
  }

  /** The analyzer can look up the rank of every page it was given, when limit >= 1. */
  lemma RankOfEveryPage(webpages: set<Page>, decay: real, limit: int, epsilon: real, p: Page)
    requires UniqueUris(webpages) && p in webpages && 0 < limit
    ensures p.uri in PageRanks(WebGraph(webpages), decay, limit, epsilon)
  {
    PageRanksKeys(WebGraph(webpages), decay, limit, epsilon);
  }

  // ---------------------------------------------------------------------------
  // Arithmetic helpers
  // ---------------------------------------------------------------------------

  lemma CancelCount(n: nat, x: real, part: real)
    requires 0 < n && part == x / (n as real)
    ensures (n as real) * part == x
  {
  }

  lemma QuotientNonneg(x: real, d: real, n: nat)
    requires 0.0 <= x && 0.0 <= d && 0 < n
    ensures x * d / (n as real) >= 0.0
  {
  }

  /** The share of p received by q, as a function of both. */
  function ShareFn(g: Graph, rank: Ranks, decay: real): (shares: (Uri, Uri) -> real)
  {
    (p, q) => Share(g, rank, decay, p, q)
  }

  // ---------------------------------------------------------------------------
  // Mass conservation
  // ---------------------------------------------------------------------------

  /** The uniform start sums to 1. */
  lemma UniformTotal(keys: set<Uri>)
    requires keys != {}
    ensures Total(Uniform(keys)) == 1.0
  {
    UniformKeys(keys);
    SumOverConst(keys, GetOrZero(Uniform(keys)), 1.0 / (|keys| as real));
    CancelCount(|keys|, 1.0, 1.0 / (|keys| as real));
  }

  /**
   * A page passes on exactly rank * decay in one iteration: a dangling page
   * 1/N of it to each of the N pages, a linked page 1/d of it to each of its
   * d targets.
   */
  lemma OutflowOfPage(g: Graph, rank: Ranks, decay: real, p: Uri)
    requires SelfContained(g) && p in g && p in rank
    ensures Outflow(g, rank, decay, p, g.Keys) == rank[p] * decay
  {
    var f := SharesFrom(g, rank, decay, p);
    if g[p] == {} {
      SumOverConst(g.Keys, f, rank[p] * decay / (|g.Keys| as real));
      CancelCount(|g.Keys|, rank[p] * decay, rank[p] * decay / (|g.Keys| as real));
    } else {
      SumOverIndicator(g.Keys, g[p], f, rank[p] * decay / (|g[p]| as real));
      CancelCount(|g[p]|, rank[p] * decay, rank[p] * decay / (|g[p]| as real));
    }
  }

  /** The scaled rank of a ranked page. */
  lemma ScaleAt(c: real, rank: Ranks, p: Uri)
    requires p in rank
    ensures Scale(c, GetOrZero(rank))(p) == rank[p] * c
  {
  }

  /** Scaling every rank scales the total. */
  lemma ScaledTotal(rank: Ranks, c: real)
    ensures SumOver(rank.Keys, Scale(c, GetOrZero(rank))) == c * Total(rank)
  {
    SumOverScale(rank.Keys, GetOrZero(rank), c);
  }

  /** Summed over the receivers, the shares of p come to decay times its rank. */
  lemma OutflowRow(g: Graph, rank: Ranks, decay: real, p: Uri)
    requires SelfContained(g) && p in g && p in rank
    ensures SumSecond(g.Keys, ShareFn(g, rank, decay))(p) == Scale(decay, GetOrZero(rank))(p)
  {
    var h := ShareFn(g, rank, decay);
    assert SumSecond(g.Keys, h)(p) == SumOver(g.Keys, FixFirst(h, p));
    SumOverExt(g.Keys, FixFirst(h, p), SharesFrom(g, rank, decay, p));
    OutflowOfPage(g, rank, decay, p);
    ScaleAt(decay, rank, p);
  }

  /** All that the pages receive from each other is all they had, scaled by decay. */
  lemma InflowTotal(g: Graph, rank: Ranks, decay: real)
    requires SelfContained(g) && rank.Keys == g.Keys
    ensures SumOver(g.Keys, SumFirst(g.Keys, ShareFn(g, rank, decay))) == SumOver(g.Keys, Scale(decay, GetOrZero(rank)))
  {
    var h := ShareFn(g, rank, decay);
    forall p | p in g.Keys
      ensures SumSecond(g.Keys, h)(p) == Scale(decay, GetOrZero(rank))(p)
    {
      OutflowRow(g, rank, decay, p);
    }
    SumOverExt(g.Keys, SumSecond(g.Keys, h), Scale(decay, GetOrZero(rank)));
    SumOverSwap(g.Keys, g.Keys, h);
  }

  /** The teleport terms of all N pages add up to 1 - decay. */
  lemma TeleportTotal(keys: set<Uri>, decay: real)
    requires keys != {}
    ensures SumOver(keys, Constant((1.0 - decay) / (|keys| as real))) == 1.0 - decay
  {
    var t := (1.0 - decay) / (|keys| as real);
    SumOverConst(keys, Constant(t), t);
    CancelCount(|keys|, 1.0 - decay, t);
  }

  /** The total of ranks made of inflow plus teleport term splits into the two totals. */
  lemma SplitParts(g: Graph, rank: Ranks, decay: real, next: Ranks)
    requires g.Keys != {} && next.Keys == g.Keys
    requires forall q {:trigger next[q]} :: q in next ==>
               next[q] == Inflow(g, rank, decay, g.Keys, q) + (1.0 - decay) / (|g.Keys| as real)
    ensures Total(next) == SumOver(g.Keys, SumFirst(g.Keys, ShareFn(g, rank, decay)))
                           + SumOver(g.Keys, Constant((1.0 - decay) / (|g.Keys| as real)))
  {
    var h := ShareFn(g, rank, decay);
    var t := (1.0 - decay) / (|g.Keys| as real);
    forall q | q in g.Keys
      ensures GetOrZero(next)(q) == SumFirst(g.Keys, h)(q) + Constant(t)(q)
    {
      InflowIsSum(g, rank, decay, g.Keys, q);
      SumOverExt(g.Keys, SharesTo(g, rank, decay, q), FixSecond(h, q));
    }
    SumOverAdd(g.Keys, GetOrZero(next), SumFirst(g.Keys, h), Constant(t));
  }

  /** Ranks made of every page's inflow plus the teleport term total decay * m + (1 - decay). */
  lemma MassOfParts(g: Graph, rank: Ranks, decay: real, next: Ranks)
    requires SelfContained(g) && g.Keys != {} && rank.Keys == g.Keys && next.Keys == g.Keys
    requires forall q {:trigger next[q]} :: q in next ==>
               next[q] == Inflow(g, rank, decay, g.Keys, q) + (1.0 - decay) / (|g.Keys| as real)
    ensures Total(next) == decay * Total(rank) + (1.0 - decay)
  {
    SplitParts(g, rank, decay, next);
    TeleportTotal(g.Keys, decay);
    InflowTotal(g, rank, decay);
    ScaledTotal(rank, decay);
  }

  /** One iteration maps a total mass m to decay * m + (1 - decay). */
  lemma StepMass(g: Graph, rank: Ranks, decay: real)
    requires SelfContained(g) && g.Keys != {} && rank.Keys == g.Keys
    ensures Total(Step(g, rank, decay)) == decay * Total(rank) + (1.0 - decay)
  {
    StepKeys(g, rank, decay);
    MassOfParts(g, rank, decay, Step(g, rank, decay));
  }

  /** Ranks of exactly the pages of g that sum to 1. */
  ghost function UnitMass(g: Graph): (unit: Ranks -> bool)
  {
    (r: Ranks) => r.Keys == g.Keys && Total(r) == 1.0
  }

  /** Ranks that sum to 1 still sum to 1 after any number of iterations. */
  lemma {:induction false} IterateMass(g: Graph, decay: real, epsilon: real, rank: Ranks, fuel: nat)
    requires SelfContained(g) && g.Keys != {} && rank.Keys == g.Keys && Total(rank) == 1.0
    ensures Total(Iterate(g, decay, epsilon, rank, fuel)) == 1.0
  {
    forall r: Ranks | UnitMass(g)(r)
      ensures UnitMass(g)(StepFn(g, decay)(r))
    {
      StepMass(g, r, decay);
      StepKeys(g, r, decay);
    }
    ScheduleKeeps(StepFn(g, decay), g.Keys, epsilon, rank, fuel, UnitMass(g));
    IterateIsSchedule(g, decay, epsilon, rank, fuel);
  }

  /** The ranks the solver returns sum to 1. */
  lemma PageRanksMass(g: Graph, decay: real, limit: int, epsilon: real)
    requires SelfContained(g) && g.Keys != {} && 0 < limit
    ensures Total(PageRanks(g, decay, limit, epsilon)) == 1.0
  {
    UniformTotal(g.Keys);
    UniformKeys(g.Keys);
    IterateMass(g, decay, epsilon, Uniform(g.Keys), limit);
  }

  // ---------------------------------------------------------------------------
  // The teleport lower bound
  // ---------------------------------------------------------------------------

  predicate Nonneg(rank: Ranks)
  {
    forall p :: p in rank ==> rank[p] >= 0.0
  }

  /** With non-negative ranks and decay, no page receives a negative inflow. */
  lemma InflowNonneg(g: Graph, rank: Ranks, decay: real, q: Uri)
    requires 0.0 <= decay && Nonneg(rank)
    ensures Inflow(g, rank, decay, g.Keys, q) >= 0.0
  {
    forall p | p in g.Keys
      ensures SharesTo(g, rank, decay, q)(p) >= 0.0
    {
      if p in rank {
        if g[p] == {} {
          QuotientNonneg(rank[p], decay, |g.Keys|);
        } else {
          QuotientNonneg(rank[p], decay, |g[p]|);
        }
      }
    }
    SumOverNonneg(g.Keys, SharesTo(g, rank, decay, q));
    InflowIsSum(g, rank, decay, g.Keys, q);
  }

  /** After one iteration every page has at least the teleport term (1 - decay)/N. */
  lemma StepLowerBound(g: Graph, rank: Ranks, decay: real)
    requires 0.0 <= decay && Nonneg(rank)
    ensures forall q :: q in Step(g, rank, decay) ==>
              Step(g, rank, decay)[q] >= (1.0 - decay) / (|g.Keys| as real)
  {
    forall q | q in Step(g, rank, decay)
      ensures Step(g, rank, decay)[q] >= (1.0 - decay) / (|g.Keys| as real)
    {
      InflowNonneg(g, rank, decay, q);
    }
  }

  /** With 0 <= decay <= 1, the bound holds after every number of iterations. */
  lemma {:induction false} IterateLowerBound(g: Graph, decay: real, epsilon: real, rank: Ranks, fuel: nat)
    requires 0.0 <= decay <= 1.0 && Nonneg(rank)
    ensures forall q :: q in Iterate(g, decay, epsilon, rank, fuel) ==>
              Iterate(g, decay, epsilon, rank, fuel)[q] >= (1.0 - decay) / (|g.Keys| as real)
    decreases fuel
  {
    var next := Step(g, rank, decay);
    StepLowerBound(g, rank, decay);
    if !(fuel <= 1 || Converged(g.Keys, rank, next, epsilon)) {
      if g.Keys != {} {
        QuotientNonneg(1.0 - decay, 1.0, |g.Keys|);
      }
      IterateLowerBound(g, decay, epsilon, next, fuel - 1);
    }
  }

  /** Every rank the solver returns is at least (1 - decay)/N. */
  lemma PageRanksLowerBound(g: Graph, decay: real, limit: int, epsilon: real)
    requires 0.0 <= decay <= 1.0
    ensures forall q :: q in PageRanks(g, decay, limit, epsilon) ==>
              PageRanks(g, decay, limit, epsilon)[q] >= (1.0 - decay) / (|g.Keys| as real)
  {
    if 0 < limit {
      IterateLowerBound(g, decay, epsilon, Uniform(g.Keys), limit);
    }
  }

  // ---------------------------------------------------------------------------
  // When the solver stops
  // ---------------------------------------------------------------------------

  /** One iteration of the graph, as a function of the ranks. */
  ghost function StepFn(g: Graph, decay: real): (stepFn: Ranks -> Ranks)
  {
    r => Step(g, r, decay)
  }

  /** The ranks after exactly n applications of `step`, without any convergence test. */
  ghost function Run(step: Ranks -> Ranks, rank: Ranks, n: nat): (after: Ranks)
    decreases n
  {
    if n == 0 then rank else step(Run(step, rank, n - 1))
  }

  /** The solver's schedule for an arbitrary step: stop at the first converged iteration or after `fuel`. */
  ghost function Schedule(step: Ranks -> Ranks, keys: set<Uri>, epsilon: real, rank: Ranks, fuel: nat): (result: Ranks)
    decreases fuel
  {
    var next := step(rank);
    if fuel <= 1 || Converged(keys, rank, next, epsilon) then next
    else Schedule(step, keys, epsilon, next, fuel - 1)
  }

  /** A property of the ranks that every step keeps holds of what the schedule returns. */
  lemma {:induction false} ScheduleKeeps(step: Ranks -> Ranks, keys: set<Uri>, epsilon: real, rank: Ranks, fuel: nat, inv: Ranks -> bool)
    requires inv(rank)
    requires forall r {:trigger step(r)} :: inv(r) ==> inv(step(r))
    ensures inv(Schedule(step, keys, epsilon, rank, fuel))
    decreases fuel
  {
    var next := step(rank);
    if !(fuel <= 1 || Converged(keys, rank, next, epsilon)) {
      ScheduleKeeps(step, keys, epsilon, next, fuel - 1, inv);
    }
  }

  /** Iteration j converged: no rank moved by epsilon or more from iteration j - 1. */
  ghost predicate ConvergedAt(step: Ranks -> Ranks, keys: set<Uri>, epsilon: real, rank: Ranks, j: nat)
    requires 1 <= j
  {
    Converged(keys, Run(step, rank, j - 1), Run(step, rank, j), epsilon)
  }

  /** The solver's iteration is the schedule of its step. */
  lemma {:induction false} IterateIsSchedule(g: Graph, decay: real, epsilon: real, rank: Ranks, fuel: nat)
    ensures Iterate(g, decay, epsilon, rank, fuel) == Schedule(StepFn(g, decay), g.Keys, epsilon, rank, fuel)
    decreases fuel
  {
    var next := Step(g, rank, decay);
    assert StepFn(g, decay)(rank) == next;
    if !(fuel <= 1 || Converged(g.Keys, rank, next, epsilon)) {
      IterateIsSchedule(g, decay, epsilon, next, fuel - 1);
    }
  }

  /** Running n steps after a first one is running n + 1. */
  lemma {:induction false} RunShift(step: Ranks -> Ranks, rank: Ranks, n: nat)
    ensures Run(step, step(rank), n) == Run(step, rank, n + 1)
    decreases n
  {
    if n > 0 {
      RunShift(step, rank, n - 1);
    }
  }

  /** Convergence at iteration j + 1 from `rank` is convergence at iteration j from the next ranks. */
  lemma ConvergedAtShift(step: Ranks -> Ranks, keys: set<Uri>, epsilon: real, rank: Ranks, j: nat)
    requires 1 <= j
    ensures ConvergedAt(step, keys, epsilon, step(rank), j) == ConvergedAt(step, keys, epsilon, rank, j + 1)
  {
    RunShift(step, rank, j - 1);
    RunShift(step, rank, j);
  }

  /** The schedule returns the ranks of the first converged iteration, if one of the first `fuel` is. */
  lemma {:induction false} ScheduleStopsAtFirstConvergence(step: Ranks -> Ranks, keys: set<Uri>, epsilon: real, rank: Ranks, fuel: nat, k: nat)
    requires 1 <= k <= fuel
    requires ConvergedAt(step, keys, epsilon, rank, k)
    requires forall j :: 1 <= j < k ==> !ConvergedAt(step, keys, epsilon, rank, j)
    ensures Schedule(step, keys, epsilon, rank, fuel) == Run(step, rank, k)
    decreases fuel
  {
    var next := step(rank);
    assert Run(step, rank, 1) == next;
    if k > 1 {
      assert !ConvergedAt(step, keys, epsilon, rank, 1);
      forall j | 1 <= j < k - 1
        ensures !ConvergedAt(step, keys, epsilon, next, j)
      {
        ConvergedAtShift(step, keys, epsilon, rank, j);
      }
      ConvergedAtShift(step, keys, epsilon, rank, k - 1);
      RunShift(step, rank, k - 1);
      ScheduleStopsAtFirstConvergence(step, keys, epsilon, next, fuel - 1, k - 1);
    }
  }

  /** If none of the first fuel - 1 iterations converged, the schedule returns iteration `fuel`. */
  lemma {:induction false} ScheduleRunsOut(step: Ranks -> Ranks, keys: set<Uri>, epsilon: real, rank: Ranks, fuel: nat)
    requires 1 <= fuel
    requires forall j :: 1 <= j < fuel ==> !ConvergedAt(step, keys, epsilon, rank, j)
    ensures Schedule(step, keys, epsilon, rank, fuel) == Run(step, rank, fuel)
    decreases fuel
  {
    var next := step(rank);
    assert Run(step, rank, 1) == next;
    if fuel > 1 {
      assert !ConvergedAt(step, keys, epsilon, rank, 1);
      forall j | 1 <= j < fuel - 1
        ensures !ConvergedAt(step, keys, epsilon, next, j)
      {
        ConvergedAtShift(step, keys, epsilon, rank, j);
      }
      RunShift(step, rank, fuel - 1);
      ScheduleRunsOut(step, keys, epsilon, next, fuel - 1);
    }
  }

  /** The schedule runs at least one and at most `fuel` iterations. */
  lemma {:induction false} ScheduleAtMost(step: Ranks -> Ranks, keys: set<Uri>, epsilon: real, rank: Ranks, fuel: nat)
    requires 1 <= fuel
    ensures exists k :: 1 <= k <= fuel && Schedule(step, keys, epsilon, rank, fuel) == Run(step, rank, k)
    decreases fuel
  {
    var next := step(rank);
    assert Run(step, rank, 1) == next;
    if !(fuel <= 1 || Converged(keys, rank, next, epsilon)) {
      ScheduleAtMost(step, keys, epsilon, next, fuel - 1);
      var k :| 1 <= k <= fuel - 1 && Schedule(step, keys, epsilon, next, fuel - 1) == Run(step, next, k);
      RunShift(step, rank, k);
    }
  }

  /** The solver returns the ranks of the first iteration that converged, if one of the first `fuel` did. */
  lemma IterateStopsAtFirstConvergence(g: Graph, decay: real, epsilon: real, rank: Ranks, fuel: nat, k: nat)
    requires 1 <= k <= fuel
    requires ConvergedAt(StepFn(g, decay), g.Keys, epsilon, rank, k)
    requires forall j :: 1 <= j < k ==> !ConvergedAt(StepFn(g, decay), g.Keys, epsilon, rank, j)
    ensures Iterate(g, decay, epsilon, rank, fuel) == Run(StepFn(g, decay), rank, k)
  {
    IterateIsSchedule(g, decay, epsilon, rank, fuel);
    ScheduleStopsAtFirstConvergence(StepFn(g, decay), g.Keys, epsilon, rank, fuel, k);
  }

  /** If none of the first fuel - 1 iterations converged, the solver returns the ranks of iteration `fuel`. */
  lemma IterateRunsOut(g: Graph, decay: real, epsilon: real, rank: Ranks, fuel: nat)
    requires 1 <= fuel
    requires forall j :: 1 <= j < fuel ==> !ConvergedAt(StepFn(g, decay), g.Keys, epsilon, rank, j)
    ensures Iterate(g, decay, epsilon, rank, fuel) == Run(StepFn(g, decay), rank, fuel)
  {
    IterateIsSchedule(g, decay, epsilon, rank, fuel);
    ScheduleRunsOut(StepFn(g, decay), g.Keys, epsilon, rank, fuel);
  }

  /** The solver never runs more than `fuel` iterations, and runs at least one. */
  lemma IterateAtMost(g: Graph, decay: real, epsilon: real, rank: Ranks, fuel: nat)
    requires 1 <= fuel
    ensures exists k :: 1 <= k <= fuel && Iterate(g, decay, epsilon, rank, fuel) == Run(StepFn(g, decay), rank, k)
  {
    IterateIsSchedule(g, decay, epsilon, rank, fuel);
    ScheduleAtMost(StepFn(g, decay), g.Keys, epsilon, rank, fuel);
  }

  /** Some converged iteration among the first k is the first converged one. */
  lemma {:induction false} FirstConvergence(step: Ranks -> Ranks, keys: set<Uri>, epsilon: real, rank: Ranks, k: nat)
    returns (first: nat)
    requires 1 <= k && ConvergedAt(step, keys, epsilon, rank, k)
    ensures 1 <= first <= k && ConvergedAt(step, keys, epsilon, rank, first)
    ensures forall j :: 1 <= j < first ==> !ConvergedAt(step, keys, epsilon, rank, j)
    decreases k
  {
    if j :| 1 <= j < k && ConvergedAt(step, keys, epsilon, rank, j) {
      first := FirstConvergence(step, keys, epsilon, rank, j);
    } else {
      first := k;
    }
  }

  /**
   * Once a run with limit `limit` converges before running out, a larger limit
   * returns the same ranks.
   */
  lemma PageRanksLargerLimit(g: Graph, decay: real, epsilon: real, limit: nat, extra: nat)
    requires exists k :: 1 <= k <= limit && ConvergedAt(StepFn(g, decay), g.Keys, epsilon, Uniform(g.Keys), k)
    ensures PageRanks(g, decay, limit + extra, epsilon) == PageRanks(g, decay, limit, epsilon)
  {
    var k :| 1 <= k <= limit && ConvergedAt(StepFn(g, decay), g.Keys, epsilon, Uniform(g.Keys), k);
    var first := FirstConvergence(StepFn(g, decay), g.Keys, epsilon, Uniform(g.Keys), k);
    IterateStopsAtFirstConvergence(g, decay, epsilon, Uniform(g.Keys), limit, first);
    IterateStopsAtFirstConvergence(g, decay, epsilon, Uniform(g.Keys), limit + extra, first);
  }

  /** A rank that moved by exactly epsilon keeps the solver going when it has iterations left. */
  lemma ExactEpsilonKeepsGoing(g: Graph, decay: real, epsilon: real, rank: Ranks, fuel: nat, q: Uri)
    requires 1 < fuel && q in g && q in rank
    requires Abs(Step(g, rank, decay)[q] - rank[q]) == epsilon
    ensures Iterate(g, decay, epsilon, rank, fuel) == Iterate(g, decay, epsilon, Step(g, rank, decay), fuel - 1)
  {
    assert !Close(rank, Step(g, rank, decay), epsilon, q);
  }

  // ---------------------------------------------------------------------------
  // Special cases
  // ---------------------------------------------------------------------------

  /** With decay = 0 one iteration gives every page 1/N, whatever the ranks were. */
  lemma ZeroDecayStep(g: Graph, rank: Ranks)
    ensures Step(g, rank, 0.0) == Uniform(g.Keys)
  {
    forall q | q in g
      ensures Inflow(g, rank, 0.0, g.Keys, q) == 0.0
    {
      SumOverConst(g.Keys, SharesTo(g, rank, 0.0, q), 0.0);
      InflowIsSum(g, rank, 0.0, g.Keys, q);
    }
  }

  /** With decay = 0 the solver returns 1/N for every page. */
  lemma {:induction false} ZeroDecayIterate(g: Graph, epsilon: real, fuel: nat)
    ensures Iterate(g, 0.0, epsilon, Uniform(g.Keys), fuel) == Uniform(g.Keys)
    decreases fuel
  {
    ZeroDecayStep(g, Uniform(g.Keys));
    if fuel > 1 {
      ZeroDecayIterate(g, epsilon, fuel - 1);
    }
  }

  /** With decay = 0 and epsilon > 0 the first iteration already converges. */
  lemma ZeroDecayConvergesFirst(g: Graph, epsilon: real)
    requires 0.0 < epsilon
    ensures ConvergedAt(StepFn(g, 0.0), g.Keys, epsilon, Uniform(g.Keys), 1)
  {
    var u := Uniform(g.Keys);
    ZeroDecayStep(g, u);
    assert Run(StepFn(g, 0.0), u, 1) == u;
    forall q | q in g.Keys
      ensures Close(u, u, epsilon, q)
    {
    }
  }

  /** With decay = 0 and limit >= 1 every page gets 1/N. */
  lemma ZeroDecayPageRanks(g: Graph, limit: int, epsilon: real)
    requires 0 < limit
    ensures PageRanks(g, 0.0, limit, epsilon) == Uniform(g.Keys)
  {
    ZeroDecayIterate(g, epsilon, limit);
  }

  /** A single dangling page keeps rank 1 through an iteration, whatever the decay. */
  lemma SinglePageStep(u: Uri, decay: real)
    ensures Step(map[u := {}], map[u := 1.0], decay) == map[u := 1.0]
  {
    var g: Graph := map[u := {}];
    var r: Ranks := map[u := 1.0];
    assert g.Keys == {u};
    assert Share(g, r, decay, u, u) == decay;
    assert Pick({u}) == u;
    assert {u} - {u} == {};
    assert Inflow(g, r, decay, g.Keys, u) == decay;
    assert Step(g, r, decay)[u] == 1.0;
  }

  lemma {:induction false} SinglePageIterate(u: Uri, decay: real, epsilon: real, fuel: nat)
    ensures Iterate(map[u := {}], decay, epsilon, map[u := 1.0], fuel) == map[u := 1.0]
    decreases fuel
  {
    SinglePageStep(u, decay);
    if fuel > 1 {
      SinglePageIterate(u, decay, epsilon, fuel - 1);
    }
  }

  /** A graph of one dangling page gives it rank 1, when limit >= 1. */
  lemma SinglePageRanks(u: Uri, decay: real, limit: int, epsilon: real)
    requires 0 < limit
    ensures PageRanks(map[u := {}], decay, limit, epsilon) == map[u := 1.0]
  {
    var g: Graph := map[u := {}];
    assert g.Keys == {u};
    assert Uniform(g.Keys) == map[u := 1.0];
    SinglePageIterate(u, decay, epsilon, limit);
  }

  /** A collection of one page gives that page rank 1, when limit >= 1. */
  lemma SinglePageRank(p: Page, decay: real, limit: int, epsilon: real)
    requires 0 < limit
    ensures PageRanks(WebGraph({p}), decay, limit, epsilon) == map[p.uri := 1.0]
  {
    SinglePageGraph(p);
    SinglePageRanks(p.uri, decay, limit, epsilon);
  }
}
