/**
 * The page-rank analyzer: it turns the page collection into a self-contained
 * link graph, then runs the damped random-surfer iteration on that graph with
 * two rank buffers until no rank moves by epsilon or more, or until the
 * iteration limit is reached. Ranks are reals; the lookup returns the stored
 * rank of one page.
 */
module PageRank {
  import opened Pages
  import opened Sums

  /** Each page's URI mapped to the set of page URIs it links to. */
  type Graph = map<Uri, set<Uri>>

  type Ranks = map<Uri, real>

  predicate NoSelfLoops(g: Graph)
  {
    forall p :: p in g ==> p !in g[p]
  }

  /** Every link target is itself a page of the graph. */
  predicate SelfContained(g: Graph)
  {
    forall p :: p in g ==> g[p] <= g.Keys
  }

  // ---------------------------------------------------------------------------
  // Graph building
  // ---------------------------------------------------------------------------

  /**
   * The link targets kept for the page `name` whose link list is `links`:
   * a link to the page itself or to a URI outside `uris` is dropped, and a
   * repeated link is kept once.
   */
  function Targets(name: Uri, links: seq<Uri>, uris: set<Uri>): (targets: set<Uri>)
  {
    set u | u in links && u != name && u in uris
  }

  /** The graph of a page collection: one key per page, dangling pages included. */
  function WebGraph(webpages: set<Page>): (g: Graph)
    requires UniqueUris(webpages)
    ensures g.Keys == Uris(webpages)
    ensures NoSelfLoops(g) && SelfContained(g)
    ensures forall p, u :: p in webpages ==>
              (u in g[p.uri] <==> u in p.links && u != p.uri && u in Uris(webpages))
  {
    map p | p in webpages :: p.uri := Targets(p.uri, p.links, Uris(webpages))
  }

  /** Scans the link list of page `name`, adding each link target that passes the filter. */
  method FilterLinks(name: Uri, list: seq<Uri>, uris: set<Uri>) returns (links: set<Uri>)
    ensures links == Targets(name, list, uris)
  {
    links := {};
    var i := 0;
    while i < |list|
      invariant 0 <= i <= |list|
      invariant links == Targets(name, list[..i], uris)
    {
      var otherName := list[i];
      if otherName != name && otherName !in links && otherName in uris {
        links := links + {otherName};
      }
      assert list[..i + 1] == list[..i] + [otherName];
      i := i + 1;
    }
    assert list[..i] == list;
  }

  /** Collects the URIs of the collection, then the filtered link set of every page. */
  method MakeGraph(webpages: set<Page>) returns (dict: Graph)
    requires UniqueUris(webpages)
    ensures dict == WebGraph(webpages)
  {
    var uris: set<Uri> := {};
    var rest := webpages;
    while rest != {}
      invariant rest <= webpages
      invariant uris == Uris(webpages - rest)
    {
      var page :| page in rest;
      assert webpages - (rest - {page}) == (webpages - rest) + {page};
      uris := uris + {page.uri};
      rest := rest - {page};
    }
    assert webpages - rest == webpages;
    dict := map[];
    rest := webpages;
    while rest != {}
      invariant rest <= webpages
      invariant dict.Keys == Uris(webpages - rest)
      invariant forall p :: p in webpages - rest ==> dict[p.uri] == Targets(p.uri, p.links, uris)
    {
      var page :| page in rest;
      assert webpages - (rest - {page}) == (webpages - rest) + {page};
      var links := FilterLinks(page.uri, page.links, uris);
      dict := dict[page.uri := links];
      rest := rest - {page};
    }
    assert webpages - rest == webpages;
    forall u | u in dict
      ensures dict[u] == WebGraph(webpages)[u]
    {
      var p :| p in webpages && p.uri == u;
    }
  }

  // ---------------------------------------------------------------------------
  // Rank solving: the specification
  // ---------------------------------------------------------------------------

  /** The start distribution: 1/N for each of the N pages. */
  function Uniform(keys: set<Uri>): (start: Ranks)
  {
    map k | k in keys :: 1.0 / (|keys| as real)
  }

  /**
   * The rank that page p passes to page q in one iteration: a dangling page
   * spreads rank * decay over all N pages, a linked page over its targets only.
   */
  function Share(g: Graph, rank: Ranks, decay: real, p: Uri, q: Uri): (share: real)
  {
    if p !in g || p !in rank then 0.0
    else if g[p] == {} then rank[p] * decay / (|g.Keys| as real)
    else if q in g[p] then rank[p] * decay / (|g[p]| as real)
    else 0.0
  }

  /** The shares received by q, as a function of the sender. */
  function SharesTo(g: Graph, rank: Ranks, decay: real, q: Uri): (received: Uri -> real)
  {
    p => Share(g, rank, decay, p, q)
  }

  /** The shares sent by p, as a function of the receiver. */
  function SharesFrom(g: Graph, rank: Ranks, decay: real, p: Uri): (sent: Uri -> real)
  {
    q => Share(g, rank, decay, p, q)
  }

  /**
   * What q receives from the pages in `sources`. This is `SumOver(sources, SharesTo(...))` written as
   * its own recursion with the same picks (`InflowIsSum`), so that `Step` does not hold a lambda per page.
   */
  ghost function Inflow(g: Graph, rank: Ranks, decay: real, sources: set<Uri>, q: Uri): (inflow: real)
    decreases sources
  {
    if sources == {} then 0.0
    else var p := Pick(sources); Share(g, rank, decay, p, q) + Inflow(g, rank, decay, sources - {p}, q)
  }

  /** What p sends to the pages in `receivers`. */
  ghost function Outflow(g: Graph, rank: Ranks, decay: real, p: Uri, receivers: set<Uri>): (outflow: real)
  {
    SumOver(receivers, SharesFrom(g, rank, decay, p))
  }

  /** One iteration: every page's inflow from all pages plus the teleport term (1 - decay)/N. */
  ghost function Step(g: Graph, rank: Ranks, decay: real): (next: Ranks)
  {
    map q | q in g :: Inflow(g, rank, decay, g.Keys, q) + (1.0 - decay) / (|g.Keys| as real)
  }

  function Abs(x: real): (magnitude: real)
  {
    if x < 0.0 then -x else x
  }

  /** The rank of page q moved by strictly less than epsilon. */
  predicate Close(rank: Ranks, next: Ranks, epsilon: real, q: Uri)
  {
    q in rank && q in next && Abs(next[q] - rank[q]) < epsilon
  }

  /** Every page's rank moved by strictly less than epsilon. */
  predicate Converged(keys: set<Uri>, rank: Ranks, next: Ranks, epsilon: real)
  {
    forall q {:trigger Close(rank, next, epsilon, q)} :: q in keys ==> Close(rank, next, epsilon, q)
  }

  /**
   * At most `fuel` iterations from `rank`: the first iteration whose result
   * has converged, or else the last one, is the answer.
   */
  ghost function Iterate(g: Graph, decay: real, epsilon: real, rank: Ranks, fuel: nat): (result: Ranks)
    decreases fuel
  {
    var next := Step(g, rank, decay);
    if fuel <= 1 || Converged(g.Keys, rank, next, epsilon) then next
    else Iterate(g, decay, epsilon, next, fuel - 1)
  }

  /** The ranks the solver returns: none at all when the limit allows no iteration. */
  ghost function PageRanks(g: Graph, decay: real, limit: int, epsilon: real): (ranks: Ranks)
  {
    if limit <= 0 then map[] else Iterate(g, decay, epsilon, Uniform(g.Keys), limit)
  }

  /** The inflow is the sum of the shares received from the senders. */
  lemma {:induction false} InflowIsSum(g: Graph, rank: Ranks, decay: real, sources: set<Uri>, q: Uri)
    ensures Inflow(g, rank, decay, sources, q) == SumOver(sources, SharesTo(g, rank, decay, q))
    decreases sources
  {
    if sources != {} {
      InflowIsSum(g, rank, decay, sources - {Pick(sources)}, q);
    }
  }

  /** Adding one more sender to the inflow adds its share. */
  lemma InflowAddSource(g: Graph, rank: Ranks, decay: real, sources: set<Uri>, p: Uri, q: Uri)
    requires p !in sources
    ensures Inflow(g, rank, decay, sources + {p}, q) == Inflow(g, rank, decay, sources, q) + Share(g, rank, decay, p, q)
  {
    InflowIsSum(g, rank, decay, sources + {p}, q);
    InflowIsSum(g, rank, decay, sources, q);
    SumOverRemove(sources + {p}, SharesTo(g, rank, decay, q), p);
    assert sources + {p} - {p} == sources;
  }

  /** The scatter loop's invariant survives one more sender. */
  lemma InflowStep(g: Graph, rank: Ranks, decay: real, newRank: Ranks, r0: Ranks, r: Ranks, done: set<Uri>, p: Uri)
    requires p !in done && r.Keys == r0.Keys == newRank.Keys
    requires forall q {:trigger r0[q]} :: q in r0 ==> r0[q] == newRank[q] + (if q in g then Inflow(g, rank, decay, done, q) else 0.0)
    requires forall q {:trigger r[q]} :: q in r ==> r[q] == r0[q] + (if q in g then Share(g, rank, decay, p, q) else 0.0)
    ensures forall q {:trigger r[q]} :: q in r ==> r[q] == newRank[q] + (if q in g then Inflow(g, rank, decay, done + {p}, q) else 0.0)
  {
    forall q | q in r && q in g
      ensures r[q] == newRank[q] + Inflow(g, rank, decay, done + {p}, q)
    {
      InflowAddSource(g, rank, decay, done, p, q);
    }
  }

  /** A map that agrees with the step on every page of the graph is the step. */
  lemma StepExt(g: Graph, rank: Ranks, decay: real, next: Ranks)
    requires next.Keys == g.Keys
    requires forall q {:trigger next[q]} :: q in next ==>
               next[q] == Inflow(g, rank, decay, g.Keys, q) + (1.0 - decay) / (|g.Keys| as real)
    ensures next == Step(g, rank, decay)
  {
  }

  /** The solver starts from the uniform ranks. */
  lemma PageRanksStart(g: Graph, decay: real, limit: int, epsilon: real)
    ensures 0 < limit ==> PageRanks(g, decay, limit, epsilon) == Iterate(g, decay, epsilon, Uniform(g.Keys), limit)
    ensures limit <= 0 ==> PageRanks(g, decay, limit, epsilon) == map[]
  {
  }

  // ---------------------------------------------------------------------------
  // Rank solving: the solver and its loops
  // ---------------------------------------------------------------------------

  /** Puts 1/N for every page of the graph. */
  method InitialRanks(graph: Graph) returns (rank: Ranks)
    ensures rank == Uniform(graph.Keys)
  {
    var size := |graph.Keys|;
    rank := map[];
    var rest := graph.Keys;
    while rest != {}
      invariant rest <= graph.Keys
      invariant rank.Keys == graph.Keys - rest
      invariant forall k :: k in rank ==> rank[k] == 1.0 / (size as real)
    {
      var name :| name in rest;
      rank := rank[name := 1.0 / (size as real)];
      rest := rest - {name};
    }
  }

  /** Copies the rank of every page of the graph from `newRank` into `rank`. */
  method CopyRanks(graph: Graph, rank: Ranks, newRank: Ranks) returns (r: Ranks)
    requires rank.Keys == graph.Keys == newRank.Keys
    ensures r == newRank
  {
    r := rank;
    var rest := graph.Keys;
    while rest != {}
      invariant rest <= graph.Keys
      invariant r.Keys == graph.Keys
      invariant forall k :: k in r ==> r[k] == if k !in rest then newRank[k] else rank[k]
    {
      var name :| name in rest;
      r := r[name := newRank[name]];
      rest := rest - {name};
    }
  }

  /** Puts 0.0 for every page of the graph. */
  method ResetRanks(graph: Graph, newRank: Ranks) returns (r: Ranks)
    requires newRank.Keys <= graph.Keys
    ensures r == map k | k in graph :: 0.0
  {
    r := newRank;
    var rest := graph.Keys;
    while rest != {}
      invariant rest <= graph.Keys
      invariant r.Keys == newRank.Keys + (graph.Keys - rest)
      invariant forall k :: k in r ==> r[k] == if k in graph && k !in rest then 0.0 else newRank[k]
    {
      var name :| name in rest;
      r := r[name := 0.0];
      rest := rest - {name};
    }
  }

  /** Adds `share` to the accumulated rank of every target. */
  method SpreadShare(targets: set<Uri>, share: real, acc: Ranks) returns (r: Ranks)
    requires targets <= acc.Keys
    ensures r.Keys == acc.Keys
    ensures forall k :: k in r ==> r[k] == acc[k] + (if k in targets then share else 0.0)
  {
    r := acc;
    var rest := targets;
    while rest != {}
      invariant rest <= targets
      invariant r.Keys == acc.Keys
      invariant forall k :: k in r ==> r[k] == acc[k] + (if k in targets && k !in rest then share else 0.0)
    {
      var eachName :| eachName in rest;
      r := r[eachName := r[eachName] + share];
      rest := rest - {eachName};
    }
  }

  /** Page `name` passes rank * decay on: to all pages if it is dangling, else to its link targets. */
  method ScatterPage(graph: Graph, rank: Ranks, decay: real, name: Uri, acc: Ranks) returns (r: Ranks)
    requires SelfContained(graph)
    requires name in graph && name in rank && graph.Keys <= acc.Keys
    ensures r.Keys == acc.Keys
    ensures forall q :: q in r ==> r[q] == acc[q] + (if q in graph then Share(graph, rank, decay, name, q) else 0.0)
  {
    var size := |graph.Keys|;
    var uris := graph.Keys;
    var links := graph[name];
    var numberOfLinks := |links|;
    if numberOfLinks == 0 {
      r := SpreadShare(uris, rank[name] * decay / (size as real), acc);
    } else {
      r := SpreadShare(links, rank[name] * decay / (numberOfLinks as real), acc);
    }
  }

  /** Every page passes rank * decay on: to all pages if dangling, else to its link targets. */
  method Scatter(graph: Graph, rank: Ranks, decay: real, newRank: Ranks) returns (r: Ranks)
    requires SelfContained(graph)
    requires graph.Keys <= rank.Keys && graph.Keys <= newRank.Keys
    ensures r.Keys == newRank.Keys
    ensures forall q {:trigger r[q]} :: q in r ==>
              r[q] == newRank[q] + (if q in graph then Inflow(graph, rank, decay, graph.Keys, q) else 0.0)
  {
    r := newRank;
    var rest := graph.Keys;
    while rest != {}
      invariant rest <= graph.Keys
      invariant r.Keys == newRank.Keys
      invariant forall q {:trigger r[q]} :: q in r ==>
                  r[q] == newRank[q] + (if q in graph then Inflow(graph, rank, decay, graph.Keys - rest, q) else 0.0)
    {
      var name :| name in rest;
      ghost var r0 := r;
      r := ScatterPage(graph, rank, decay, name, r);
      TakeOne(graph.Keys, rest, name);
      InflowStep(graph, rank, decay, newRank, r0, r, graph.Keys - rest, name);
      rest := rest - {name};
    }
    assert graph.Keys - rest == graph.Keys;
  }

  /** Adds the teleport term (1 - decay)/N to every page of the graph. */
  method AddTeleport(graph: Graph, decay: real, newRank: Ranks) returns (r: Ranks)
    requires graph.Keys <= newRank.Keys
    ensures r.Keys == newRank.Keys
    ensures forall k {:trigger r[k]} :: k in r ==>
              r[k] == newRank[k] + (if k in graph then (1.0 - decay) / (|graph.Keys| as real) else 0.0)
  {
    var size := |graph.Keys|;
    r := newRank;
    var rest := graph.Keys;
    while rest != {}
      invariant rest <= graph.Keys
      invariant r.Keys == newRank.Keys
      invariant forall k :: k in r ==>
                  r[k] == newRank[k] + (if k in graph && k !in rest then (1.0 - decay) / (size as real) else 0.0)
    {
      var name :| name in rest;
      r := r[name := r[name] + (1.0 - decay) / (size as real)];
      rest := rest - {name};
    }
  }

  /** Clears the flag when some page's rank moved by epsilon or more. */
  method CheckConverged(graph: Graph, rank: Ranks, newRank: Ranks, epsilon: real) returns (converged: bool)
    requires graph.Keys <= rank.Keys && graph.Keys <= newRank.Keys
    ensures converged == Converged(graph.Keys, rank, newRank, epsilon)
  {
    converged := true;
    var rest := graph.Keys;
    while rest != {}
      invariant rest <= graph.Keys
      invariant converged == forall q :: q in graph && q !in rest ==> Close(rank, newRank, epsilon, q)
    {
      var name :| name in rest;
      if Abs(newRank[name] - rank[name]) >= epsilon {
        converged := false;
      }
      rest := rest - {name};
    }
  }

  /** One iteration: the next ranks, computed into the buffer `newRank`. */
  method UpdateRanks(graph: Graph, rank: Ranks, decay: real, newRank: Ranks) returns (next: Ranks)
    requires SelfContained(graph)
    requires rank.Keys == graph.Keys && newRank.Keys <= graph.Keys
    ensures next == Step(graph, rank, decay)
  {
    var zeroed := ResetRanks(graph, newRank);
    var scattered := Scatter(graph, rank, decay, zeroed);
    next := AddTeleport(graph, decay, scattered);
    StepExt(graph, rank, decay, next);
  }

  /**
   * One pass of the solver's loop: from the second pass on, the ranks are first
   * copied from the buffer; then the buffer receives the next ranks, and the
   * flag says whether they have converged.
   */
  method Iteration(graph: Graph, decay: real, epsilon: real, i: int, rank: Ranks, newRank: Ranks)
    returns (rank': Ranks, newRank': Ranks, converged: bool)
    requires SelfContained(graph)
    requires rank.Keys == graph.Keys
    requires i == 0 ==> newRank == map[]
    requires i != 0 ==> newRank.Keys == graph.Keys
    ensures rank' == if i == 0 then rank else newRank
    ensures newRank' == Step(graph, rank', decay)
    ensures converged == Converged(graph.Keys, rank', newRank', epsilon)
  {
    rank' := rank;
    if i != 0 {
      rank' := CopyRanks(graph, rank, newRank);
    }
    newRank' := UpdateRanks(graph, rank', decay, newRank);
    converged := CheckConverged(graph, rank', newRank', epsilon);
  }

  /**
   * The solver: at most `limit` iterations with the buffers `rank` and
   * `newRank`, returning `newRank` as soon as it has converged.
   */
  method MakePageRanks(graph: Graph, decay: real, limit: int, epsilon: real) returns (newRank: Ranks)
    requires SelfContained(graph)
    ensures newRank == PageRanks(graph, decay, limit, epsilon)
  {
    ghost var answer := PageRanks(graph, decay, limit, epsilon);
    var rank := InitialRanks(graph);
    newRank := map[];
    ghost var current := rank;
    PageRanksStart(graph, decay, limit, epsilon);
    var i := 0;
    while i < limit
      invariant i == 0 || 0 < i <= limit
      invariant rank.Keys == graph.Keys
      invariant i == 0 ==> newRank == map[] && current == rank
      invariant 0 < i ==> current == newRank && newRank.Keys == graph.Keys
      invariant i < limit ==> answer == Iterate(graph, decay, epsilon, current, limit - i)
      invariant 0 < i == limit ==> newRank == answer
    {
      var converged;
      rank, newRank, converged := Iteration(graph, decay, epsilon, i, rank, newRank);
      if converged {
        return;
      }
      i := i + 1;
      current := newRank;
    }
  }

  // ---------------------------------------------------------------------------
  // The analyzer
  // ---------------------------------------------------------------------------

  class PageRankAnalyzer {
    const pageRanks: Ranks

    /** Builds the graph, solves for the ranks and keeps only the ranks. */
    constructor (webpages: set<Page>, decay: real, epsilon: real, limit: int)
      requires UniqueUris(webpages)
      ensures pageRanks == PageRanks(WebGraph(webpages), decay, limit, epsilon)
    {
      var graph := MakeGraph(webpages);
      var ranks := MakePageRanks(graph, decay, limit, epsilon);
      pageRanks := ranks;
    }

    /** The stored rank of a page given to the constructor. */
    method ComputePageRank(pageUri: Uri) returns (r: real)
      requires pageUri in pageRanks
      ensures r == pageRanks[pageUri]
    {
      r := pageRanks[pageUri];
    }
  }
}
