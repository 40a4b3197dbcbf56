# Page rank and TF-IDF relevance, modelled in Dafny

This project models the two analyzers of a small search engine.

- The **page-rank analyzer** turns a set of crawled pages into a link graph. Each page's URI maps to the set of
  page URIs it links to, with self-links and links leaving the collection dropped. It then runs the damped
  random-surfer iteration with two rank buffers (`rank`, `newRank`). It stops at the first iteration in which
  no page's rank moved by `epsilon` or more, or after `limit` iterations. `computePageRank` looks up the
  stored rank of one page.
- The **TF-IDF analyzer** computes:
  - the idf of every word of the collection, ln(N / df), where df is the number of pages containing the word;
  - a tf * idf vector per page;
  - the norm of each page vector.

  `computeRelevance` builds the query's tf * idf vector while adding the products of the document and query
  scores, one term per query position. It divides by the product of the two norms, or returns 0.0 when that
  product is 0.

Files:

- `pages.dfy`: the page record (URI, links, words).
- `sums.dfy`: finite sums over sets (`SumOver`, in no particular order, like a hash iteration) and over
  sequences (`SeqSum`, one term per position), with the lemmas the proofs need.
- `pagerank.dfy`:
  - the graph builder;
  - the specification of one iteration (`Step`), of the stopping rule (`Iterate`) and of the solver's answer
    (`PageRanks`);
  - the solver as imperative methods proved against them;
  - the analyzer class.
- `pagerank_properties.dfy`:
  - graph and key facts;
  - mass conservation;
  - the lower bound (1 - decay)/N;
  - the stopping schedule (first convergence, at most `limit` iterations, strict `<`);
  - the decay = 0 and single-page cases.
- `tfidf.dfy`:
  - the specification functions (`Tf`, `DocFreq`, `Idf`, `DocVector`, `SumSquares`, `Numerator`, `Relevance`);
  - the imperative methods proved against them;
  - the analyzer class.
- `tfidf_properties.dfy`:
  - term frequencies form a distribution;
  - document-frequency bounds;
  - every page word has an idf;
  - sums of squares are non-negative;
  - per-occurrence counting of query words;
  - zero relevance for disjoint queries and for a zero denominator.

Scores are `real`. The natural logarithm and the square root are parameters `ln` and `sqrt` of the
constructor; nothing is assumed about them except where a lemma says so in its `requires`.

The convergence test follows the code, not its doc comment. The doc comment says iteration stops when the
difference is "less then or equal" to epsilon. The code keeps iterating when a difference is `>= epsilon`,
so a page that moved by exactly epsilon does not halt the solver (`ExactEpsilonKeepsGoing`).

A query word that occurs k times adds its product k times to the numerator, while the query vector holds its
tf only once (`NumeratorByOccurrences`, `RepeatedQueryWordCountsTwice`). So for a query with repeated words
the value is not the cosine similarity the doc comment of `computeRelevance` names. The model keeps the
code's behaviour.

## Model

| member | source | states |
|---|---|---|
| PageRank.WebGraph | PageRankAnalyzer_Ziwu_Feb20_1552.java:62-80 | the graph has one key per page URI, dangling pages included; no page links to itself; every target is a page of the graph; u is a target of p exactly when u is in p's links, differs from p and is a page URI |
| PageRank.FilterLinks | PageRankAnalyzer_Ziwu_Feb20_1552.java:69-76 | the link scan keeps exactly the links that are not the page itself and are page URIs, each once |
| PageRank.MakeGraph | PageRankAnalyzer_Ziwu_Feb20_1552.java:62-80 | the two loops (collect URIs, then filter every page's links) build exactly the graph of the collection |
| PageRank.InitialRanks | PageRankAnalyzer_Ziwu_Feb20_1552.java:99-104 | every page of the graph starts at 1/N |
| PageRank.CopyRanks | PageRankAnalyzer_Ziwu_Feb20_1552.java:111-116 | from the second iteration on, `rank` becomes the previous `newRank` |
| PageRank.ResetRanks | PageRankAnalyzer_Ziwu_Feb20_1552.java:117-119 | the buffer holds 0.0 for every page of the graph and nothing else |
| PageRank.SpreadShare | PageRankAnalyzer_Ziwu_Feb20_1552.java:124-134 | the share is added to exactly the given targets, other ranks unchanged |
| PageRank.ScatterPage | PageRankAnalyzer_Ziwu_Feb20_1552.java:121-134 | a dangling page adds rank * decay / N to every page, a linked page rank * decay / (number of links) to each target |
| PageRank.Scatter | PageRankAnalyzer_Ziwu_Feb20_1552.java:120-135 | after all pages have scattered, each page holds its inflow: the sum of the shares of all pages |
| PageRank.AddTeleport | PageRankAnalyzer_Ziwu_Feb20_1552.java:136-139 | every page of the graph gains (1 - decay)/N |
| PageRank.CheckConverged | PageRankAnalyzer_Ziwu_Feb20_1552.java:142-148 | the flag is true exactly when every page's rank moved by strictly less than epsilon |
| PageRank.UpdateRanks | PageRankAnalyzer_Ziwu_Feb20_1552.java:117-139 | reset, scatter and teleport compute one iteration of the damped random-surfer step |
| PageRank.Iteration | PageRankAnalyzer_Ziwu_Feb20_1552.java:110-148 | one pass of the loop: ranks are copied from the buffer except on the first pass, the buffer gets the next step, and the flag is the convergence test |
| PageRank.MakePageRanks | PageRankAnalyzer_Ziwu_Feb20_1552.java:94-154 | the solver returns the ranks of the first converged iteration, or of iteration `limit`, and an empty map when limit <= 0 |
| PageRank.InflowIsSum | PageRankAnalyzer_Ziwu_Feb20_1552.java:120-135 | the inflow of q is the sum, over the senders, of the shares q receives |
| PageRank.InflowAddSource | PageRankAnalyzer_Ziwu_Feb20_1552.java:120-135 | scattering one more page adds exactly its share to q's inflow |
| PageRank.InflowStep | PageRankAnalyzer_Ziwu_Feb20_1552.java:120-135 | the scatter loop keeps each page's accumulated rank equal to its inflow from the pages done so far |
| PageRank.PageRankAnalyzer.constructor | PageRankAnalyzer_Ziwu_Feb20_1552.java:33-49 | the stored ranks are the solver's answer on the graph of the pages |
| PageRank.PageRankAnalyzer.ComputePageRank | PageRankAnalyzer_Ziwu_Feb20_1552.java:162-165 | for a URI that has a rank, returns the stored rank unchanged |
| PageRankProperties.DanglingPageKept | PageRankAnalyzer_Ziwu_Feb20_1552.java:68-78 | a page none of whose links survives stays in the graph with an empty target set |
| PageRankProperties.SinglePageGraph | PageRankAnalyzer_Ziwu_Feb20_1552.java:62-80 | a collection of one page gives a graph of one dangling page |
| PageRankProperties.StepKeys | PageRankAnalyzer_Ziwu_Feb20_1552.java:117-139 | one iteration ranks exactly the pages of the graph |
| PageRankProperties.UniformKeys | PageRankAnalyzer_Ziwu_Feb20_1552.java:102-104 | the start ranks exactly the given pages |
| PageRankProperties.IterateKeys | PageRankAnalyzer_Ziwu_Feb20_1552.java:109-153 | after any number of iterations the ranks have exactly the graph's keys |
| PageRankProperties.PageRanksKeys | PageRankAnalyzer_Ziwu_Feb20_1552.java:99-153 | with limit >= 1 the result has exactly the graph's keys; with limit <= 0 it is empty |
| PageRankProperties.RankOfEveryPage | PageRankAnalyzer_Ziwu_Feb20_1552.java:156-165 | with limit >= 1 every page given to the analyzer has a rank to look up |
| PageRankProperties.UniformTotal | PageRankAnalyzer_Ziwu_Feb20_1552.java:102-104 | the start ranks sum to 1 |
| PageRankProperties.OutflowOfPage | PageRankAnalyzer_Ziwu_Feb20_1552.java:120-135 | what a page sends to all pages adds up to rank * decay, whether it is dangling or linked |
| PageRankProperties.OutflowRow | PageRankAnalyzer_Ziwu_Feb20_1552.java:120-135 | the shares a page sends, summed over the receivers, are its rank scaled by decay |
| PageRankProperties.InflowTotal | PageRankAnalyzer_Ziwu_Feb20_1552.java:120-135 | the inflows of all pages add up to decay times the total rank |
| PageRankProperties.TeleportTotal | PageRankAnalyzer_Ziwu_Feb20_1552.java:136-139 | the teleport terms of all N pages add up to 1 - decay |
| PageRankProperties.SplitParts | PageRankAnalyzer_Ziwu_Feb20_1552.java:117-139 | the total of the next ranks is the total inflow plus the total teleport |
| PageRankProperties.MassOfParts | PageRankAnalyzer_Ziwu_Feb20_1552.java:117-139 | ranks made of inflow plus teleport term total decay * m + (1 - decay) |
| PageRankProperties.StepMass | PageRankAnalyzer_Ziwu_Feb20_1552.java:117-139 | one iteration maps total mass m to decay * m + (1 - decay), so mass 1 stays 1 |
| PageRankProperties.IterateMass | PageRankAnalyzer_Ziwu_Feb20_1552.java:109-153 | ranks summing to 1 still sum to 1 after any number of iterations |
| PageRankProperties.PageRanksMass | PageRankAnalyzer_Ziwu_Feb20_1552.java:94-154 | on a non-empty graph with limit >= 1 the returned ranks sum to 1 |
| PageRankProperties.InflowNonneg | PageRankAnalyzer_Ziwu_Feb20_1552.java:120-135 | with non-negative ranks and decay no page receives a negative inflow |
| PageRankProperties.StepLowerBound | PageRankAnalyzer_Ziwu_Feb20_1552.java:120-139 | after one iteration from non-negative ranks every page has at least (1 - decay)/N |
| PageRankProperties.IterateLowerBound | PageRankAnalyzer_Ziwu_Feb20_1552.java:109-153 | with 0 <= decay <= 1 the bound (1 - decay)/N holds after any number of iterations |
| PageRankProperties.PageRanksLowerBound | PageRankAnalyzer_Ziwu_Feb20_1552.java:94-154 | every rank the solver returns is at least (1 - decay)/N |
| PageRankProperties.IterateIsSchedule | PageRankAnalyzer_Ziwu_Feb20_1552.java:109-153 | the solver's iteration is the stop-at-first-convergence schedule of its step |
| PageRankProperties.ScheduleKeeps | PageRankAnalyzer_Ziwu_Feb20_1552.java:109-153 | a property every step keeps holds of the schedule's result |
| PageRankProperties.ScheduleStopsAtFirstConvergence | PageRankAnalyzer_Ziwu_Feb20_1552.java:142-151 | the schedule returns the ranks of the first converged iteration |
| PageRankProperties.ScheduleRunsOut | PageRankAnalyzer_Ziwu_Feb20_1552.java:109-153 | if no earlier iteration converged, the schedule returns iteration `fuel` |
| PageRankProperties.ScheduleAtMost | PageRankAnalyzer_Ziwu_Feb20_1552.java:109-153 | the schedule runs at least one and at most `fuel` steps |
| PageRankProperties.IterateStopsAtFirstConvergence | PageRankAnalyzer_Ziwu_Feb20_1552.java:142-151 | the solver returns the ranks of the first iteration in which every page moved by less than epsilon |
| PageRankProperties.IterateRunsOut | PageRankAnalyzer_Ziwu_Feb20_1552.java:109-153 | if none of the first limit - 1 iterations converged, the solver returns iteration `limit` |
| PageRankProperties.IterateAtMost | PageRankAnalyzer_Ziwu_Feb20_1552.java:109-153 | the solver runs at least one and at most `limit` iterations |
| PageRankProperties.FirstConvergence | PageRankAnalyzer_Ziwu_Feb20_1552.java:142-151 | if some iteration up to k converges, there is a first converged iteration, and no iteration before it converges |
| PageRankProperties.PageRanksLargerLimit | PageRankAnalyzer_Ziwu_Feb20_1552.java:109-153 | when the run with limit L converges within its L iterations, every larger limit returns the same ranks |
| PageRankProperties.ExactEpsilonKeepsGoing | PageRankAnalyzer_Ziwu_Feb20_1552.java:145 | a page that moved by exactly epsilon does not stop the solver when iterations remain |
| PageRankProperties.ZeroDecayStep | PageRankAnalyzer_Ziwu_Feb20_1552.java:124-139 | with decay 0 one iteration gives every page 1/N, whatever the ranks were |
| PageRankProperties.ZeroDecayIterate | PageRankAnalyzer_Ziwu_Feb20_1552.java:109-153 | with decay 0 the iteration from the uniform start stays uniform |
| PageRankProperties.ZeroDecayConvergesFirst | PageRankAnalyzer_Ziwu_Feb20_1552.java:142-151 | with decay 0 and epsilon > 0 the first iteration already converges |
| PageRankProperties.ZeroDecayPageRanks | PageRankAnalyzer_Ziwu_Feb20_1552.java:99-153 | with decay 0 and limit >= 1 every page gets 1/N |
| PageRankProperties.SinglePageStep | PageRankAnalyzer_Ziwu_Feb20_1552.java:124-139 | a lone dangling page with rank 1 keeps rank 1 through an iteration |
| PageRankProperties.SinglePageIterate | PageRankAnalyzer_Ziwu_Feb20_1552.java:109-153 | a lone dangling page keeps rank 1 through any number of iterations |
| PageRankProperties.SinglePageRanks | PageRankAnalyzer_Ziwu_Feb20_1552.java:99-153 | a graph of one dangling page gives it rank 1 when limit >= 1 |
| PageRankProperties.SinglePageRank | PageRankAnalyzer_Ziwu_Feb20_1552.java:42-45 | a collection of one page gives that page rank 1 when limit >= 1 |
| TfIdf.CountsAppend | TfIdfAnalyzer_Ziwu_Feb20_1550.java:95-101 | counting one more word adds 1 to its count, starting from 1 for a new word |
| TfIdf.CountStep | TfIdfAnalyzer_Ziwu_Feb20_1550.java:95-101 | either branch of the counting update turns the counts of a prefix into those of the next prefix |
| TfIdf.ComputeTfScores | TfIdfAnalyzer_Ziwu_Feb20_1550.java:92-106 | the keys are exactly the distinct words of the list, each mapped to its occurrence count over the list length |
| TfIdf.RescaleStep | TfIdfAnalyzer_Ziwu_Feb20_1550.java:102-104 | dividing one more count in place leaves the other counts as they were |
| TfIdf.DocFreqPositive | TfIdfAnalyzer_Ziwu_Feb20_1550.java:66-77 | a word that occurs on some page has a document count of at least 1, so the idf quotient is defined |
| TfIdf.DocFreqAddPage | TfIdfAnalyzer_Ziwu_Feb20_1550.java:68-77 | one more page adds 1 to the document count of each of its words, once however often it repeats, and 0 to other words |
| TfIdf.CountDistinct | TfIdfAnalyzer_Ziwu_Feb20_1550.java:67-78 | with the per-page `record` set, each distinct word of the page gets exactly 1 added to its count |
| TfIdf.DocCountsAddPage | TfIdfAnalyzer_Ziwu_Feb20_1550.java:66-79 | counting a page's distinct words turns the document counts of the pages done into those including it |
| TfIdf.ComputeIdfScores | TfIdfAnalyzer_Ziwu_Feb20_1550.java:63-84 | the result maps every word of every page to ln(N / df), with df its number of pages |
| TfIdf.TakeLogs | TfIdfAnalyzer_Ziwu_Feb20_1550.java:80-82 | every count c is replaced in place by ln(size / c), keys unchanged |
| TfIdf.ScoreWords | TfIdfAnalyzer_Ziwu_Feb20_1550.java:117-126 | a page's vector has its distinct words as keys, with tf * idf, or 0.0 for a word without idf |
| TfIdf.ComputeAllDocumentTfIdfVectors | TfIdfAnalyzer_Ziwu_Feb20_1550.java:111-130 | every page URI maps to the TF-IDF vector of that page's words |
| TfIdf.SquareSumIsSum | TfIdfAnalyzer_Ziwu_Feb20_1550.java:166-173 | the sum of squares is the sum over the keys of each score squared |
| TfIdf.AddSquare | TfIdfAnalyzer_Ziwu_Feb20_1550.java:168-171 | one more key adds the square of its score to the running output |
| TfIdf.ComputeNorm | TfIdfAnalyzer_Ziwu_Feb20_1550.java:166-173 | the norm is sqrt of the sum of the squares of all scores, in whatever order they are visited |
| TfIdf.NormHelper | TfIdfAnalyzer_Ziwu_Feb20_1550.java:175-181 | every page vector's URI maps to that vector's norm |
| TfIdf.TfIdfAnalyzer.constructor | TfIdfAnalyzer_Ziwu_Feb20_1550.java:33-44 | the fields hold the idf of the pages, the vector of every page under that idf, and the norm of every vector |
| TfIdf.TfIdfAnalyzer.ComputeRelevance | TfIdfAnalyzer_Ziwu_Feb20_1550.java:139-164 | for a page of the collection and query words that have an idf, returns the per-position dot product over the product of the norms, or 0.0 when that product is 0 |
| TfIdf.DotStep | TfIdfAnalyzer_Ziwu_Feb20_1550.java:150-158 | one query position records its word's score and adds document score times query score |
| TfIdf.DotDone | TfIdfAnalyzer_Ziwu_Feb20_1550.java:150-158 | after the last position the loop holds the query vector and the whole numerator |
| TfIdf.DotQuery | TfIdfAnalyzer_Ziwu_Feb20_1550.java:147-158 | the loop builds the query's TF-IDF vector and the numerator, one term per query position |
| TfIdfProperties.TfRange | TfIdfAnalyzer_Ziwu_Feb20_1550.java:92-106 | every term frequency lies in (0, 1] |
| TfIdfProperties.TfSumsToOne | TfIdfAnalyzer_Ziwu_Feb20_1550.java:92-106 | for a non-empty list the keys are its distinct words and the term frequencies add up to 1 |
| TfIdfProperties.DocFreqBounds | TfIdfAnalyzer_Ziwu_Feb20_1550.java:66-79 | a word's count before the logarithm is between 1 and the number of pages |
| TfIdfProperties.IdfOfWord | TfIdfAnalyzer_Ziwu_Feb20_1550.java:63-84 | a word has an idf exactly when some page contains it; its value is ln(N / df), and N / df >= 1 |
| TfIdfProperties.IdfNonneg | TfIdfAnalyzer_Ziwu_Feb20_1550.java:80-82 | with a logarithm that is non-negative from 1 on, every idf is non-negative |
| TfIdfProperties.IdfOfUbiquitousWord | TfIdfAnalyzer_Ziwu_Feb20_1550.java:80-82 | a word on every page gets ln(1) |
| TfIdfProperties.DocVectorsShape | TfIdfAnalyzer_Ziwu_Feb20_1550.java:111-130 | the vectors are keyed by the page URIs, and each page's vector by that page's distinct words |
| TfIdfProperties.PageWordsHaveIdf | TfIdfAnalyzer_Ziwu_Feb20_1550.java:120-125 | with the idf of the same pages every page word has an idf, so the 0.0 branch is never taken |
| TfIdfProperties.SquaresFacts | TfIdfAnalyzer_Ziwu_Feb20_1550.java:168-171 | each square is non-negative and zero exactly when the score is zero |
| TfIdfProperties.SumSquaresNonneg | TfIdfAnalyzer_Ziwu_Feb20_1550.java:166-173 | the sum under the square root is non-negative, and zero exactly for an all-zero vector |
| TfIdfProperties.NumeratorByOccurrences | TfIdfAnalyzer_Ziwu_Feb20_1550.java:150-158 | the numerator is the sum over distinct query words of the product, weighted by the word's number of occurrences |
| TfIdfProperties.MissingWordAddsNothing | TfIdfAnalyzer_Ziwu_Feb20_1550.java:152-157 | a query word missing from the document adds 0 |
| TfIdfProperties.DisjointQueryIsIrrelevant | TfIdfAnalyzer_Ziwu_Feb20_1550.java:147-164 | a query sharing no word with the document has numerator 0 and relevance 0 |
| TfIdfProperties.ZeroDenominatorIsIrrelevant | TfIdfAnalyzer_Ziwu_Feb20_1550.java:159-163 | when the product of the norms is 0 the relevance is 0 |
| TfIdfProperties.RepeatedQueryWordCountsTwice | TfIdfAnalyzer_Ziwu_Feb20_1550.java:150-158 | a word given twice has query score 1 * idf but adds its product twice |

## Left out

- Floating point: all scores are `real`. Rounding, overflow, NaN and infinities are not modelled, so mass
  conservation and the convergence thresholds hold exactly, which doubles need not do.
- `Math.log` and `Math.sqrt` are the parameters `ln` and `sqrt`. Nothing is proved about their values.
  Lemmas that need a property of `ln` ask for it in their `requires`.
- The hash dictionary and hash set classes are `map` and `set`. Iterating over them is modelled by taking
  an arbitrary remaining element (`:|`), so every result is proved for any visiting order. A `put` on an
  existing key during iteration is a pointwise value update.
- The `Webpage` class and parsing: a page is a record of its URI, its link list and its word list.
- The constructors take a set of pages whose URIs are distinct. The source assumes this for its input; with
  duplicates its `put` would keep the last page visited.
- The inner loops of `makePageRanks`, `computeIdfScores`, `computeAllDocumentTfIdfVectors` and
  `computeRelevance` are separate methods, each proved on its own. These are `InitialRanks`, `CopyRanks`,
  `ResetRanks`, `Scatter`, `SpreadShare`, `AddTeleport`, `CheckConverged`, `CountDistinct`, `TakeLogs`,
  `ScoreWords` and `DotQuery`. Each takes and returns its dictionary as a value; the composition is what the
  source does in place.
- URIs are compared as strings. `java.net.URI` equality ignores case in the scheme and host and in
  percent-escape hex digits, so spellings Java treats as one URI (`http://A.com/x`, `http://a.com/x`) are
  distinct pages and distinct link targets here. This affects the self-link and page-URI tests of `makeGraph`.
- The graph's URI set built inside `makePageRanks` is the graph's key set itself.
- PageRank.PageRankAnalyzer.ComputePageRank: requires the URI to have a rank. The dictionary lookup on a
  missing key fails, and the dictionary class is not part of this model, so the model requires the key.
- TfIdf.TfIdfAnalyzer.ComputeRelevance: requires the page URI to be a document key and every query word to
  have an idf. The dictionary lookups on a missing key fail, so the model requires the keys.
- PageRank.CopyRanks: requires both buffers to have the graph's keys. That holds on every call the solver makes.
- PageRank.ResetRanks: requires the buffer's keys to be among the graph's. That holds on every call the
  solver makes.
- `getDocumentTfIdfVectors` is not modelled; it only returns a field, and the constructor's `ensures` states
  that field's value.
- The page-rank graph is not kept after construction, as in the source; only the ranks are.
