/**
 * The TF-IDF analyzer: per-word inverse document frequencies over the page
 * collection, a TF-IDF vector per page, the norm of each page vector, and the
 * cosine relevance of a query to a page. Scores are reals; the logarithm and
 * the square root are parameters.
 */
module TfIdf {
  import opened Pages
  import opened Sums

  /** A sparse score vector: a score per word. */
  type Vector = map<Word, real>

  // ---------------------------------------------------------------------------
  // Term frequency
  // ---------------------------------------------------------------------------

  /** How many times each distinct word of ws occurs in it. */
  function Counts(ws: seq<Word>): (counts: Vector)
  {
    map w | w in ws :: multiset(ws)[w] as real
  }

  /** The term frequency of each distinct word: its number of occurrences over the length of the list. */
  function Tf(words: seq<Word>): (tf: Vector)
  {
    map w | w in words :: (multiset(words)[w] as real) / (|words| as real)
  }

  /** One more word counted. */
  lemma CountsAppend(ws: seq<Word>, x: Word)
    ensures Counts(ws + [x]) == Counts(ws)[x := (if x in Counts(ws) then Counts(ws)[x] else 0.0) + 1.0]
  {
    assert multiset(ws + [x]) == multiset(ws) + multiset{x};
    forall w | w in ws + [x]
      ensures Counts(ws + [x])[w] == Counts(ws)[x := (if x in Counts(ws) then Counts(ws)[x] else 0.0) + 1.0][w]
    {
      if w != x {
        assert w in ws;
      }
    }
  }

  /** Counting the word at position i turns the counts of the first i words into those of the first i + 1. */
  lemma CountStep(words: seq<Word>, i: nat, dict: Vector)
    requires i < |words| && dict == Counts(words[..i])
    ensures words[i] in dict ==> dict[words[i] := dict[words[i]] + 1.0] == Counts(words[..i + 1])
    ensures words[i] !in dict ==> dict[words[i] := 1.0] == Counts(words[..i + 1])
  {
    CountsAppend(words[..i], words[i]);
    assert words[..i + 1] == words[..i] + [words[i]];
  }

  /**
   * Counts each word of the list, then divides each count by the length of
   * the list in place.
   */
  method ComputeTfScores(words: seq<Word>) returns (dict: Vector)
    ensures dict == Tf(words)
  {
    dict := map[];
    var size := |words|;
    var i := 0;
    while i < |words|
      invariant 0 <= i <= |words|
      invariant dict == Counts(words[..i])
    {
      var next := words[i];
      CountStep(words, i, dict);
      if next in dict {
        dict := dict[next := dict[next] + 1.0];
      } else {
        dict := dict[next := 1.0];
      }
      i := i + 1;
    }
    assert words[..i] == words;
    ghost var counts := dict;
    var rest := dict.Keys;
    while rest != {}
      invariant rest <= counts.Keys == dict.Keys
      invariant forall w {:trigger dict[w]} :: w in dict ==> dict[w] == if w in rest then counts[w] else counts[w] / (size as real)
    {
      var k :| k in rest;
      RescaleStep(counts, dict, rest, k, size);
      dict := dict[k := dict[k] / (size as real)];
      rest := rest - {k};
    }
    TfFromCounts(words, dict);
  }

  /** Rescaling one more key keeps the other keys as they are. */
  lemma RescaleStep(counts: Vector, dict: Vector, rest: set<Word>, k: Word, size: nat)
    requires size > 0 && k in rest && rest <= counts.Keys == dict.Keys
    requires forall w {:trigger dict[w]} :: w in dict ==> dict[w] == if w in rest then counts[w] else counts[w] / (size as real)
    ensures var next := dict[k := dict[k] / (size as real)];
      forall w {:trigger next[w]} :: w in next ==> next[w] == if w in rest - {k} then counts[w] else counts[w] / (size as real)
  {
  }

  /** Dividing every count by the length of the list gives the term frequencies. */
  lemma TfFromCounts(words: seq<Word>, dict: Vector)
    requires dict.Keys == Counts(words).Keys
    requires forall w :: w in dict ==> dict[w] == Counts(words)[w] / (|words| as real)
    ensures dict == Tf(words)
  {
  }

  // ---------------------------------------------------------------------------
  // Inverse document frequency
  // ---------------------------------------------------------------------------

  /** The distinct words of all pages. */
  function Vocabulary(pages: set<Page>): (vocabulary: set<Word>)
  {
    set p, w | p in pages && w in p.words :: w
  }

  /** The number of pages whose word list contains w, however often. */
  function DocFreq(pages: set<Page>, w: Word): (df: nat)
  {
    |set p | p in pages && w in p.words|
  }

  /** The document frequency of every word of the vocabulary, before the logarithm. */
  function DocCounts(pages: set<Page>): (dfs: Vector)
  {
    map w | w in Vocabulary(pages) :: DocFreq(pages, w) as real
  }

  /** A word of the vocabulary occurs on at least one page. */
  lemma DocFreqPositive(pages: set<Page>, w: Word)
    requires w in Vocabulary(pages)
    ensures DocFreq(pages, w) >= 1
  {
    var p :| p in pages && w in p.words;
    var s := set p | p in pages && w in p.words;
    assert p in s;
    assert s == (s - {p}) + {p};
  }

  /** The inverse document frequency of each word of the vocabulary: ln(N / df). */
  function Idf(pages: set<Page>, ln: real -> real): (idf: Vector)
  {
    map w | w in Vocabulary(pages) :: DocFreqPositive(pages, w); ln((|pages| as real) / (DocFreq(pages, w) as real))
  }

  /** Adding a page adds 1 to the document frequency of each of its words, once, however often it repeats. */
  lemma DocFreqAddPage(done: set<Page>, page: Page, w: Word)
    requires page !in done
    ensures DocFreq(done + {page}, w) == DocFreq(done, w) + (if w in page.words then 1 else 0)
  {
    var before := set p | p in done && w in p.words;
    var after := set p | p in done + {page} && w in p.words;
    if w in page.words {
      assert after == before + {page};
    } else {
      assert after == before;
    }
  }

  /**
   * One page's words: each distinct word adds 1 to its count; the `record`
   * set makes a repeated word count once.
   */
  method CountDistinct(dict: Vector, words: seq<Word>) returns (r: Vector)
    ensures r.Keys == dict.Keys + Elements(words)
    ensures forall w :: w in r ==> r[w] == (if w in dict then dict[w] else 0.0) + (if w in words then 1.0 else 0.0)
  {
    r := dict;
    var record: set<Word> := {};
    var j := 0;
    while j < |words|
      invariant 0 <= j <= |words|
      invariant record == Elements(words[..j])
      invariant r.Keys == dict.Keys + record
      invariant forall w :: w in r ==> r[w] == (if w in dict then dict[w] else 0.0) + (if w in record then 1.0 else 0.0)
    {
      var next := words[j];
      assert words[..j + 1] == words[..j] + [next];
      if next !in record {
        record := record + {next};
        if next in r {
          r := r[next := r[next] + 1.0];
        } else {
          r := r[next := 1.0];
        }
      }
      j := j + 1;
    }
    assert words[..j] == words;
  }

  /** Counting a new page's distinct words turns the counts of `done` into those of done + {page}. */
  lemma DocCountsAddPage(done: set<Page>, page: Page, r: Vector)
    requires page !in done
    requires r.Keys == DocCounts(done).Keys + Elements(page.words)
    requires forall w :: w in r ==>
               r[w] == (if w in DocCounts(done) then DocCounts(done)[w] else 0.0) + (if w in page.words then 1.0 else 0.0)
    ensures r == DocCounts(done + {page})
  {
    assert Vocabulary(done + {page}) == Vocabulary(done) + Elements(page.words);
    forall w | w in r
      ensures r[w] == DocCounts(done + {page})[w]
    {
      DocFreqAddPage(done, page, w);
      if w !in Vocabulary(done) {
        assert DocFreq(done, w) == 0 by {
          assert (set p | p in done && w in p.words) == {};
        }
      }
    }
  }

  /**
   * Counts, for every word, the pages that contain it, then replaces each
   * count by ln(N / count) in place.
   */
  method ComputeIdfScores(pages: set<Page>, ln: real -> real) returns (dict: Vector)
    ensures dict == Idf(pages, ln)
  {
    dict := map[];
    var size := |pages|;
    var rest := pages;
    while rest != {}
      invariant rest <= pages
      invariant dict == DocCounts(pages - rest)
    {
      var page :| page in rest;
      TakeOne(pages, rest, page);
      var r := CountDistinct(dict, page.words);
      DocCountsAddPage(pages - rest, page, r);
      dict := r;
      rest := rest - {page};
    }
    assert pages - rest == pages;
    forall w | w in dict
      ensures dict[w] != 0.0
    {
      DocFreqPositive(pages, w);
    }
    dict := TakeLogs(dict, size, ln);
  }

  /** Replaces every count by ln(size / count), in place. */
  method TakeLogs(counts: Vector, size: nat, ln: real -> real) returns (dict: Vector)
    requires forall w :: w in counts ==> counts[w] != 0.0
    ensures dict.Keys == counts.Keys
    ensures forall w :: w in dict ==> dict[w] == ln((size as real) / counts[w])
  {
    dict := counts;
    var keys := dict.Keys;
    while keys != {}
      invariant keys <= counts.Keys == dict.Keys
      invariant forall w :: w in dict ==>
                  dict[w] == if w in keys then counts[w] else ln((size as real) / counts[w])
    {
      var k :| k in keys;
      dict := dict[k := ln((size as real) / dict[k])];
      keys := keys - {k};
    }
  }

  // ---------------------------------------------------------------------------
  // Document vectors
  // ---------------------------------------------------------------------------

  /** The TF-IDF vector of a page's words: tf * idf for each distinct word, 0.0 for a word without idf. */
  function DocVector(words: seq<Word>, idf: Vector): (vector: Vector)
  {
    map w | w in words :: if w in idf then Tf(words)[w] * idf[w] else 0.0
  }

  /** The TF-IDF vector of every page, by URI. */
  function DocVectors(pages: set<Page>, idf: Vector): (vectors: map<Uri, Vector>)
    requires UniqueUris(pages)
  {
    map p | p in pages :: p.uri := DocVector(p.words, idf)
  }

  /** Scores each word of one page from its term frequency and its idf. */
  method ScoreWords(words: seq<Word>, idf: Vector) returns (docWordScores: Vector)
    ensures docWordScores == DocVector(words, idf)
  {
    var tfScores := ComputeTfScores(words);
    docWordScores := map[];
    var j := 0;
    while j < |words|
      invariant 0 <= j <= |words|
      invariant docWordScores.Keys == Elements(words[..j])
      invariant forall w {:trigger docWordScores[w]} :: w in docWordScores ==>
                  w in tfScores && docWordScores[w] == if w in idf then tfScores[w] * idf[w] else 0.0
    {
      var next := words[j];
      assert words[..j + 1] == words[..j] + [next];
      assert next in tfScores;
      if next !in idf {
        docWordScores := docWordScores[next := 0.0];
      } else {
        docWordScores := docWordScores[next := tfScores[next] * idf[next]];
      }
      j := j + 1;
    }
    assert words[..j] == words;
    DocVectorFromTf(words, idf, tfScores, docWordScores);
  }

  /** Scoring every distinct word from its term frequency gives the page's vector. */
  lemma DocVectorFromTf(words: seq<Word>, idf: Vector, tf: Vector, r: Vector)
    requires tf == Tf(words) && r.Keys == Elements(words)
    requires forall w :: w in r ==> w in tf && r[w] == if w in idf then tf[w] * idf[w] else 0.0
    ensures r == DocVector(words, idf)
  {
    var v := DocVector(words, idf);
    assert r.Keys == v.Keys;
    forall w | w in r
      ensures r[w] == v[w]
    {
      assert w in words;
    }
  }

  /** Builds the TF-IDF vector of every page. */
  method ComputeAllDocumentTfIdfVectors(pages: set<Page>, idf: Vector) returns (dict: map<Uri, Vector>)
    requires UniqueUris(pages)
    ensures dict == DocVectors(pages, idf)
  {
    dict := map[];
    var rest := pages;
    while rest != {}
      invariant rest <= pages
      invariant dict.Keys == Uris(pages - rest)
      invariant forall p :: p in pages - rest ==> dict[p.uri] == DocVector(p.words, idf)
    {
      var page :| page in rest;
      TakeOne(pages, rest, page);
      var docWordScores := ScoreWords(page.words, idf);
      dict := dict[page.uri := docWordScores];
      rest := rest - {page};
    }
    assert pages - rest == pages;
    forall u | u in dict
      ensures dict[u] == DocVectors(pages, idf)[u]
    {
      var p :| p in pages && p.uri == u;
    }
  }

  // ---------------------------------------------------------------------------
  // Norms
  // ---------------------------------------------------------------------------

  /** The square of each score of v, zero off v. */
  function Squares(v: Vector): (squares: Word -> real)
  {
    w => if w in v then v[w] * v[w] else 0.0
  }

  /**
   * The sum of the squares of the scores of v over `keys`: `SumOver(keys, Squares(v))` written as its own
   * recursion with the same picks (`SquareSumIsSum`), so that the norm loop needs no lambda in its invariant.
   */
  ghost function SquareSum(v: Vector, keys: set<Word>): (sum: real)
    decreases keys
  {
    if keys == {} then 0.0
    else var k := Pick(keys); (if k in v then v[k] * v[k] else 0.0) + SquareSum(v, keys - {k})
  }

  /** The sum of the squares of all scores of v. */
  ghost function SumSquares(v: Vector): (sum: real)
  {
    SquareSum(v, v.Keys)
  }

  /** SquareSum is the sum of Squares. */
  lemma {:induction false} SquareSumIsSum(v: Vector, keys: set<Word>)
    ensures SquareSum(v, keys) == SumOver(keys, Squares(v))
    decreases keys
  {
    if keys != {} {
      SquareSumIsSum(v, keys - {Pick(keys)});
    }
  }

  /** One more key adds the square of its score. */
  lemma AddSquare(v: Vector, done: set<Word>, k: Word, score: real, output: real)
    requires k in v && k !in done && score == v[k]
    requires output == SumOver(done, Squares(v))
    ensures output + score * score == SumOver(done + {k}, Squares(v))
  {
    SumOverRemove(done + {k}, Squares(v), k);
    assert done + {k} - {k} == done;
  }

  /** Adds the square of every score, then takes the square root. */
  method ComputeNorm(vector: Vector, sqrt: real -> real) returns (r: real)
    ensures r == sqrt(SumSquares(vector))
  {
    var output := 0.0;
    var rest := vector.Keys;
    while rest != {}
      invariant rest <= vector.Keys
      invariant output == SumOver(vector.Keys - rest, Squares(vector))
    {
      var k :| k in rest;
      var score := vector[k];
      AddSquare(vector, vector.Keys - rest, k, score, output);
      TakeOne(vector.Keys, rest, k);
      output := output + score * score;
      rest := rest - {k};
    }
    assert vector.Keys - rest == vector.Keys;
    SquareSumIsSum(vector, vector.Keys);
    r := sqrt(output);
  }

  /** The norm of every page vector, by URI. */
  ghost function Norms(vectors: map<Uri, Vector>, sqrt: real -> real): (norms: map<Uri, real>)
  {
    map u | u in vectors :: sqrt(SumSquares(vectors[u]))
  }

  /** Computes the norm of every page vector. */
  method NormHelper(vectors: map<Uri, Vector>, sqrt: real -> real) returns (norm: map<Uri, real>)
    ensures norm == Norms(vectors, sqrt)
  {
    norm := map[];
    var rest := vectors.Keys;
    while rest != {}
      invariant rest <= vectors.Keys
      invariant norm.Keys == vectors.Keys - rest
      invariant forall u {:trigger norm[u]} :: u in norm ==> norm[u] == sqrt(SumSquares(vectors[u]))
    {
      var u :| u in rest;
      var n := ComputeNorm(vectors[u], sqrt);
      norm := norm[u := n];
      rest := rest - {u};
    }
  }

  // ---------------------------------------------------------------------------
  // Relevance
  // ---------------------------------------------------------------------------

  /** The score of w in v: zero for a word v does not have. */
  function ScoreOf(v: Vector, w: Word): (score: real)
  {
    if w in v then v[w] else 0.0
  }

  /** The TF-IDF vector of the query: tf in the query times idf, for each distinct query word. */
  function QueryVector(query: seq<Word>, idf: Vector): (queryVector: Vector)
    requires forall w :: w in query ==> w in idf
  {
    map w | w in query :: Tf(query)[w] * idf[w]
  }

  /** The product of the document's and the query's scores of a word. */
  function Product(doc: Vector, queryVector: Vector): (product: Word -> real)
  {
    w => ScoreOf(doc, w) * ScoreOf(queryVector, w)
  }

  /** The dot product, one term per query position, repeated words included. */
  ghost function Numerator(doc: Vector, query: seq<Word>, idf: Vector): (numerator: real)
    requires forall w :: w in query ==> w in idf
  {
    SeqSum(query, Product(doc, QueryVector(query, idf)))
  }

  /** The cosine relevance, or 0.0 when the product of the norms is 0. */
  ghost function Relevance(doc: Vector, docNorm: real, query: seq<Word>, idf: Vector, sqrt: real -> real): (relevance: real)
    requires forall w :: w in query ==> w in idf
  {
    Cosine(Numerator(doc, query, idf), docNorm, sqrt(SumSquares(QueryVector(query, idf))))
  }

  /** A dot product over the product of the two norms, or 0.0 when that product is 0. */
  function Cosine(numerator: real, docNorm: real, queryNorm: real): (cosine: real)
  {
    var denominator := docNorm * queryNorm;
    if denominator != 0.0 then numerator / denominator else 0.0
  }

  /** Cosine divides by the product of the norms computed once. */
  lemma CosineOf(numerator: real, docNorm: real, queryNorm: real, denominator: real)
    requires denominator == docNorm * queryNorm
    ensures Cosine(numerator, docNorm, queryNorm) == if denominator != 0.0 then numerator / denominator else 0.0
  {
  }

  /** The analyzer: the idf of every word, the vector of every page and the norm of every page vector. */
  class TfIdfAnalyzer {
    const idfScores: Vector
    const documentTfIdfVectors: map<Uri, Vector>
    const normOfDocumentVectors: map<Uri, real>
    const sqrt: real -> real

    /** Every page vector has its norm. */
    ghost predicate Valid()
    {
      normOfDocumentVectors == Norms(documentTfIdfVectors, sqrt)
    }

    constructor(webpages: set<Page>, ln: real -> real, sqrt: real -> real)
      requires UniqueUris(webpages)
      ensures idfScores == Idf(webpages, ln)
      ensures documentTfIdfVectors == DocVectors(webpages, idfScores)
      ensures this.sqrt == sqrt && Valid()
    {
      var idf := ComputeIdfScores(webpages, ln);
      var vectors := ComputeAllDocumentTfIdfVectors(webpages, idf);
      var norms := NormHelper(vectors, sqrt);
      idfScores := idf;
      documentTfIdfVectors := vectors;
      normOfDocumentVectors := norms;
      this.sqrt := sqrt;
    }

    /**
     * Builds the query vector word by word while adding the products of the
     * document's and the query's scores, then divides by the product of the
     * norms unless it is 0.
     */
    method ComputeRelevance(query: seq<Word>, pageUri: Uri) returns (r: real)
      requires Valid() && pageUri in documentTfIdfVectors
      requires forall w :: w in query ==> w in idfScores
      ensures r == Relevance(documentTfIdfVectors[pageUri], normOfDocumentVectors[pageUri], query, idfScores, sqrt)
    {
      var documentVector := documentTfIdfVectors[pageUri];
      var queryVector, numerator := DotQuery(documentVector, query, idfScores);
      var queryNorm := ComputeNorm(queryVector, sqrt);
      var denominator := normOfDocumentVectors[pageUri] * queryNorm;
      CosineOf(numerator, normOfDocumentVectors[pageUri], queryNorm, denominator);
      if denominator != 0.0 {
        return numerator / denominator;
      }
      return 0.0;
    }
  }

  /** The query score of a query word is its tf in the query times its idf. */
  lemma QueryScore(query: seq<Word>, idf: Vector, tf: Vector, w: Word)
    requires forall w :: w in query ==> w in idf
    requires tf == Tf(query) && w in query
    ensures w in tf && ScoreOf(QueryVector(query, idf), w) == tf[w] * idf[w]
  {
  }

  /** What the relevance loop has built after the first i query positions, towards the query vector `target`. */
  ghost predicate DotSoFar(doc: Vector, query: seq<Word>, target: Vector, i: nat, queryVector: Vector, numerator: real)
    requires i <= |query|
  {
    && queryVector.Keys == Elements(query[..i])
    && (forall w {:trigger queryVector[w]} :: w in queryVector ==> queryVector[w] == ScoreOf(target, w))
    && numerator == SeqSum(query[..i], Product(doc, target))
  }

  /** One more query position: its word gets its query score and the product of the scores is added. */
  lemma DotStep(doc: Vector, query: seq<Word>, target: Vector, i: nat, queryVector: Vector, numerator: real,
                docScore: real, queryScore: real, nextVector: Vector, nextNumerator: real)
    requires i < |query|
    requires DotSoFar(doc, query, target, i, queryVector, numerator)
    requires docScore == ScoreOf(doc, query[i]) && queryScore == ScoreOf(target, query[i])
    requires nextVector == queryVector[query[i] := queryScore]
    requires nextNumerator == numerator + docScore * queryScore
    ensures DotSoFar(doc, query, target, i + 1, nextVector, nextNumerator)
  {
    var w := query[i];
    SeqSumAppend(query, i, Product(doc, target));
    assert Elements(query[..i + 1]) == Elements(query[..i]) + {w} by {
      assert query[..i + 1] == query[..i] + [w];
    }
  }

  /** After the last position the loop has the query vector and the whole dot product. */
  lemma DotDone(doc: Vector, query: seq<Word>, idf: Vector, queryVector: Vector, numerator: real)
    requires forall w :: w in query ==> w in idf
    requires DotSoFar(doc, query, QueryVector(query, idf), |query|, queryVector, numerator)
    ensures queryVector == QueryVector(query, idf)
    ensures numerator == Numerator(doc, query, idf)
  {
    assert query[..|query|] == query;
    forall w | w in queryVector
      ensures queryVector[w] == QueryVector(query, idf)[w]
    {
      assert w in query;
    }
  }

  /**
   * The relevance loop: for each query position, records the word's query
   * score (its tf in the query times its idf) and adds the product of the
   * document's score and the query score.
   */
  method DotQuery(documentVector: Vector, query: seq<Word>, idfScores: Vector) returns (queryVector: Vector, numerator: real)
    requires forall w :: w in query ==> w in idfScores
    ensures queryVector == QueryVector(query, idfScores)
    ensures numerator == Numerator(documentVector, query, idfScores)
  {
    ghost var target := QueryVector(query, idfScores);
    queryVector := map[];
    numerator := 0.0;
    var i := 0;
    while i < |query|
      invariant 0 <= i <= |query|
      invariant DotSoFar(documentVector, query, target, i, queryVector, numerator)
    {
      ghost var before, sum := queryVector, numerator;
      var word := query[i];
      var tf := ComputeTfScores(query);
      QueryScore(query, idfScores, tf, word);
      queryVector := queryVector[word := tf[word] * idfScores[word]];
      var docWordScore := 0.0;
      if word in documentVector {
        docWordScore := documentVector[word];
      }
      var queryWordScore := queryVector[word];
      numerator := numerator + docWordScore * queryWordScore;
      DotStep(documentVector, query, target, i, before, sum, docWordScore, queryWordScore, queryVector, numerator);
      i := i + 1;
    }
    DotDone(documentVector, query, idfScores, queryVector, numerator);
  }
}
