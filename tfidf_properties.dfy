/**
 * Properties of the TF-IDF model: term frequencies form a distribution over
 * the distinct words of a list, document frequencies lie between 1 and the
 * number of pages, every page word has an idf, sums of squares are
 * non-negative, and the relevance numerator counts a repeated query word once
 * per occurrence.
 */
module TfIdfProperties {
  import opened Pages
  import opened Sums
  import opened TfIdf

  // ---------------------------------------------------------------------------
  // Term frequency
  // ---------------------------------------------------------------------------

  lemma QuotientInUnit(c: nat, n: nat)
    requires 1 <= c <= n
    ensures 0.0 < (c as real) / (n as real) <= 1.0
  {
  }

  lemma QuotientAsProduct(c: real, n: real)
    requires n != 0.0
    ensures c * (1.0 / n) == c / n
  {
  }

  lemma CancelLength(n: nat)
    requires n > 0
    ensures (n as real) * (1.0 / (n as real)) == 1.0
  {
  }

  /** A word of the list has a term frequency in (0, 1]. */
  lemma TfRange(words: seq<Word>, w: Word)
    requires w in Tf(words)
    ensures 0.0 < Tf(words)[w] <= 1.0
  {
    MultiplicityBound(words, w);
    QuotientInUnit(multiset(words)[w], |words|);
  }

  /** A term frequency is the word's number of occurrences times 1 / length. */
  lemma TfAsWeight(words: seq<Word>, w: Word)
    requires |words| > 0 && w in Elements(words)
    ensures Weighted(words, Constant(1.0 / (|words| as real)))(w) == GetOrZero(Tf(words))(w)
  {
    QuotientAsProduct(multiset(words)[w] as real, |words| as real);
  }

  /** Adding 1 / length over all positions gives 1. */
  lemma PositionsAddToOne(words: seq<Word>)
    requires |words| > 0
    ensures SeqSum(words, Constant(1.0 / (|words| as real))) == 1.0
  {
    SeqSumConst(words, Constant(1.0 / (|words| as real)), 1.0 / (|words| as real));
    CancelLength(|words|);
  }

  /** The term frequencies of a non-empty list are keyed by its distinct words and add up to 1. */
  lemma TfSumsToOne(words: seq<Word>)
    requires |words| > 0
    ensures Tf(words).Keys == Elements(words)
    ensures Total(Tf(words)) == 1.0
  {
    var g := Constant(1.0 / (|words| as real));
    PositionsAddToOne(words);
    SeqSumByOccurrences(words, g);
    forall w | w in Elements(words)
      ensures Weighted(words, g)(w) == GetOrZero(Tf(words))(w)
    {
      TfAsWeight(words, w);
    }
    SumOverExt(Elements(words), Weighted(words, g), GetOrZero(Tf(words)));
  }

  // ---------------------------------------------------------------------------
  // Document frequency and idf
  // ---------------------------------------------------------------------------

  /** A word of the vocabulary occurs on at least one page and at most on every page. */
  lemma DocFreqBounds(pages: set<Page>, w: Word)
    requires w in Vocabulary(pages)
    ensures 1 <= DocFreq(pages, w) <= |pages|
  {
    DocFreqPositive(pages, w);
    SubsetSize((set p | p in pages && w in p.words), pages);
  }

  /**
   * The idf has a key exactly for the words that occur on some page, and the
   * quotient under the logarithm is at least 1.
   */
  lemma IdfOfWord(pages: set<Page>, ln: real -> real, w: Word)
    ensures w in Idf(pages, ln) <==> exists p :: p in pages && w in p.words
    ensures w in Idf(pages, ln) ==>
              && 1 <= DocFreq(pages, w) <= |pages|
              && Idf(pages, ln)[w] == ln((|pages| as real) / (DocFreq(pages, w) as real))
              && (|pages| as real) / (DocFreq(pages, w) as real) >= 1.0
  {
    if exists p :: p in pages && w in p.words {
      var p :| p in pages && w in p.words;
      assert w in Vocabulary(pages);
    }
    if w in Idf(pages, ln) {
      DocFreqBounds(pages, w);
      QuotientAtLeastOne(DocFreq(pages, w), |pages|);
    }
  }

  lemma QuotientAtLeastOne(d: nat, n: nat)
    requires 1 <= d <= n
    ensures (n as real) / (d as real) >= 1.0
  {
  }

  lemma SelfQuotient(n: nat)
    requires n > 0
    ensures (n as real) / (n as real) == 1.0
  {
  }

  /** With a logarithm that is non-negative from 1 on, every idf is non-negative. */
  lemma IdfNonneg(pages: set<Page>, ln: real -> real)
    requires forall x :: x >= 1.0 ==> ln(x) >= 0.0
    ensures forall w :: w in Idf(pages, ln) ==> Idf(pages, ln)[w] >= 0.0
  {
    forall w | w in Idf(pages, ln)
      ensures Idf(pages, ln)[w] >= 0.0
    {
      IdfOfWord(pages, ln, w);
    }
  }

  /** A word that occurs on every page gets the idf ln(1). */
  lemma IdfOfUbiquitousWord(pages: set<Page>, ln: real -> real, w: Word)
    requires pages != {}
    requires forall p :: p in pages ==> w in p.words
    ensures w in Idf(pages, ln) && Idf(pages, ln)[w] == ln(1.0)
  {
    var p :| p in pages;
    assert w in Vocabulary(pages);
    assert (set q | q in pages && w in q.words) == pages;
    SelfQuotient(|pages|);
  }

  // ---------------------------------------------------------------------------
  // Document vectors
  // ---------------------------------------------------------------------------

  /** There is a vector for every page URI, keyed by the page's distinct words. */
  lemma DocVectorsShape(pages: set<Page>, idf: Vector)
    requires UniqueUris(pages)
    ensures DocVectors(pages, idf).Keys == Uris(pages)
    ensures forall p :: p in pages ==> DocVectors(pages, idf)[p.uri].Keys == Elements(p.words)
  {
    forall u | u in Uris(pages)
      ensures u in DocVectors(pages, idf)
    {
      var p :| p in pages && p.uri == u;
    }
  }

  /**
   * With the idf of the same pages, every word of every page has an idf, so
   * its score is tf * idf and the 0.0 branch is never taken.
   */
  lemma PageWordsHaveIdf(pages: set<Page>, ln: real -> real, p: Page, w: Word)
    requires p in pages && w in p.words
    ensures w in Idf(pages, ln)
    ensures DocVector(p.words, Idf(pages, ln))[w] == Tf(p.words)[w] * Idf(pages, ln)[w]
  {
    assert w in Vocabulary(pages);
    ScoreWithIdf(p.words, Idf(pages, ln), w);
  }

  /** A word that has an idf is scored tf * idf. */
  lemma ScoreWithIdf(words: seq<Word>, idf: Vector, w: Word)
    requires w in words && w in idf
    ensures DocVector(words, idf)[w] == Tf(words)[w] * idf[w]
  {
  }

  // ---------------------------------------------------------------------------
  // Norms
  // ---------------------------------------------------------------------------

  /** The squares of the scores of v are non-negative, and zero exactly where the score is zero. */
  lemma SquaresFacts(v: Vector)
    ensures forall w :: w in v.Keys ==> Squares(v)(w) >= 0.0
    ensures forall w :: w in v.Keys ==> (v[w] == 0.0 <==> Squares(v)(w) == 0.0)
  {
    forall w | w in v.Keys
      ensures Squares(v)(w) >= 0.0
      ensures v[w] == 0.0 <==> Squares(v)(w) == 0.0
    {
      var x := v[w];
      var square := Squares(v)(w);
      assert square == x * x;
      if x != 0.0 {
        assert square / x == x;
      }
    }
  }

  /** The sum of squares under the square root is non-negative, and zero exactly for an all-zero vector. */
  lemma SumSquaresNonneg(v: Vector)
    ensures SumSquares(v) >= 0.0
    ensures SumSquares(v) == 0.0 <==> forall w :: w in v ==> v[w] == 0.0
  {
    SquareSumIsSum(v, v.Keys);
    SquaresFacts(v);
    SumOverNonneg(v.Keys, Squares(v));
    SumOverZero(v.Keys, Squares(v));
  }

  // ---------------------------------------------------------------------------
  // Relevance
  // ---------------------------------------------------------------------------

  /**
   * The numerator adds over query positions: it is the sum over the distinct
   * query words of each word's product weighted by its number of occurrences.
   */
  lemma NumeratorByOccurrences(doc: Vector, query: seq<Word>, idf: Vector)
    requires forall w :: w in query ==> w in idf
    ensures Numerator(doc, query, idf) ==
            SumOver(Elements(query), Weighted(query, Product(doc, QueryVector(query, idf))))
  {
    SeqSumByOccurrences(query, Product(doc, QueryVector(query, idf)));
  }

  /** A query word missing from the document adds 0 to the numerator. */
  lemma MissingWordAddsNothing(doc: Vector, query: seq<Word>, idf: Vector, w: Word)
    requires forall w :: w in query ==> w in idf
    requires w !in doc
    ensures Product(doc, QueryVector(query, idf))(w) == 0.0
  {
  }

  /** A query that shares no word with the document has relevance 0. */
  lemma DisjointQueryIsIrrelevant(doc: Vector, docNorm: real, query: seq<Word>, idf: Vector, sqrt: real -> real)
    requires forall w :: w in query ==> w in idf
    requires forall w :: w in query ==> w !in doc
    ensures Numerator(doc, query, idf) == 0.0
    ensures Relevance(doc, docNorm, query, idf, sqrt) == 0.0
  {
    SeqSumConst(query, Product(doc, QueryVector(query, idf)), 0.0);
  }

  /** When the product of the norms is 0 the relevance is 0, whatever the numerator. */
  lemma ZeroDenominatorIsIrrelevant(doc: Vector, docNorm: real, query: seq<Word>, idf: Vector, sqrt: real -> real)
    requires forall w :: w in query ==> w in idf
    requires docNorm * sqrt(SumSquares(QueryVector(query, idf))) == 0.0
    ensures Relevance(doc, docNorm, query, idf, sqrt) == 0.0
  {
  }

  /**
   * A word given twice in the query has query score 1 * idf, yet adds its
   * product twice: the numerator is twice the dot product of the two vectors.
   */
  lemma RepeatedQueryWordCountsTwice(doc: Vector, idf: Vector, w: Word)
    requires w in idf
    ensures QueryVector([w, w], idf) == map[w := idf[w]]
    ensures Numerator(doc, [w, w], idf) == 2.0 * (ScoreOf(doc, w) * idf[w])
  {
    var q := [w, w];
    assert multiset(q)[w] == 2;
    assert Tf(q)[w] == 1.0;
    var qv := QueryVector(q, idf);
    assert qv.Keys == {w};
    assert qv[w] == idf[w];
    assert qv == map[w := idf[w]];
    var g := Product(doc, qv);
    assert g(w) == ScoreOf(doc, w) * idf[w];
    assert q[..1] == [w];
    assert [w][..0] == [];
    assert SeqSum(q[..1], g) == g(w);
    assert SeqSum(q, g) == g(w) + g(w);
  }
}
