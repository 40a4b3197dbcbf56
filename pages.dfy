/**
 * The page collection both analyzers read: each crawled page is known by its
 * URI and brings the list of URIs it links to and the list of its words, in
 * document order and with repetitions.
 */
module Pages {

  type Uri = string
  type Word = string

  datatype Page = Page(uri: Uri, links: seq<Uri>, words: seq<Word>)

  /** Each page of the collection is identified by its URI. */
  predicate UniqueUris(pages: set<Page>)
  {
    forall p, q :: p in pages && q in pages && p.uri == q.uri ==> p == q
  }

  /** The URIs of the pages of a collection. */
  function Uris(pages: set<Page>): (uris: set<Uri>)
  {
    set p | p in pages :: p.uri
  }
}
