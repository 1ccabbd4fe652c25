/** The link graph the ranking engine consumes (the "corpus").

    A corpus maps each page name to the set of page names it links to. The
    crawler that builds it guarantees that no page links to itself and that
    every link target is itself a page; the ranking engine only ever relies on
    the second half. The keys are also kept in dictionary order, as the
    sequence `pages`, because the iterative solver's first round depends on
    that order. */
module Graph {
  import opened Sums

  type Page = string

  type Links = map<Page, set<Page>>

  /** The exceptions the engine can raise on a corpus that satisfies the
      crawler's invariant. */
  datatype Error =
    | UnknownPage(page: Page)   // `corpus[page]` with a page that is not a key
    | EmptyCorpus               // choosing a start page among no pages
    | ZeroSamples               // dividing the visit counts by n == 0

  datatype Result<T> = Success(value: T) | Failure(error: Error)

  /** `pages` lists the keys of `links` once each. */
  ghost predicate Keyed(pages: seq<Page>, links: Links)
  {
    Distinct(pages) && forall p :: p in links <==> p in pages
  }

  /** Every link target is a page of the corpus. */
  predicate Closed(links: Links)
  {
    forall p | p in links :: links[p] <= links.Keys
  }

  /** No page links to itself. */
  predicate NoSelfLinks(links: Links)
  {
    forall p | p in links :: p !in links[p]
  }

  /** The crawler's output invariant. */
  predicate Crawled(links: Links)
  {
    Closed(links) && NoSelfLinks(links)
  }

  /** No page is a sink (a page without links). */
  predicate NoSinks(links: Links)
  {
    forall p | p in links :: links[p] != {}
  }

  /** The corpus after the sinks among the first `j` pages have been made to
      link to every page, themselves included, one page after the other in
      the order of `pages`. */
  function NormalizedUpTo(pages: seq<Page>, links: Links, j: nat): (norm: Links)
    requires j <= |pages|
  {
    if j == 0 then links else NormalizeAt(NormalizedUpTo(pages, links, j - 1), pages[j - 1])
  }

  /** A sink `p` is made to link to every page, itself included; any other
      corpus is left as it is. */
  function NormalizeAt(links: Links, p: Page): (norm: Links)
  {
    if p in links && links[p] == {} then links[p := links.Keys] else links
  }

  /** The corpus after every sink has been made to link to every page. */
  function Normalized(pages: seq<Page>, links: Links): (norm: Links)
  {
    NormalizedUpTo(pages, links, |pages|)
  }

  /** The number of pages is the number of keys. */
  lemma KeyedCard(pages: seq<Page>, links: Links)
    requires Keyed(pages, links)
    ensures |links| == |pages|
  {
    assert links.Keys == Elems(pages);
    DistinctCard(pages);
  }

  /** Normalising keeps the keys. */
  lemma {:induction false} NormalizedUpToKeys(pages: seq<Page>, links: Links, j: nat)
    requires j <= |pages|
    ensures forall p :: p in NormalizedUpTo(pages, links, j) <==> p in links
  {
    if j > 0 {
      NormalizedUpToKeys(pages, links, j - 1);
    }
  }

  /** After the first `j` pages, the keys are those of the crawler, a sink
      among the first `j` pages links to every page, and every other page
      keeps the crawler's set: the sink test at `pages[j]` still sees the
      crawler's set, because that page has not been visited before. */
  lemma {:induction false} NormalizedUpToShape(pages: seq<Page>, links: Links, j: nat)
    requires Keyed(pages, links) && j <= |pages|
    ensures forall p :: p in NormalizedUpTo(pages, links, j) <==> p in links
    ensures forall p | p in links ::
              NormalizedUpTo(pages, links, j)[p] == if links[p] == {} && p in pages[..j] then links.Keys else links[p]
  {
    if j > 0 {
      NormalizedUpToShape(pages, links, j - 1);
      var before := NormalizedUpTo(pages, links, j - 1);
      var p := pages[j - 1];
      DistinctAt(pages, j - 1);
      assert forall q :: q in pages[..j] <==> q in pages[..j - 1] || q == p;
      assert before.Keys == links.Keys;
    }
  }

  /** Normalising every sink: a sink's set becomes the full key set, itself
      included; a non-sink keeps its set; nothing is a sink any more; and
      link targets are still pages. */
  lemma NormalizedShape(pages: seq<Page>, links: Links)
    requires Keyed(pages, links)
    ensures forall p :: p in Normalized(pages, links) <==> p in links
    ensures forall p | p in links && links[p] == {} :: Normalized(pages, links)[p] == links.Keys && p in Normalized(pages, links)[p]
    ensures forall p | p in links && links[p] != {} :: Normalized(pages, links)[p] == links[p]
    ensures NoSinks(Normalized(pages, links))
    ensures Closed(links) ==> Closed(Normalized(pages, links))
  {
    NormalizedUpToShape(pages, links, |pages|);
    assert pages[..|pages|] == pages;
  }

  /** Normalising a corpus without sinks changes nothing. */
  lemma {:induction false} NormalizedUpToNoSinks(pages: seq<Page>, links: Links, j: nat)
    requires j <= |pages| && NoSinks(links)
    ensures NormalizedUpTo(pages, links, j) == links
  {
    if j > 0 {
      NormalizedUpToNoSinks(pages, links, j - 1);
    }
  }

  /** Normalising is idempotent: a normalised corpus has no sink left. */
  lemma NormalizedTwice(pages: seq<Page>, links: Links)
    requires Keyed(pages, links)
    ensures Normalized(pages, Normalized(pages, links)) == Normalized(pages, links)
  {
    NormalizedShape(pages, links);
    NormalizedUpToNoSinks(pages, Normalized(pages, links), |pages|);
  }

  /** The mutable corpus: its key order is fixed, its link sets may be
      rewritten in place. */
  class Corpus {
    const pages: seq<Page>
    var links: Links

    ghost predicate Valid()
      reads this
    {
      Keyed(pages, links) && Closed(links)
    }

    /** A corpus as the crawler hands it over. */
    constructor (pages: seq<Page>, links: Links)
      requires Keyed(pages, links) && Crawled(links)
      ensures Valid() && this.pages == pages && this.links == links
    {
      this.pages := pages;
      this.links := links;
    }
  }
}
