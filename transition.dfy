/** The transition model: given the current page, the probability of each
    page being visited next.

    With probability `d` (the damping factor) the surfer follows one of the
    current page's links, chosen uniformly; otherwise it jumps to any page of
    the corpus, chosen uniformly. A page without links jumps uniformly, whatever
    `d` is. */
module Transitions {
  import opened Sums
  import opened Graph

  /** The distribution `transition_model` returns for `page`. */
  function Transition(links: Links, page: Page, d: real): (dist: map<Page, real>)
    requires page in links
  {
    var n := |links| as real;
    var out := links[page];
    if out == {} then
      map p | p in links :: 1.0 / n
    else
      map p | p in links :: (1.0 - d) / n + (if p in out then d / (|out| as real) else 0.0)
  }

  /** `transition_model(corpus, page, damping_factor)`: fills the distribution
      one key at a time in dictionary order. The corpus is only read. A page
      that is not a key fails the lookup `corpus[page]`. */
  method TransitionModel(c: Corpus, page: Page, d: real) returns (r: Result<map<Page, real>>)
    requires Keyed(c.pages, c.links)
    ensures page !in c.links ==> r == Failure(UnknownPage(page))
    ensures page in c.links ==> r == Success(Transition(c.links, page, d))
  {
    if page !in c.links {
      return Failure(UnknownPage(page));
    }
    var numberOfPages := |c.links| as real;
    var out := c.links[page];
    var prob;
    if out == {} {
      prob := UniformRow(c.pages, 1.0 / numberOfPages);
    } else {
      prob := JumpOrFollowRow(c.pages, out, (1.0 - d) / numberOfPages, d / (|out| as real));
    }
    ghost var dist := Transition(c.links, page, d);
    assert prob.Keys == dist.Keys;
    assert prob == dist;
    return Success(prob);
  }

  /** The loop of a sink's row: every page gets the same share. */
  method UniformRow(pages: seq<Page>, share: real) returns (prob: map<Page, real>)
    ensures forall p :: p in prob <==> p in pages
    ensures forall p | p in prob :: prob[p] == share
  {
    prob := map[];
    var i := 0;
    while i < |pages|
      invariant 0 <= i <= |pages|
      invariant forall p :: p in prob <==> p in pages[..i]
      invariant forall p | p in prob :: prob[p] == share
    {
      prob := prob[pages[i] := share];
      i := i + 1;
    }
    assert pages[..|pages|] == pages;
  }

  /** The loop of a linked page's row: every page gets the jump share, and a
      linked page gets the follow share on top of it. */
  method JumpOrFollowRow(pages: seq<Page>, out: set<Page>, jump: real, follow: real) returns (prob: map<Page, real>)
    ensures forall p :: p in prob <==> p in pages
    ensures forall p | p in prob :: prob[p] == jump + (if p in out then follow else 0.0)
  {
    prob := map[];
    var i := 0;
    while i < |pages|
      invariant 0 <= i <= |pages|
      invariant forall p :: p in prob <==> p in pages[..i]
      invariant forall p | p in prob :: prob[p] == jump + (if p in out then follow else 0.0)
    {
      var q := pages[i];
      prob := prob[q := jump];
      if q in out {
        prob := prob[q := prob[q] + follow];
      }
      i := i + 1;
    }
    assert pages[..|pages|] == pages;
  }

  /** A row of the transition model has one entry per page of the corpus. */
  lemma TransitionKeys(links: Links, page: Page, d: real)
    requires page in links
    ensures Transition(links, page, d).Keys == links.Keys
  {
  }

  /** The distribution of a sink is uniform and does not depend on the
      damping factor. */
  lemma SinkIsUniform(links: Links, page: Page, d: real, d': real)
    requires page in links && links[page] == {}
    ensures Transition(links, page, d) == Transition(links, page, d')
    ensures forall p | p in links :: Transition(links, page, d)[p] == 1.0 / (|links| as real)
  {
  }

  /** From a page with links, and for a positive damping factor, a page gets
      more than the jump share `(1 - d) / N` exactly when it is linked to,
      and the surplus is then `d` split evenly over the links. */
  lemma LinkedShare(links: Links, page: Page, d: real, p: Page)
    requires page in links && links[page] != {} && p in links && 0.0 < d
    ensures var base := (1.0 - d) / (|links| as real);
            && (p in links[page] <==> Transition(links, page, d)[p] > base)
            && Transition(links, page, d)[p] - base == if p in links[page] then d / (|links[page]| as real) else 0.0
  {
  }

  /** With link targets inside the corpus and `0 <= d <= 1`, the transition
      model is a probability distribution over the pages: every value is
      non-negative and, summed in dictionary order, they add up to exactly 1. */
  lemma TransitionIsDistribution(pages: seq<Page>, links: Links, page: Page, d: real)
    requires Keyed(pages, links) && Closed(links) && page in links
    requires 0.0 <= d <= 1.0
    ensures Distribution(pages, Transition(links, page, d))
  {
    var dist := Transition(links, page, d);
    var out := links[page];
    KeyedCard(pages, links);
    assert out <= Elems(pages);
    if out == {} {
      Shares(|links|, 1.0);
      AffineMass(pages, dist, out, 1.0 / (|links| as real), 0.0);
    } else {
      Shares(|links|, 1.0 - d);
      Shares(|out|, d);
      AffineMass(pages, dist, out, (1.0 - d) / (|links| as real), d / (|out| as real));
    }
  }

  /** A map over `pages` that gives every page `jump`, plus `follow` for the
      pages of `out`, adds up to one jump per page and one follow per page of
      `out`; it is non-negative when both shares are. */
  lemma AffineMass(pages: seq<Page>, dist: map<Page, real>, out: set<Page>, jump: real, follow: real)
    requires Distinct(pages) && out <= Elems(pages)
    requires forall p | p in pages :: p in dist && dist[p] == jump + (if p in out then follow else 0.0)
    requires Times(|pages|, jump) + Times(|out|, follow) == 1.0
    ensures jump >= 0.0 && follow >= 0.0 ==> Distribution(pages, dist)
  {
    SumOfAffineCovering(pages, dist, out, jump, follow);
  }
}
