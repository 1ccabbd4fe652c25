/** What the iterative solver does to the total rank.

    The ranks start as a probability distribution. A round on a corpus
    without sinks maps total rank `M` to `(1 - d) + d * M`, so it keeps a
    total of 1. The first round of the solver as written scores some pages
    before the sinks after them are normalised, and the rank those sinks
    hold is then passed on to nobody: that round can lose mass, and the
    later rounds only shrink the deficit by a factor `d` per round. */
module RankMass {
  import opened Sums
  import opened Graph
  import opened Iteration

  /** The part of a total rank `mass` that a round passes along links. */
  function Followed(d: real, mass: real): real
  {
    d * mass
  }

  /** The total rank after a round on a corpus without sinks, from a total
      of `mass` before it. */
  function Damped(d: real, mass: real): real
  {
    (1.0 - d) + Followed(d, mass)
  }

  /** The starting ranks give every page `1 / N` and add up to 1. */
  lemma InitialRanksDistribution(pages: seq<Page>)
    requires Distinct(pages) && pages != []
    ensures forall p | p in pages :: InitialRanks(pages)[p] == 1.0 / (|pages| as real)
    ensures Distribution(pages, InitialRanks(pages))
  {
    var ranks := InitialRanks(pages);
    SumOfAffine(pages, ranks, {}, 1.0 / (|pages| as real), 0.0);
    CountInEmpty(pages);
    Shares(|pages|, 1.0);
  }

  /** The new rank of `pages[i]` is scored on the corpus with the sinks
      among the first `i + 1` pages normalised. */
  lemma {:induction false} RoundPrefixValues(pages: seq<Page>, links: Links, ranks: map<Page, real>, d: real, j: nat)
    requires Distinct(pages) && j <= |pages| && forall q | q in pages :: q in ranks
    ensures forall i | 0 <= i < j ::
              pages[i] in RoundPrefix(pages, links, ranks, d, j)
              && RoundPrefix(pages, links, ranks, d, j)[pages[i]]
                 == NewRank(pages, NormalizedUpTo(pages, links, i + 1), ranks, pages[i], d)
  {
    if j > 0 {
      RoundPrefixValues(pages, links, ranks, d, j - 1);
      DistinctAt(pages, j - 1);
      assert forall i | 0 <= i < j - 1 :: pages[i] in pages[..j - 1];
    }
  }

  /** What a page passes on is never negative. */
  lemma ShareNonNegative(links: Links, ranks: map<Page, real>, q: Page, d: real)
    requires q in ranks && ranks[q] >= 0.0 && d >= 0.0
    ensures Share(links, ranks, q, d) >= 0.0
  {
    if q in links && links[q] != {} {
      var m := |links[q]| as real;
      assert ranks[q] / m >= 0.0;
    }
  }

  /** A page never receives a negative amount of rank. */
  lemma {:induction false} InflowNonNegative(qs: seq<Page>, links: Links, ranks: map<Page, real>, page: Page, d: real)
    requires forall q | q in qs :: q in ranks && ranks[q] >= 0.0
    requires d >= 0.0
    ensures Inflow(qs, links, ranks, page, d) >= 0.0
  {
    if qs != [] {
      InflowNonNegative(qs[..|qs| - 1], links, ranks, page, d);
      ShareNonNegative(links, ranks, qs[|qs| - 1], d);
    }
  }

  /** Every rank a round has computed so far is at least the jump share. */
  lemma {:induction false} RoundPrefixLowerBound(pages: seq<Page>, links: Links, ranks: map<Page, real>, d: real, j: nat)
    requires j <= |pages| && forall q | q in pages :: q in ranks && ranks[q] >= 0.0
    requires d >= 0.0
    ensures forall p | p in RoundPrefix(pages, links, ranks, d, j) ::
              RoundPrefix(pages, links, ranks, d, j)[p] >= (1.0 - d) / (|pages| as real)
  {
    if j > 0 {
      RoundPrefixLowerBound(pages, links, ranks, d, j - 1);
      InflowNonNegative(pages, NormalizedUpTo(pages, links, j), ranks, pages[j - 1], d);
    }
  }

  /** From non-negative ranks and `0 <= d`, every rank a round computes is
      at least the jump share `(1 - d) / N`, so non-negative when `d <= 1`;
      this holds on any corpus, the first round's included. */
  lemma RoundLowerBound(pages: seq<Page>, links: Links, ranks: map<Page, real>, d: real)
    requires forall q | q in pages :: q in ranks && ranks[q] >= 0.0
    requires 0.0 <= d
    ensures forall p | p in RoundRanks(pages, links, ranks, d) ::
              RoundRanks(pages, links, ranks, d)[p] >= (1.0 - d) / (|pages| as real)
    ensures d <= 1.0 ==> forall p | p in RoundRanks(pages, links, ranks, d) :: RoundRanks(pages, links, ranks, d)[p] >= 0.0
  {
    RoundPrefixLowerBound(pages, links, ranks, d, |pages|);
    if pages != [] {
      assert (1.0 - d) / (|pages| as real) >= 0.0 <== d <= 1.0;
    }
  }

  /** On a corpus without sinks, a round scores every page on the corpus
      itself. */
  lemma {:induction false} RoundPrefixNoSinks(pages: seq<Page>, links: Links, ranks: map<Page, real>, d: real, j: nat)
    requires NoSinks(links) && j <= |pages| && forall q | q in pages :: q in ranks
    ensures forall p | p in RoundPrefix(pages, links, ranks, d, j) ::
              RoundPrefix(pages, links, ranks, d, j)[p] == NewRank(pages, links, ranks, p, d)
  {
    if j > 0 {
      RoundPrefixNoSinks(pages, links, ranks, d, j - 1);
      NormalizedUpToNoSinks(pages, links, j);
    }
  }

  /** The total rank all pages of `ps` receive from the pages of `qs`. */
  ghost function TotalInflow(ps: seq<Page>, qs: seq<Page>, links: Links, ranks: map<Page, real>, d: real): real
    requires forall q | q in qs :: q in ranks
  {
    if ps == [] then 0.0
    else TotalInflow(ps[..|ps| - 1], qs, links, ranks, d) + Inflow(qs, links, ranks, ps[|ps| - 1], d)
  }

  /** The same total counted by the senders: each page of `qs` passes its
      share once to every page of `ps` it links to. */
  ghost function Outflow(qs: seq<Page>, ps: seq<Page>, links: Links, ranks: map<Page, real>, d: real): real
    requires forall q | q in qs :: q in ranks
  {
    if qs == [] then 0.0
    else
      var q := qs[|qs| - 1];
      Outflow(qs[..|qs| - 1], ps, links, ranks, d)
        + (if q in links then Times(CountIn(ps, links[q]), Share(links, ranks, q, d)) else 0.0)
  }

  /** Nothing is passed on to no page. */
  lemma {:induction false} OutflowToNone(qs: seq<Page>, links: Links, ranks: map<Page, real>, d: real)
    requires forall q | q in qs :: q in ranks
    ensures Outflow(qs, [], links, ranks, d) == 0.0
  {
    if qs != [] {
      OutflowToNone(qs[..|qs| - 1], links, ranks, d);
    }
  }

  /** One more receiving page `p` adds what the senders pass on to `p`. */
  lemma {:induction false} OutflowExtend(qs: seq<Page>, ps: seq<Page>, p: Page, links: Links, ranks: map<Page, real>, d: real)
    requires forall q | q in qs :: q in ranks
    ensures Outflow(qs, ps + [p], links, ranks, d) == Outflow(qs, ps, links, ranks, d) + Inflow(qs, links, ranks, p, d)
  {
    if qs != [] {
      var q := qs[|qs| - 1];
      OutflowExtend(qs[..|qs| - 1], ps, p, links, ranks, d);
      if q in links {
        assert (ps + [p])[..|ps|] == ps;
        assert CountIn(ps + [p], links[q]) == CountIn(ps, links[q]) + (if p in links[q] then 1 else 0);
      }
    }
  }

  /** Passing on a part of a sum is passing on the part of each term. */
  lemma Distribute(d: real, total: real, b: real, c: real)
    requires total == b + c
    ensures Followed(d, total) == Followed(d, b) + Followed(d, c)
  {
  }

  /** Adding up what every page receives is adding up what every page
      passes on. */
  lemma {:induction false} InflowIsOutflow(ps: seq<Page>, qs: seq<Page>, links: Links, ranks: map<Page, real>, d: real)
    requires forall q | q in qs :: q in ranks
    ensures TotalInflow(ps, qs, links, ranks, d) == Outflow(qs, ps, links, ranks, d)
  {
    if ps == [] {
      OutflowToNone(qs, links, ranks, d);
    } else {
      var init := ps[..|ps| - 1];
      InflowIsOutflow(init, qs, links, ranks, d);
      OutflowExtend(qs, init, ps[|ps| - 1], links, ranks, d);
      assert init + [ps[|ps| - 1]] == ps;
    }
  }

  /** When every page of `qs` links only to pages, and to at least one,
      every page of `qs` passes on exactly `d` times its rank, spread over
      its links. */
  lemma {:induction false} OutflowOfAll(qs: seq<Page>, pages: seq<Page>, links: Links, ranks: map<Page, real>, d: real)
    requires Distinct(pages)
    requires forall q | q in qs :: q in links && q in ranks && links[q] != {} && links[q] <= Elems(pages)
    ensures Outflow(qs, pages, links, ranks, d) == Followed(d, Sum(qs, ranks))
  {
    if qs != [] {
      var init := qs[..|qs| - 1];
      var q := qs[|qs| - 1];
      OutflowOfAll(init, pages, links, ranks, d);
      PassedOn(pages, links, ranks, q, d);
      Distribute(d, Sum(qs, ranks), Sum(init, ranks), ranks[q]);
    }
  }

  /** A page that links only to pages, and to at least one, passes on `d`
      times its rank in all. */
  lemma PassedOn(pages: seq<Page>, links: Links, ranks: map<Page, real>, q: Page, d: real)
    requires Distinct(pages) && q in links && links[q] != {} && links[q] <= Elems(pages) && q in ranks
    ensures Times(CountIn(pages, links[q]), Share(links, ranks, q, d)) == Followed(d, ranks[q])
  {
    CountInDistinct(pages, links[q]);
    assert links[q] * Elems(pages) == links[q];
    SpreadEvenly(links, ranks, q, d);
  }

  /** A page with `m` links passes `m` shares of `d * (r / m)`, which make
      `d * r`. */
  lemma SpreadEvenly(links: Links, ranks: map<Page, real>, q: Page, d: real)
    requires q in links && links[q] != {} && q in ranks
    ensures Times(|links[q]|, Share(links, ranks, q, d)) == Followed(d, ranks[q])
  {
    TimesIsProduct(|links[q]|, Share(links, ranks, q, d));
  }

  /** The new ranks of `ps` add up to one jump share per page plus all that
      those pages receive. */
  lemma {:induction false} SumOfNewRanks(ps: seq<Page>, pages: seq<Page>, links: Links, ranks: map<Page, real>, d: real,
                                         next: map<Page, real>)
    requires pages != [] && forall q | q in pages :: q in ranks
    requires forall p | p in ps :: p in next && next[p] == NewRank(pages, links, ranks, p, d)
    ensures Sum(ps, next) == Times(|ps|, (1.0 - d) / (|pages| as real)) + TotalInflow(ps, pages, links, ranks, d)
  {
    if ps != [] {
      SumOfNewRanks(ps[..|ps| - 1], pages, links, ranks, d, next);
    }
  }

  /** When every page links only to pages, and to at least one, the new
      ranks add up to `(1 - d) + d * M` for ranks adding up to `M`. */
  lemma MassOfNewRanks(pages: seq<Page>, links: Links, ranks: map<Page, real>, d: real, next: map<Page, real>)
    requires Distinct(pages) && pages != []
    requires forall q | q in pages :: q in links && q in ranks && links[q] != {} && links[q] <= Elems(pages)
    requires forall p | p in pages :: p in next && next[p] == NewRank(pages, links, ranks, p, d)
    ensures Sum(pages, next) == Damped(d, Sum(pages, ranks))
  {
    SumOfNewRanks(pages, pages, links, ranks, d, next);
    InflowIsOutflow(pages, pages, links, ranks, d);
    OutflowOfAll(pages, pages, links, ranks, d);
    Shares(|pages|, 1.0 - d);
    JumpAndInflow(Sum(pages, next), Times(|pages|, (1.0 - d) / (|pages| as real)),
                  TotalInflow(pages, pages, links, ranks, d), d, Sum(pages, ranks));
  }

  /** The jump shares make `1 - d` and the inflow `d * M`: together they
      make `Damped(d, M)`. */
  lemma JumpAndInflow(total: real, jump: real, inflow: real, d: real, mass: real)
    requires total == jump + inflow && jump == 1.0 - d && inflow == Followed(d, mass)
    ensures total == Damped(d, mass)
  {
  }

  /** On a corpus without sinks whose link targets are pages, a round maps
      a total rank `M` to `(1 - d) + d * M`. */
  lemma RoundMass(pages: seq<Page>, links: Links, ranks: map<Page, real>, d: real, next: map<Page, real>)
    requires Keyed(pages, links) && Closed(links) && NoSinks(links) && pages != []
    requires forall q | q in pages :: q in ranks
    requires next == RoundRanks(pages, links, ranks, d)
    ensures Sum(pages, next) == Damped(d, Sum(pages, ranks))
  {
    RoundPrefixNoSinks(pages, links, ranks, d, |pages|);
    assert pages[..|pages|] == pages;
    assert links.Keys == Elems(pages);
    MassOfNewRanks(pages, links, ranks, d, next);
  }

  /** Once no sink remains, a round maps a probability distribution to a
      probability distribution. */
  lemma RoundKeepsDistribution(pages: seq<Page>, links: Links, ranks: map<Page, real>, d: real)
    requires Keyed(pages, links) && Closed(links) && NoSinks(links) && pages != []
    requires 0.0 <= d <= 1.0 && Distribution(pages, ranks)
    ensures Distribution(pages, RoundRanks(pages, links, ranks, d))
  {
    RoundMass(pages, links, ranks, d, RoundRanks(pages, links, ranks, d));
    RoundLowerBound(pages, links, ranks, d);
    assert pages[..|pages|] == pages;
    FixedMass(pages, ranks, RoundRanks(pages, links, ranks, d), d);
  }

  /** Total rank 1 is the fixed point of `M |-> (1 - d) + d * M`. */
  lemma FixedMass(pages: seq<Page>, ranks: map<Page, real>, next: map<Page, real>, d: real)
    requires Distribution(pages, ranks)
    requires forall p | p in pages :: p in next && next[p] >= 0.0
    requires Sum(pages, next) == Damped(d, Sum(pages, ranks))
    ensures Distribution(pages, next)
  {
  }

  /** The normalised corpus has the crawler's keys, link targets inside the
      corpus, and no sink. */
  lemma NormalizedIsClean(pages: seq<Page>, links: Links)
    requires Keyed(pages, links) && Closed(links)
    ensures Keyed(pages, Normalized(pages, links))
    ensures Closed(Normalized(pages, links)) && NoSinks(Normalized(pages, links))
  {
    NormalizedShape(pages, links);
  }

  /** Every round after the first runs on the normalised corpus: it maps
      the total `M` to `(1 - d) + d * M`, so the shortfall from 1 shrinks by
      the factor `d` per round. */
  lemma LaterRoundsMass(pages: seq<Page>, links: Links, d: real, k: nat)
    requires Keyed(pages, links) && Closed(links) && pages != [] && k >= 1
    ensures Sum(pages, Rounds(pages, links, d, k + 1)) == Damped(d, Sum(pages, Rounds(pages, links, d, k)))
  {
    NormalizedIsClean(pages, links);
    RoundMass(pages, Normalized(pages, links), Rounds(pages, links, d, k), d, Rounds(pages, links, d, k + 1));
  }

  /** Under `Damped` the shortfall from 1 is scaled by `d`, so a total of 1
      is its fixed point, and for `d != 0` the only one. */
  lemma DampedDeficit(d: real, mass: real)
    ensures 1.0 - Damped(d, mass) == d * (1.0 - mass)
    ensures Damped(d, mass) == 1.0 <==> d == 0.0 || mass == 1.0
  {
    assert d * (1.0 - mass) == d - d * mass;
  }

  /** For `d != 0`, a later round adds up to 1 exactly when the first one
      does: mass lost in the first round is never recovered. */
  lemma {:induction false} DeficitPersists(pages: seq<Page>, links: Links, d: real, k: nat)
    requires Keyed(pages, links) && Closed(links) && pages != [] && k >= 1 && d != 0.0
    ensures Sum(pages, Rounds(pages, links, d, k)) == 1.0 <==> Sum(pages, Rounds(pages, links, d, 1)) == 1.0
  {
    if k > 1 {
      DeficitPersists(pages, links, d, k - 1);
      LaterRoundsMass(pages, links, d, k - 1);
      DampedDeficit(d, Sum(pages, Rounds(pages, links, d, k - 1)));
    }
  }

  /** From `0 <= d <= 1`, every round's ranks are non-negative, and from the
      first round on each is at least the jump share `(1 - d) / N`. */
  lemma {:induction false} RoundsLowerBound(pages: seq<Page>, links: Links, d: real, k: nat)
    requires pages != [] && 0.0 <= d <= 1.0
    ensures forall p | p in Rounds(pages, links, d, k) :: Rounds(pages, links, d, k)[p] >= 0.0
    ensures k >= 1 ==> forall p | p in Rounds(pages, links, d, k) ::
                         Rounds(pages, links, d, k)[p] >= (1.0 - d) / (|pages| as real)
  {
    if k > 0 {
      RoundsLowerBound(pages, links, d, k - 1);
      RoundLowerBound(pages, CorpusAfter(pages, links, k - 1), Rounds(pages, links, d, k - 1), d);
    }
  }

  /** On a corpus without sinks, every round of the solver as written
      keeps a probability distribution. */
  lemma {:induction false} NoSinksRoundsDistribution(pages: seq<Page>, links: Links, d: real, k: nat)
    requires Keyed(pages, links) && Closed(links) && NoSinks(links) && pages != []
    requires 0.0 <= d <= 1.0
    ensures Distribution(pages, Rounds(pages, links, d, k))
  {
    if k == 0 {
      InitialRanksDistribution(pages);
    } else {
      NoSinksRoundsDistribution(pages, links, d, k - 1);
      NormalizedUpToNoSinks(pages, links, |pages|);
      RoundKeepsDistribution(pages, links, Rounds(pages, links, d, k - 1), d);
    }
  }

  /** The corrected solver, which normalises every sink before the first
      round, keeps a probability distribution in every round. */
  lemma CorrectedRoundsAreDistributions(pages: seq<Page>, links: Links, d: real, k: nat)
    requires Keyed(pages, links) && Closed(links) && pages != []
    requires 0.0 <= d <= 1.0
    ensures Distribution(pages, Rounds(pages, Normalized(pages, links), d, k))
  {
    NormalizedIsClean(pages, links);
    NoSinksRoundsDistribution(pages, Normalized(pages, links), d, k);
  }

  /** A page scored while some sinks are still empty receives at most what
      it receives once every sink is normalised: each sender's set is then
      either the same or still empty. */
  lemma {:induction false} InflowAtMostNormalized(qs: seq<Page>, during: Links, after: Links, ranks: map<Page, real>, page: Page, d: real)
    requires forall q | q in qs :: q in ranks && ranks[q] >= 0.0
    requires d >= 0.0
    requires forall q | q in qs :: (q in during <==> q in after) && (q in during ==> during[q] == after[q] || during[q] == {})
    ensures Inflow(qs, during, ranks, page, d) <= Inflow(qs, after, ranks, page, d)
  {
    if qs != [] {
      InflowAtMostNormalized(qs[..|qs| - 1], during, after, ranks, page, d);
      ShareNonNegative(after, ranks, qs[|qs| - 1], d);
    }
  }

  /** In a round as written, every page scored so far has at most the rank
      it gets when every sink is normalised before the round. */
  lemma {:induction false} RoundPrefixAtMostNormalized(pages: seq<Page>, links: Links, ranks: map<Page, real>, d: real, j: nat)
    requires Keyed(pages, links) && j <= |pages|
    requires forall q | q in pages :: q in ranks && ranks[q] >= 0.0
    requires d >= 0.0
    ensures forall p | p in RoundPrefix(pages, links, ranks, d, j) ::
              p in RoundPrefix(pages, Normalized(pages, links), ranks, d, j)
              && RoundPrefix(pages, links, ranks, d, j)[p] <= RoundPrefix(pages, Normalized(pages, links), ranks, d, j)[p]
  {
    if j > 0 {
      RoundPrefixAtMostNormalized(pages, links, ranks, d, j - 1);
      NormalizedShape(pages, links);
      NormalizedUpToNoSinks(pages, Normalized(pages, links), j);
      ScoredAtMostNormalized(pages, links, ranks, pages[j - 1], d, j);
    }
  }

  /** A page scored once the sinks among the first `j` pages are normalised
      gets at most its rank on the fully normalised corpus. */
  lemma ScoredAtMostNormalized(pages: seq<Page>, links: Links, ranks: map<Page, real>, page: Page, d: real, j: nat)
    requires Keyed(pages, links) && j <= |pages| && pages != []
    requires forall q | q in pages :: q in ranks && ranks[q] >= 0.0
    requires d >= 0.0
    ensures NewRank(pages, NormalizedUpTo(pages, links, j), ranks, page, d) <= NewRank(pages, Normalized(pages, links), ranks, page, d)
  {
    NormalizedUpToShape(pages, links, j);
    NormalizedShape(pages, links);
    InflowAtMostNormalized(pages, NormalizedUpTo(pages, links, j), Normalized(pages, links), ranks, page, d);
  }

  /** A round adds up to at most `(1 - d) + d * M`, where `M` is the total
      before it: a sink not yet normalised passes its rank on to nobody. */
  lemma RoundTotalAtMost(pages: seq<Page>, links: Links, ranks: map<Page, real>, d: real)
    requires Keyed(pages, links) && Closed(links) && pages != []
    requires forall q | q in pages :: q in ranks && ranks[q] >= 0.0
    requires d >= 0.0
    ensures Sum(pages, RoundRanks(pages, links, ranks, d)) <= Damped(d, Sum(pages, ranks))
  {
    var after := Normalized(pages, links);
    var asWritten := RoundRanks(pages, links, ranks, d);
    var corrected := RoundRanks(pages, after, ranks, d);
    RoundPrefixAtMostNormalized(pages, links, ranks, d, |pages|);
    assert pages[..|pages|] == pages;
    SumMonotone(pages, asWritten, corrected);
    NormalizedIsClean(pages, links);
    RoundMass(pages, after, ranks, d, corrected);
  }

  /** A total of at most 1 stays at most 1 under `M |-> (1 - d) + d * M`. */
  lemma DampedAtMostOne(d: real, mass: real)
    requires 0.0 <= d && mass <= 1.0
    ensures Damped(d, mass) <= 1.0
  {
    assert d * mass <= d;
  }

  /** From `0 <= d <= 1`, the ranks of the solver as written add up to at
      most 1 after every round. */
  lemma {:induction false} RoundsTotalAtMostOne(pages: seq<Page>, links: Links, d: real, k: nat)
    requires Keyed(pages, links) && Closed(links) && pages != [] && 0.0 <= d <= 1.0
    ensures Sum(pages, Rounds(pages, links, d, k)) <= 1.0
  {
    if k == 0 {
      InitialRanksDistribution(pages);
    } else {
      var before := Rounds(pages, links, d, k - 1);
      RoundsTotalAtMostOne(pages, links, d, k - 1);
      RoundsLowerBound(pages, links, d, k - 1);
      if k > 1 {
        NormalizedIsClean(pages, links);
      }
      RoundTotalAtMost(pages, CorpusAfter(pages, links, k - 1), before, d);
      DampedAtMostOne(d, Sum(pages, before));
    }
  }

  /** From `0 <= d <= 1`, every rank of the solver as written lies in
      [0, 1] after every round. */
  lemma RoundsBetweenZeroAndOne(pages: seq<Page>, links: Links, d: real, k: nat)
    requires Keyed(pages, links) && Closed(links) && pages != [] && 0.0 <= d <= 1.0
    ensures forall p | p in Rounds(pages, links, d, k) :: 0.0 <= Rounds(pages, links, d, k)[p] <= 1.0
  {
    var ranks := Rounds(pages, links, d, k);
    RoundsLowerBound(pages, links, d, k);
    RoundsTotalAtMostOne(pages, links, d, k);
    forall p | p in ranks
      ensures ranks[p] <= 1.0
    {
      TermAtMostSum(pages, ranks, p);
    }
  }

  /** The corrected solver's ranks lie in [0, 1] after every round too. */
  lemma CorrectedRoundsBetweenZeroAndOne(pages: seq<Page>, links: Links, d: real, k: nat)
    requires Keyed(pages, links) && Closed(links) && pages != [] && 0.0 <= d <= 1.0
    ensures forall p | p in Rounds(pages, Normalized(pages, links), d, k) ::
              0.0 <= Rounds(pages, Normalized(pages, links), d, k)[p] <= 1.0
  {
    NormalizedIsClean(pages, links);
    RoundsBetweenZeroAndOne(pages, Normalized(pages, links), d, k);
  }

  /** The first round as written loses mass. Page "A" links to "B", and
      "B" is a sink. With d = 0.85, "A" is scored while "B" still has no
      links and passes nothing on, and gets only the jump share 0.075; "B"
      is normalised before it is scored and gets 0.7125. The total is
      0.7875, not 1. Normalising first gives "A" another 0.2125 from "B". */
  lemma RoundOneLosesMass()
    ensures var ranks := Rounds(ExamplePages, ExampleLinks, 0.85, 1);
            var corrected := Rounds(ExamplePages, Normalized(ExamplePages, ExampleLinks), 0.85, 1);
            && Keyed(ExamplePages, ExampleLinks) && Crawled(ExampleLinks)
            && ranks["A"] == 0.075 && ranks["B"] == 0.7125
            && Sum(ExamplePages, ranks) == 0.7875
            && corrected["A"] == 0.2875 && corrected["B"] == 0.7125
  {
    ExampleCorpus();
    ExampleInflows();
    var ranks := Rounds(ExamplePages, ExampleLinks, 0.85, 1);
    assert ranks == RoundPrefix(ExamplePages, ExampleLinks, InitialRanks(ExamplePages), 0.85, 2);
    assert ExamplePages[..1] == ["A"];
    assert Sum(ExamplePages[..1], ranks) == 0.075;
    var corrected := Rounds(ExamplePages, ExampleFull, 0.85, 1);
    assert corrected == RoundPrefix(ExamplePages, ExampleFull, InitialRanks(ExamplePages), 0.85, 2);
  }

  /** In the example, no round of the solver as written ever gets back to
      a total of 1. */
  lemma ExampleNeverRecovers(k: nat)
    requires k >= 1
    ensures Sum(ExamplePages, Rounds(ExamplePages, ExampleLinks, 0.85, k)) != 1.0
  {
    RoundOneLosesMass();
    DeficitPersists(ExamplePages, ExampleLinks, 0.85, k);
  }

  const ExamplePages: seq<Page> := ["A", "B"]
  const ExampleLinks: Links := map["A" := {"B"}, "B" := {}]
  const ExampleFull: Links := map["A" := {"B"}, "B" := {"A", "B"}]

  /** The example corpus is a crawl result; its sink "B" is normalised at
      the second page, and the normalised corpus has no sink. */
  lemma ExampleCorpus()
    ensures Keyed(ExamplePages, ExampleLinks) && Crawled(ExampleLinks)
    ensures NormalizedUpTo(ExamplePages, ExampleLinks, 1) == ExampleLinks
    ensures NormalizedUpTo(ExamplePages, ExampleLinks, 2) == ExampleFull
    ensures NormalizedUpTo(ExamplePages, ExampleFull, 1) == ExampleFull
    ensures NormalizedUpTo(ExamplePages, ExampleFull, 2) == ExampleFull
    ensures InitialRanks(ExamplePages) == map["A" := 0.5, "B" := 0.5]
  {
    assert "A"[0] != "B"[0];
    assert ExamplePages[..1] == ["A"] && ExamplePages[..1][..0] == [];
    assert Distinct(ExamplePages);
    assert ExampleLinks.Keys == {"A", "B"};
  }

  /** What each page receives in the first round of the example: "A"
      nothing on the crawled corpus; on the normalised corpus "B" gets 0.425
      from "A" and 0.2125 from itself, and "A" gets 0.2125 from "B". */
  lemma ExampleInflows()
    ensures var start := map["A" := 0.5, "B" := 0.5];
            && Inflow(ExamplePages, ExampleLinks, start, "A", 0.85) == 0.0
            && Inflow(ExamplePages, ExampleFull, start, "B", 0.85) == 0.6375
            && Inflow(ExamplePages, ExampleFull, start, "A", 0.85) == 0.2125
  {
    var start := map["A" := 0.5, "B" := 0.5];
    assert "A"[0] != "B"[0];
    assert ExamplePages[..1] == ["A"] && ExamplePages[..1][..0] == [];
    assert |ExampleFull["B"]| == 2;
    assert Inflow(ExamplePages[..1], ExampleLinks, start, "A", 0.85) == 0.0;
    assert Inflow(ExamplePages[..1], ExampleFull, start, "B", 0.85) == 0.425;
    assert Inflow(ExamplePages[..1], ExampleFull, start, "A", 0.85) == 0.0;
  }
}
