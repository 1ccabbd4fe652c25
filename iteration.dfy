/** The iterative solver: starting from the uniform ranks, every round
    recomputes each page's rank from the previous round's ranks, until no
    rank moves by more than the tolerance.

    A page `q` passes `d * rank(q) / |links(q)|` to every page it links to,
    and every page gets the jump share `(1 - d) / N` on top. Sinks are made
    to link to every page, themselves included, IN PLACE in the caller's
    corpus, and lazily: the first round rewrites a sink just before it
    scores that sink, so while it scores the pages before a sink, that sink
    still passes nothing on. */
module Iteration {
  import opened Sums
  import opened Graph

  /** A rank that moves by more than this keeps the solver going. */
  const Tolerance: real := 0.001

  /** Why the solver stopped. The fuel cap stands in for an unbounded loop. */
  datatype Outcome = Converged | RoundLimit

  function Abs(x: real): real
  {
    if x < 0.0 then -x else x
  }

  /** What page `q` passes on to each page it links to: its rank, damped
      by `d` and split evenly over its links. */
  function Share(links: Links, ranks: map<Page, real>, q: Page, d: real): real
    requires q in ranks
  {
    if q in links && links[q] != {} then d * (ranks[q] / (|links[q]| as real)) else 0.0
  }

  /** What the pages of `qs` pass on to `page`, added up in the order of
      `qs`. */
  function Inflow(qs: seq<Page>, links: Links, ranks: map<Page, real>, page: Page, d: real): real
    requires forall q | q in qs :: q in ranks
  {
    if qs == [] then 0.0
    else
      var q := qs[|qs| - 1];
      Inflow(qs[..|qs| - 1], links, ranks, page, d)
        + (if q in links && page in links[q] then Share(links, ranks, q, d) else 0.0)
  }

  /** The rank `page` gets from `ranks` in a corpus whose link sets are
      `links`: the jump share plus what every page passes on to it. */
  function NewRank(pages: seq<Page>, links: Links, ranks: map<Page, real>, page: Page, d: real): real
    requires pages != []
    requires forall q | q in pages :: q in ranks
  {
    (1.0 - d) / (|pages| as real) + Inflow(pages, links, ranks, page, d)
  }

  /** The new ranks of the first `j` pages of a round that starts on the
      corpus `links`. Page `pages[i]` is scored once the sinks among the
      first `i + 1` pages have been normalised, and those only. */
  function RoundPrefix(pages: seq<Page>, links: Links, ranks: map<Page, real>, d: real, j: nat): (next: map<Page, real>)
    requires j <= |pages|
    requires forall q | q in pages :: q in ranks
    ensures forall p :: p in next <==> p in pages[..j]
  {
    if j == 0 then map[]
    else
      var next := RoundPrefix(pages, links, ranks, d, j - 1);
      assert pages[..j] == pages[..j - 1] + [pages[j - 1]];
      next[pages[j - 1] := NewRank(pages, NormalizedUpTo(pages, links, j), ranks, pages[j - 1], d)]
  }

  /** The ranks one round computes from `ranks`, starting on the corpus
      `links`. */
  function RoundRanks(pages: seq<Page>, links: Links, ranks: map<Page, real>, d: real): (next: map<Page, real>)
    requires forall q | q in pages :: q in ranks
  {
    RoundPrefix(pages, links, ranks, d, |pages|)
  }

  /** No page's rank moved by more than the tolerance. */
  predicate Settled(pages: seq<Page>, before: map<Page, real>, after: map<Page, real>)
    requires forall p | p in pages :: p in before && p in after
  {
    forall p | p in pages :: Abs(after[p] - before[p]) <= Tolerance
  }

  /** Every rank of `after` is within the tolerance of its rank in
      `before`. */
  predicate Within(before: map<Page, real>, after: map<Page, real>)
  {
    forall p | p in after && p in before :: Abs(after[p] - before[p]) <= Tolerance
  }

  /** Scoring a new page keeps the ranks within the tolerance exactly when
      they were and the new rank is. */
  lemma WithinStep(before: map<Page, real>, after: map<Page, real>, page: Page, rank: real)
    requires page in before && page !in after
    ensures Within(before, after[page := rank]) <==> Within(before, after) && Abs(rank - before[page]) <= Tolerance
  {
  }

  /** The ranks the solver starts from: `1 / N` per page. */
  function InitialRanks(pages: seq<Page>): (ranks: map<Page, real>)
  {
    map p | p in pages :: 1.0 / (|pages| as real)
  }

  /** The corpus after `k` rounds: the first round normalises every sink,
      later rounds find none. */
  function CorpusAfter(pages: seq<Page>, links: Links, k: nat): Links
  {
    if k == 0 then links else Normalized(pages, links)
  }

  /** The ranks after `k` rounds on the corpus `links`. */
  function Rounds(pages: seq<Page>, links: Links, d: real, k: nat): (ranks: map<Page, real>)
    ensures forall p :: p in ranks <==> p in pages
  {
    if k == 0 then InitialRanks(pages)
    else
      assert pages[..|pages|] == pages;
      RoundRanks(pages, CorpusAfter(pages, links, k - 1), Rounds(pages, links, d, k - 1), d)
  }

  /** Round `k` moved no rank by more than the tolerance. */
  ghost predicate SettledAt(pages: seq<Page>, links: Links, d: real, k: nat)
    requires k >= 1
  {
    Settled(pages, Rounds(pages, links, d, k - 1), Rounds(pages, links, d, k))
  }

  /** Each of the rounds up to and including round `k` moved some rank by
      more than the tolerance. */
  ghost predicate Unsettled(pages: seq<Page>, links: Links, d: real, k: nat)
  {
    forall i | 1 <= i <= k :: !SettledAt(pages, links, d, i)
  }

  /** The inner loop of a round: the rank of `page` from the previous
      ranks, on the corpus as it stands. */
  method Score(c: Corpus, ranks: map<Page, real>, page: Page, d: real, n: nat) returns (rank: real)
    requires n == |c.pages| && n > 0
    requires forall q | q in c.pages :: q in c.links && q in ranks
    ensures rank == NewRank(c.pages, c.links, ranks, page, d)
  {
    rank := (1.0 - d) / (n as real);
    var i := 0;
    while i < |c.pages|
      invariant 0 <= i <= |c.pages|
      invariant rank == (1.0 - d) / (n as real) + Inflow(c.pages[..i], c.links, ranks, page, d)
    {
      var q := c.pages[i];
      assert c.pages[..i + 1][..i] == c.pages[..i];
      if page in c.links[q] {
        rank := rank + d * (ranks[q] / (|c.links[q]| as real));
      }
      i := i + 1;
    }
    assert c.pages[..|c.pages|] == c.pages;
  }

  /** The body of the loop over the pages in `iterate_pagerank`, for the
      page `pages[j]`: if it is a sink, it is made to link to every page,
      itself included, in place; then it is scored on the corpus as it now
      stands. */
  method ScorePage(c: Corpus, ghost original: Links, ranks: map<Page, real>, d: real, n: nat, j: nat) returns (rank: real)
    requires Keyed(c.pages, original) && j < |c.pages| && n == |c.pages|
    requires forall p | p in c.pages :: p in ranks
    requires c.links == NormalizedUpTo(c.pages, original, j)
    modifies c
    ensures c.links == NormalizedUpTo(c.pages, original, j + 1)
    ensures rank == NewRank(c.pages, NormalizedUpTo(c.pages, original, j + 1), ranks, c.pages[j], d)
  {
    var page := c.pages[j];
    NormalizedUpToKeys(c.pages, original, j);
    if c.links[page] == {} {
      c.links := c.links[page := c.links.Keys];
    }
    NormalizedUpToKeys(c.pages, original, j + 1);
    rank := Score(c, ranks, page, d, n);
  }

  /** Scoring page `pages[j]` extends the new ranks of the first `j` pages
      to those of the first `j + 1`. */
  lemma RoundPrefixStep(pages: seq<Page>, links: Links, ranks: map<Page, real>, d: real, j: nat,
                        next: map<Page, real>, rank: real)
    requires Distinct(pages) && forall q | q in pages :: q in ranks
    requires j < |pages| && next == RoundPrefix(pages, links, ranks, d, j)
    requires rank == NewRank(pages, NormalizedUpTo(pages, links, j + 1), ranks, pages[j], d)
    ensures pages[j] in ranks && pages[j] !in next
    ensures next[pages[j] := rank] == RoundPrefix(pages, links, ranks, d, j + 1)
  {
    DistinctAt(pages, j);
  }

  /** One pass of the `while not converged` loop: every page in dictionary
      order has its sink normalised, is scored, and is compared with its
      previous rank. */
  method Round(c: Corpus, ranks: map<Page, real>, d: real, n: nat) returns (next: map<Page, real>, converged: bool)
    requires Keyed(c.pages, c.links) && n == |c.pages|
    requires forall p | p in c.pages :: p in ranks
    modifies c
    ensures c.links == Normalized(c.pages, old(c.links))
    ensures next == RoundRanks(c.pages, old(c.links), ranks, d)
    ensures converged <==> Settled(c.pages, ranks, next)
  {
    ghost var original := c.links;
    next := map[];
    converged := true;
    var j := 0;
    while j < |c.pages|
      invariant 0 <= j <= |c.pages|
      invariant c.links == NormalizedUpTo(c.pages, original, j)
      invariant next == RoundPrefix(c.pages, original, ranks, d, j)
      invariant converged <==> Within(ranks, next)
    {
      var rank := ScorePage(c, original, ranks, d, n, j);
      var page := c.pages[j];
      RoundPrefixStep(c.pages, original, ranks, d, j, next, rank);
      WithinStep(ranks, next, page, rank);
      next := next[page := rank];
      if Abs(rank - ranks[page]) > Tolerance {
        converged := false;
      }
      j := j + 1;
    }
    assert c.pages[..|c.pages|] == c.pages;
  }

  /** Entry `k` of the history is the round run on entry `k - 1`, on the
      corpus after `k - 1` rounds. */
  ghost predicate Stepped(pages: seq<Page>, links: Links, d: real, history: seq<map<Page, real>>, k: nat)
  {
    && 0 < k < |history|
    && (forall p | p in pages :: p in history[k - 1])
    && history[k] == RoundRanks(pages, CorpusAfter(pages, links, k - 1), history[k - 1], d)
  }

  /** `history[k]` are the ranks after `k` rounds on the corpus `links`,
      for every `k` up to the last entry. */
  ghost predicate RunOf(pages: seq<Page>, links: Links, d: real, history: seq<map<Page, real>>)
  {
    && |history| >= 1
    && history[0] == InitialRanks(pages)
    && (forall k, p | 0 <= k < |history| && p in pages :: p in history[k])
    && (forall k | 0 < k < |history| :: Stepped(pages, links, d, history, k))
  }

  /** `iterate_pagerank(corpus, damping_factor)`, stopped after at most
      `maxRounds` rounds. It returns the ranks after the first round in
      which no rank moved by more than the tolerance, together with the
      number of rounds run; the corpus is left with every sink normalised.
      An empty corpus gives empty ranks after one round. */
  method IteratePagerank(c: Corpus, d: real, maxRounds: nat) returns (ranks: map<Page, real>, outcome: Outcome, rounds: nat)
    requires Keyed(c.pages, c.links) && maxRounds >= 1
    modifies c
    ensures 1 <= rounds <= maxRounds
    ensures c.links == Normalized(c.pages, old(c.links))
    ensures ranks == Rounds(c.pages, old(c.links), d, rounds)
    ensures outcome == Converged <==> SettledAt(c.pages, old(c.links), d, rounds)
    ensures outcome == RoundLimit ==> rounds == maxRounds
    ensures Unsettled(c.pages, old(c.links), d, rounds - 1)
  {
    ghost var original := c.links;
    var n := |c.links|;
    KeyedCard(c.pages, c.links);
    ranks := map p | p in c.pages :: 1.0 / (n as real);
    var converged := false;
    rounds := 0;
    ghost var history := [ranks];
    while !converged && rounds < maxRounds
      invariant rounds <= maxRounds
      invariant Keyed(c.pages, c.links)
      invariant Solving(c.pages, original, d, history, c.links, ranks, converged, rounds)
      decreases maxRounds - rounds
    {
      ghost var before := c.links;
      var next, settled := Round(c, ranks, d, n);
      SolvingStep(c.pages, original, d, history, before, ranks, converged, rounds, next, settled);
      history := history + [next];
      ranks, converged, rounds := next, settled, rounds + 1;
    }
    outcome := if converged then Converged else RoundLimit;
    SolvingDone(c.pages, old(c.links), d, history, c.links, ranks, converged, rounds);
  }

  /** The solver's state after `rounds` rounds on the crawled corpus
      `links`: the corpus it holds, the ranks with the history of all
      earlier ones, and whether the last round moved no rank by more than
      the tolerance, while every round before it did. */
  ghost predicate Solving(pages: seq<Page>, links: Links, d: real, history: seq<map<Page, real>>,
                          corpus: Links, ranks: map<Page, real>, converged: bool, rounds: nat)
  {
    && Keyed(pages, links)
    && corpus == CorpusAfter(pages, links, rounds)
    && RunOf(pages, links, d, history) && |history| == rounds + 1 && ranks == history[rounds]
    && Progress(pages, history, converged, rounds)
  }

  /** The solver has converged exactly when its last round moved no rank by
      more than the tolerance, and every round before the last one moved
      some rank. */
  ghost predicate Progress(pages: seq<Page>, history: seq<map<Page, real>>, converged: bool, rounds: nat)
    requires rounds < |history|
    requires forall k, p | 0 <= k < |history| && p in pages :: p in history[k]
  {
    && (rounds == 0 ==> !converged)
    && (rounds >= 1 ==> (converged <==> Settled(pages, history[rounds - 1], history[rounds])) && Moving(pages, history, rounds - 1))
  }

  /** A round run from a state that has not converged gives the state after
      one round more. */
  lemma SolvingStep(pages: seq<Page>, links: Links, d: real, history: seq<map<Page, real>>,
                    corpus: Links, ranks: map<Page, real>, converged: bool, rounds: nat,
                    next: map<Page, real>, settled: bool)
    requires Solving(pages, links, d, history, corpus, ranks, converged, rounds) && !converged
    requires next == RoundRanks(pages, corpus, ranks, d)
    requires settled <==> Settled(pages, ranks, next)
    ensures Keyed(pages, Normalized(pages, corpus))
    ensures Solving(pages, links, d, history + [next], Normalized(pages, corpus), next, settled, rounds + 1)
  {
    if rounds >= 1 {
      MovingStep(pages, history, rounds - 1);
    }
    NormalizedUpToKeys(pages, links, |pages|);
    NormalizedUpToKeys(pages, corpus, |pages|);
    CorpusAfterStep(pages, links, rounds);
    RunOfStep(pages, links, d, history, next);
    MovingExtend(pages, history, rounds, next);
  }

  /** The final state: the corpus is normalised, the ranks are those after
      the rounds run, and every round before the last one moved some rank
      by more than the tolerance. */
  lemma SolvingDone(pages: seq<Page>, links: Links, d: real, history: seq<map<Page, real>>,
                    corpus: Links, ranks: map<Page, real>, converged: bool, rounds: nat)
    requires Solving(pages, links, d, history, corpus, ranks, converged, rounds) && rounds >= 1
    ensures corpus == Normalized(pages, links)
    ensures ranks == Rounds(pages, links, d, rounds)
    ensures converged <==> SettledAt(pages, links, d, rounds)
    ensures Unsettled(pages, links, d, rounds - 1)
  {
    RunOfIsRounds(pages, links, d, history);
    MovingIsUnsettled(pages, links, d, history, rounds - 1);
  }

  /** A round run on the ranks after the last recorded round extends the
      history by one entry. */
  lemma RunOfStep(pages: seq<Page>, links: Links, d: real, history: seq<map<Page, real>>, next: map<Page, real>)
    requires RunOf(pages, links, d, history)
    requires next == RoundRanks(pages, CorpusAfter(pages, links, |history| - 1), history[|history| - 1], d)
    ensures RunOf(pages, links, d, history + [next])
  {
    var extended := history + [next];
    assert pages[..|pages|] == pages;
    forall k | 0 < k < |extended|
      ensures Stepped(pages, links, d, extended, k)
    {
      if k < |history| {
        assert Stepped(pages, links, d, history, k);
        assert extended[k] == history[k] && extended[k - 1] == history[k - 1];
      }
    }
  }

  /** Entry `k` of a recorded history is the ranks after `k` rounds. */
  lemma {:induction false} RunOfAt(pages: seq<Page>, links: Links, d: real, history: seq<map<Page, real>>, k: nat)
    requires RunOf(pages, links, d, history) && k < |history|
    ensures history[k] == Rounds(pages, links, d, k)
  {
    if k > 0 {
      RunOfAt(pages, links, d, history, k - 1);
      assert Stepped(pages, links, d, history, k);
    }
  }

  /** The recorded history is the sequence of rounds: its entries are the
      ranks after 0, 1, 2, ... rounds. */
  lemma RunOfIsRounds(pages: seq<Page>, links: Links, d: real, history: seq<map<Page, real>>)
    requires RunOf(pages, links, d, history)
    ensures forall k | 0 <= k < |history| :: history[k] == Rounds(pages, links, d, k)
  {
    forall k | 0 <= k < |history|
      ensures history[k] == Rounds(pages, links, d, k)
    {
      RunOfAt(pages, links, d, history, k);
    }
  }

  /** Round `i` of the history moved some rank by more than the tolerance. */
  ghost predicate Moved(pages: seq<Page>, history: seq<map<Page, real>>, i: nat)
  {
    && 0 < i < |history|
    && (forall p | p in pages :: p in history[i - 1] && p in history[i])
    && !Settled(pages, history[i - 1], history[i])
  }

  /** Rounds `1` to `k` of the history each moved some rank by more than
      the tolerance. */
  ghost predicate Moving(pages: seq<Page>, history: seq<map<Page, real>>, k: nat)
  {
    && k < |history|
    && (forall i | 0 < i <= k :: Moved(pages, history, i))
  }

  /** A round that moved some rank extends the moving rounds by one. */
  lemma MovingStep(pages: seq<Page>, history: seq<map<Page, real>>, k: nat)
    requires Moving(pages, history, k) && k + 1 < |history|
    requires forall p | p in pages :: p in history[k] && p in history[k + 1]
    requires !Settled(pages, history[k], history[k + 1])
    ensures Moving(pages, history, k + 1)
  {
    assert Moved(pages, history, k + 1);
  }

  /** Recording one more round keeps the moving rounds. */
  lemma MovingExtend(pages: seq<Page>, history: seq<map<Page, real>>, k: nat, next: map<Page, real>)
    requires Moving(pages, history, k)
    ensures Moving(pages, history + [next], k)
  {
    var extended := history + [next];
    forall i | 0 < i <= k
      ensures Moved(pages, extended, i)
    {
      assert Moved(pages, history, i);
      assert extended[i] == history[i] && extended[i - 1] == history[i - 1];
    }
  }

  /** Moving rounds of a recorded history are unsettled rounds. */
  lemma MovingIsUnsettled(pages: seq<Page>, links: Links, d: real, history: seq<map<Page, real>>, k: nat)
    requires RunOf(pages, links, d, history) && Moving(pages, history, k)
    ensures Unsettled(pages, links, d, k)
  {
    RunOfIsRounds(pages, links, d, history);
    forall i | 1 <= i <= k
      ensures !SettledAt(pages, links, d, i)
    {
      assert Moved(pages, history, i);
    }
  }

  /** A round normalises the corpus it starts on, which gives the corpus
      after one round more: the rounds after the first find no sink left,
      so normalising again changes nothing. */
  lemma CorpusAfterStep(pages: seq<Page>, links: Links, k: nat)
    requires Keyed(pages, links)
    ensures Normalized(pages, CorpusAfter(pages, links, k)) == CorpusAfter(pages, links, k + 1)
  {
    if k > 0 {
      NormalizedTwice(pages, links);
    }
  }

  /** The sink test of `iterate_pagerank`, run over every page before the
      first round: each sink is made to link to every page, itself
      included, in place. */
  method NormalizeSinks(c: Corpus)
    requires Keyed(c.pages, c.links)
    modifies c
    ensures c.links == Normalized(c.pages, old(c.links))
  {
    ghost var original := c.links;
    var j := 0;
    while j < |c.pages|
      invariant 0 <= j <= |c.pages|
      invariant c.links == NormalizedUpTo(c.pages, original, j)
    {
      var page := c.pages[j];
      NormalizedUpToKeys(c.pages, original, j);
      if c.links[page] == {} {
        c.links := c.links[page := c.links.Keys];
      }
      j := j + 1;
    }
  }

  /** The corrected `iterate_pagerank`: normalise every sink first, then
      iterate on the normalised corpus, where every round, the first
      included, conserves the total rank. */
  method IteratePagerankNormalizedFirst(c: Corpus, d: real, maxRounds: nat) returns (ranks: map<Page, real>, outcome: Outcome, rounds: nat)
    requires Keyed(c.pages, c.links) && maxRounds >= 1
    modifies c
    ensures 1 <= rounds <= maxRounds
    ensures c.links == Normalized(c.pages, old(c.links))
    ensures ranks == Rounds(c.pages, Normalized(c.pages, old(c.links)), d, rounds)
    ensures outcome == Converged <==> SettledAt(c.pages, Normalized(c.pages, old(c.links)), d, rounds)
    ensures outcome == RoundLimit ==> rounds == maxRounds
    ensures Unsettled(c.pages, Normalized(c.pages, old(c.links)), d, rounds - 1)
  {
    ghost var original := c.links;
    NormalizeSinks(c);
    NormalizedUpToKeys(c.pages, original, |c.pages|);
    ranks, outcome, rounds := IteratePagerank(c, d, maxRounds);
    NormalizedTwice(c.pages, original);
  }
}
