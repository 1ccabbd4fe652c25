/** The sampling estimator: a random surfer walks the corpus `n` steps,
    following the transition model, and each page's rank is the share of
    steps spent on it.

    The randomness is passed in. `random.choice` over the keys is the index
    `start` it draws. `random.choices` with weights draws one `u` in [0, 1)
    and returns the entry at `bisect_right(cumulative, u * total, 0, N - 1)`
    over the running sums of the weights; `PickFrom` is that search, written
    as a scan over the running sums, which agrees with the binary search
    because non-negative weights give non-decreasing running sums. */
module Sampling {
  import opened Sums
  import opened Graph
  import opened Transitions

  /** The index `random.choices` returns for the point `x` on the running
      sums of the weights of `ks`, starting the search at `i`: the first
      index whose running sum exceeds `x`, and the last index if none does. */
  function PickFrom(ks: seq<Page>, w: map<Page, real>, x: real, i: nat): (j: nat)
    requires forall k | k in ks :: k in w
    requires i < |ks|
    ensures i <= j < |ks|
    decreases |ks| - i
  {
    if i == |ks| - 1 || x < Sum(ks[..i + 1], w) then i else PickFrom(ks, w, x, i + 1)
  }

  /** A point strictly inside the total weight, at or past the running sum
      before `i`, lands on an entry of positive weight. */
  lemma {:induction false} PickFromPositive(ks: seq<Page>, w: map<Page, real>, x: real, i: nat)
    requires forall k | k in ks :: k in w
    requires i < |ks|
    requires Sum(ks[..i], w) <= x < Sum(ks, w)
    ensures w[ks[PickFrom(ks, w, x, i)]] > 0.0
    decreases |ks| - i
  {
    assert ks[..i + 1][..i] == ks[..i];
    if i == |ks| - 1 {
      assert ks[..i + 1] == ks;
    } else if x >= Sum(ks[..i + 1], w) {
      PickFromPositive(ks, w, x, i + 1);
    }
  }

  /** `random.choices(population, weights)` when the underlying
      `random.random()` returns `u`: the point `u * total` on the running
      sums of the weights picks the entry. */
  function Choice(population: seq<Page>, weights: map<Page, real>, u: real): (chosen: Page)
    requires population != [] && forall k | k in population :: k in weights
    ensures chosen in population
  {
    population[PickFrom(population, weights, u * Sum(population, weights), 0)]
  }

  /** The page the surfer moves to from `current` when `random.choices`
      draws `u`, with the weights of the transition model of `current` in
      dictionary order. */
  function NextPage(pages: seq<Page>, links: Links, d: real, current: Page, u: real): (next: Page)
    requires Keyed(pages, links) && current in links
    ensures next in links
  {
    Choice(pages, Transition(links, current, d), u)
  }

  /** With link targets inside the corpus, `0 <= d <= 1` and a draw in
      [0, 1), the surfer only moves to a page of positive probability. */
  lemma NextPagePositive(pages: seq<Page>, links: Links, d: real, current: Page, u: real)
    requires Keyed(pages, links) && Closed(links) && 0.0 <= d <= 1.0
    requires current in links && 0.0 <= u < 1.0
    ensures Transition(links, current, d)[NextPage(pages, links, d, current, u)] > 0.0
  {
    var row := Transition(links, current, d);
    TransitionIsDistribution(pages, links, current, d);
    Unscaled(u, Sum(pages, row));
    assert pages[..0] == [];
    PickFromPositive(pages, row, u * Sum(pages, row), 0);
  }

  lemma Unscaled(u: real, total: real)
    requires total == 1.0
    ensures u * total == u
  {
  }

  /** The random draws are what `random.random()` can return. */
  predicate Draws(draws: seq<real>)
  {
    forall i | 0 <= i < |draws| :: 0.0 <= draws[i] < 1.0
  }

  /** The pages visited in the first `k + 1` samples: the start page, then
      one move per draw, each drawn from the transition model of the page
      before it. */
  function Walk(pages: seq<Page>, links: Links, d: real, start: Page, draws: seq<real>, k: nat): (w: seq<Page>)
    requires Keyed(pages, links) && start in links && k <= |draws|
    ensures |w| == k + 1 && w[0] == start
    ensures forall i | 0 <= i < |w| :: w[i] in links
  {
    if k == 0 then [start]
    else
      var before := Walk(pages, links, d, start, draws, k - 1);
      before + [NextPage(pages, links, d, before[k - 1], draws[k - 1])]
  }

  /** Move `i` of `w` is the page the matching draw picks from the page
      before it. */
  ghost predicate Moves(pages: seq<Page>, links: Links, d: real, draws: seq<real>, w: seq<Page>, i: nat)
  {
    && Keyed(pages, links)
    && 0 < i < |w| && i <= |draws|
    && w[i - 1] in links
    && w[i] == NextPage(pages, links, d, w[i - 1], draws[i - 1])
  }

  /** `w` is a walk the surfer can take: it starts at `start`, and each
      page after the first is the move drawn by the matching draw from the
      page before it. */
  ghost predicate WalkOf(pages: seq<Page>, links: Links, d: real, start: Page, draws: seq<real>, w: seq<Page>)
  {
    && Keyed(pages, links)
    && 1 <= |w| <= |draws| + 1
    && w[0] == start
    && (forall i | 0 <= i < |w| :: w[i] in links)
    && (forall i | 0 < i < |w| :: Moves(pages, links, d, draws, w, i))
  }

  /** One more move drawn from the last page extends a walk of the surfer. */
  lemma WalkOfStep(pages: seq<Page>, links: Links, d: real, start: Page, draws: seq<real>, w: seq<Page>, next: Page)
    requires WalkOf(pages, links, d, start, draws, w) && |w| <= |draws|
    requires next == NextPage(pages, links, d, w[|w| - 1], draws[|w| - 1])
    ensures WalkOf(pages, links, d, start, draws, w + [next])
  {
    var extended := w + [next];
    forall i | 0 < i < |extended|
      ensures Moves(pages, links, d, draws, extended, i)
    {
      if i < |w| {
        assert Moves(pages, links, d, draws, w, i);
        assert extended[i] == w[i] && extended[i - 1] == w[i - 1];
      }
    }
  }

  /** The recursive walk is a walk of the surfer. */
  lemma {:induction false} WalkIsWalkOf(pages: seq<Page>, links: Links, d: real, start: Page, draws: seq<real>, k: nat)
    requires Keyed(pages, links) && start in links && k <= |draws|
    ensures WalkOf(pages, links, d, start, draws, Walk(pages, links, d, start, draws, k))
  {
    if k > 0 {
      WalkIsWalkOf(pages, links, d, start, draws, k - 1);
      var before := Walk(pages, links, d, start, draws, k - 1);
      WalkOfStep(pages, links, d, start, draws, before, NextPage(pages, links, d, before[k - 1], draws[k - 1]));
    }
  }

  /** A walk of the surfer is the recursive walk of its length: the draws
      decide every move. */
  lemma {:induction false} WalkOfIsWalk(pages: seq<Page>, links: Links, d: real, start: Page, draws: seq<real>, w: seq<Page>)
    requires start in links && WalkOf(pages, links, d, start, draws, w)
    ensures w == Walk(pages, links, d, start, draws, |w| - 1)
    decreases |w|
  {
    var k := |w| - 1;
    if k > 0 {
      var before := w[..k];
      WalkOfPrefix(pages, links, d, start, draws, w, k);
      WalkOfIsWalk(pages, links, d, start, draws, before);
      assert before == Walk(pages, links, d, start, draws, k - 1);
      assert Moves(pages, links, d, draws, w, k);
      assert w[k] == NextPage(pages, links, d, before[k - 1], draws[k - 1]);
      assert w == before + [w[k]];
    } else {
      assert w == [start];
    }
  }

  /** A non-empty prefix of a walk of the surfer is a walk of the surfer. */
  lemma WalkOfPrefix(pages: seq<Page>, links: Links, d: real, start: Page, draws: seq<real>, w: seq<Page>, k: nat)
    requires WalkOf(pages, links, d, start, draws, w) && 1 <= k <= |w|
    ensures WalkOf(pages, links, d, start, draws, w[..k])
  {
    forall i | 0 < i < k
      ensures Moves(pages, links, d, draws, w[..k], i)
    {
      assert Moves(pages, links, d, draws, w, i);
    }
  }

  /** Every move of a walk of the surfer has positive probability under
      the transition model: with `0 <= d <= 1` the surfer never lands on a
      page the model rules out. */
  lemma WalkFollowsTransitions(pages: seq<Page>, links: Links, d: real, start: Page, draws: seq<real>, w: seq<Page>, i: nat)
    requires Closed(links) && 0.0 <= d <= 1.0 && Draws(draws)
    requires WalkOf(pages, links, d, start, draws, w) && 0 < i < |w|
    ensures Transition(links, w[i - 1], d)[w[i]] > 0.0
  {
    assert Moves(pages, links, d, draws, w, i);
    NextPagePositive(pages, links, d, w[i - 1], draws[i - 1]);
  }

  /** How often page `p` was visited. */
  function Visits(w: seq<Page>, p: Page): (v: nat)
    ensures v > 0 <==> p in w
    ensures v <= |w|
  {
    multiset(w)[p]
  }

  /** The number of samples actually drawn: the start page is always
      sampled, even when `n` is below 1. */
  function Samples(n: int): nat
  {
    if n < 1 then 1 else n
  }

  /** The visit counts turned into ranks: each count divided by `n`. */
  function Frequencies(pages: seq<Page>, w: seq<Page>, n: int): (ranks: map<Page, real>)
    requires n != 0
    ensures forall p :: p in ranks <==> p in pages
  {
    map p | p in pages :: (Visits(w, p) as real) / (n as real)
  }

  /** What `sample_pagerank` returns for a start index, its draws and `n`:
      the visit frequencies of the walk those draws decide. */
  function Estimate(pages: seq<Page>, links: Links, d: real, start: nat, draws: seq<real>, n: int): (ranks: map<Page, real>)
    requires Keyed(pages, links) && start < |pages| && n != 0 && Samples(n) - 1 <= |draws|
    ensures forall p :: p in ranks <==> p in pages
  {
    Frequencies(pages, Walk(pages, links, d, pages[start], draws, Samples(n) - 1), n)
  }

  /** `sample_pagerank(corpus, damping_factor, n)`. The counts start at 0 for
      every key; the start page and each moved-to page add one; at the end
      every count is divided by `n`. An empty corpus fails the start choice,
      and `n == 0` fails that division. The corpus is only read. */
  method SamplePagerank(c: Corpus, d: real, n: int, start: nat, draws: seq<real>) returns (r: Result<map<Page, real>>)
    requires c.Valid()
    requires |c.pages| > 0 ==> start < |c.pages|
    requires Samples(n) - 1 <= |draws|
    ensures |c.pages| == 0 ==> r == Failure(EmptyCorpus)
    ensures |c.pages| > 0 && n == 0 ==> r == Failure(ZeroSamples)
    ensures |c.pages| > 0 && n != 0 ==>
              r == Success(Estimate(c.pages, c.links, d, start, draws, n))
  {
    if |c.pages| == 0 {
      return Failure(EmptyCorpus);
    }
    ghost var walk;
    var counts;
    counts, walk := CountVisits(c, d, n, start, draws);
    if n == 0 {
      return Failure(ZeroSamples);
    }
    var pagerank := map p | p in counts :: (counts[p] as real) / (n as real);
    CountsAreEstimate(c.pages, c.links, d, start, draws, n, walk, counts);
    return Success(pagerank);
  }

  /** The sampling loop of `sample_pagerank`: the visit counts of the walk
      that starts at `pages[start]` and takes `n - 1` moves, each drawn by
      `random.choices` from the output of the transition model. */
  method CountVisits(c: Corpus, d: real, n: int, start: nat, draws: seq<real>) returns (counts: map<Page, nat>, ghost walk: seq<Page>)
    requires Keyed(c.pages, c.links) && Closed(c.links) && start < |c.pages| && Samples(n) - 1 <= |draws|
    ensures WalkOf(c.pages, c.links, d, c.pages[start], draws, walk) && |walk| == Samples(n)
    ensures forall p :: p in counts <==> p in c.pages
    ensures forall p | p in counts :: counts[p] == Visits(walk, p)
  {
    counts := map p | p in c.pages :: 0;
    var current := c.pages[start];
    counts := counts[current := counts[current] + 1];
    walk := [current];
    var i := 1;
    while i < n
      invariant 1 <= i <= Samples(n) && |walk| == i
      invariant WalkOf(c.pages, c.links, d, c.pages[start], draws, walk)
      invariant current == walk[i - 1]
      invariant forall p :: p in counts <==> p in c.pages
      invariant forall p | p in counts :: counts[p] == Visits(walk, p)
    {
      var probabilities := TransitionModel(c, current, d);
      var prob := probabilities.value;
      var next := Choice(c.pages, prob, draws[i - 1]);
      WalkOfStep(c.pages, c.links, d, c.pages[start], draws, walk, next);
      VisitsStep(counts, walk, next);
      counts := counts[next := counts[next] + 1];
      walk := walk + [next];
      current := next;
      i := i + 1;
    }
  }

  /** Counting one more visit of `next` gives the visit counts of the walk
      extended by `next`. */
  lemma VisitsStep(counts: map<Page, nat>, w: seq<Page>, next: Page)
    requires next in counts
    requires forall p | p in counts :: counts[p] == Visits(w, p)
    ensures forall p | p in counts[next := counts[next] + 1] ::
              counts[next := counts[next] + 1][p] == Visits(w + [next], p)
  {
    assert multiset(w + [next]) == multiset(w) + multiset{next};
  }

  /** Dividing the visit counts of the surfer's walk of `n` samples by `n`
      gives the estimate. */
  lemma CountsAreEstimate(pages: seq<Page>, links: Links, d: real, start: nat, draws: seq<real>, n: int,
                          walk: seq<Page>, counts: map<Page, nat>)
    requires Keyed(pages, links) && start < |pages| && n != 0 && Samples(n) - 1 <= |draws|
    requires WalkOf(pages, links, d, pages[start], draws, walk) && |walk| == Samples(n)
    requires forall p :: p in counts <==> p in pages
    requires forall p | p in counts :: counts[p] == Visits(walk, p)
    ensures (map p | p in counts :: (counts[p] as real) / (n as real)) == Estimate(pages, links, d, start, draws, n)
  {
    WalkOfIsWalk(pages, links, d, pages[start], draws, walk);
    assert walk == Walk(pages, links, d, pages[start], draws, Samples(n) - 1);
    CountsAreFrequencies(pages, walk, n, counts);
  }

  /** Dividing the visit counts of a walk by `n` gives its frequencies. */
  lemma CountsAreFrequencies(pages: seq<Page>, walk: seq<Page>, n: int, counts: map<Page, nat>)
    requires n != 0
    requires forall p :: p in counts <==> p in pages
    requires forall p | p in counts :: counts[p] == Visits(walk, p)
    ensures (map p | p in counts :: (counts[p] as real) / (n as real)) == Frequencies(pages, walk, n)
  {
  }

  /** The visit counts of a walk over the pages add up to its length. */
  lemma {:induction false} VisitsSum(ks: seq<Page>, w: seq<Page>, counts: map<Page, real>)
    requires Distinct(ks)
    requires forall p | p in ks :: p in counts && counts[p] == Visits(w, p) as real
    ensures Sum(ks, counts) == CountIn(w, Elems(ks)) as real
  {
    if ks != [] {
      var init, last := ks[..|ks| - 1], ks[|ks| - 1];
      VisitsSum(init, w, counts);
      MultisetCount(w, last);
      assert Elems(ks) == Elems(init) + {last};
      assert last !in Elems(init);
      CountInAdd(w, Elems(init), last);
    } else {
      assert Elems(ks) == {};
      CountInEmpty(w);
    }
  }

  /** The visit counts of a walk that stays on the pages add up to the
      number of samples it took. */
  lemma CountsSumToSamples(pages: seq<Page>, w: seq<Page>)
    requires Distinct(pages) && forall q | q in w :: q in pages
    ensures Sum(pages, map p | p in pages :: Visits(w, p) as real) == |w| as real
  {
    VisitsSum(pages, w, map p | p in pages :: Visits(w, p) as real);
    CountInAll(w, Elems(pages));
  }

  /** For a walk of `n >= 1` pages, every frequency lies in [0, 1] and the
      frequencies sum to 1 in dictionary order. */
  lemma FrequenciesIsDistribution(pages: seq<Page>, w: seq<Page>, n: int)
    requires Distinct(pages) && n >= 1 && |w| == n
    requires forall q | q in w :: q in pages
    ensures forall p | p in pages :: 0.0 <= Frequencies(pages, w, n)[p] <= 1.0
    ensures Sum(pages, Frequencies(pages, w, n)) == 1.0
  {
    var ranks := Frequencies(pages, w, n);
    var counts := map p | p in pages :: Visits(w, p) as real;
    forall p | p in pages
      ensures 0.0 <= ranks[p] <= 1.0
    {
      MultisetCount(w, p);
      Fraction(Visits(w, p) as real, n as real);
    }
    CountsSumToSamples(pages, w);
    SumDivided(pages, counts, ranks, n as real);
    Whole(n as real, Sum(pages, counts));
  }

  lemma Whole(total: real, s: real)
    requires total != 0.0 && s == total
    ensures s / total == 1.0
  {
  }

  /** For `n >= 1` the estimate is the visit share of each page over a walk
      of exactly `n` pages, every share lies in [0, 1], and the shares sum
      to 1 in dictionary order. */
  lemma EstimateIsDistribution(pages: seq<Page>, links: Links, d: real, start: nat, draws: seq<real>, n: int)
    requires Keyed(pages, links) && start < |pages| && n >= 1 && n - 1 <= |draws|
    ensures var w := Walk(pages, links, d, pages[start], draws, Samples(n) - 1);
            var ranks := Estimate(pages, links, d, start, draws, n);
            && |w| == n
            && (forall p | p in ranks :: ranks[p] == (Visits(w, p) as real) / (n as real))
            && (forall p | p in ranks :: 0.0 <= ranks[p] <= 1.0)
            && Sum(pages, ranks) == 1.0
  {
    var w := Walk(pages, links, d, pages[start], draws, Samples(n) - 1);
    FrequenciesIsDistribution(pages, w, n);
  }

  /** A count no greater than a positive total is a fraction in [0, 1]. */
  lemma Fraction(count: real, total: real)
    requires 0.0 <= count <= total && total > 0.0
    ensures 0.0 <= count / total <= 1.0
  {
  }

  /** Dividing every term by `n` divides the sum by `n`. */
  lemma {:induction false} SumDivided(ks: seq<Page>, m: map<Page, real>, f: map<Page, real>, n: real)
    requires n != 0.0
    requires forall k | k in ks :: k in m && k in f && f[k] == m[k] / n
    ensures Sum(ks, f) == Sum(ks, m) / n
  {
    if ks != [] {
      var init, last := ks[..|ks| - 1], ks[|ks| - 1];
      SumDivided(init, m, f, n);
      DivAdd(Sum(init, m), m[last], n);
    }
  }

  lemma DivAdd(a: real, b: real, n: real)
    requires n != 0.0
    ensures a / n + b / n == (a + b) / n
  {
  }
}
