# PageRank: the ranking engine

This project models the ranking engine of a small PageRank program. The
engine gets a *corpus*: a map from each page name to the set of pages it
links to. A crawler builds it so that every link target is a page and no
page links to itself. The engine computes each page's rank in two ways.

- **Transition model** (`transition_model`). From the current page, a
  random surfer follows one of its links with probability `d` (the
  damping factor), chosen uniformly. Otherwise it jumps to any page,
  chosen uniformly. A page without links (a *sink*) jumps uniformly.
- **Sampling** (`sample_pagerank`). The surfer starts on a random page and
  takes `n - 1` moves, each drawn from the transition model. A page's rank
  is the share of the `n` samples spent on it.
- **Iteration** (`iterate_pagerank`). The ranks start at `1 / N`. Each
  round gives every page `(1 - d) / N`, plus `d * rank(q) / |links(q)|`
  from every page `q` that links to it. The rounds repeat until no rank
  moves by more than 0.001. Sinks are rewritten to link to every page,
  themselves included. This happens in place in the caller's corpus, and
  lazily: the first round rewrites a sink only when it reaches that sink.

The Dafny modules follow that structure:

- `Sums` (`sums.dfy`): sums and counts over sequences of keys.
- `Graph` (`graph.dfy`): the corpus, the crawler's invariant, sink
  normalisation, and the mutable `Corpus` class.
- `Transitions` (`transition.dfy`): the transition model.
- `Sampling` (`sampling.dfy`): the sampling estimator.
- `Iteration` (`iteration.dfy`): the iterative solver.
- `RankMass` (`mass.dfy`): what the solver does to the total rank.

Modelling choices:

- Ranks are real numbers, not floating point.
- The corpus keeps its insertion order as the sequence `pages`. That order
  is the order the code iterates the dictionary in, and the first round's
  result depends on it.
- The randomness is passed in, in the form `random` gives it. The start
  page's index stands for `random.choice`. Each `random.choices` call is
  one draw `u` in [0, 1). The picked entry is the first whose running
  weight sum exceeds `u * total`, which is what `bisect_right` over the
  running sums returns.
- The solver's unbounded loop carries a round limit (`maxRounds`). Its
  result says whether it stopped because the ranks settled or because it
  reached the limit.

## Model

| member | source | states |
|---|---|---|
| Graph.KeyedCard | pagerank/pagerank.py:125 | The corpus has as many keys as `pages` lists, so `n` is the page count. |
| Graph.NormalizeAt | pagerank/pagerank.py:135-136 | The sink test for one page: a page with no links is made to link to every page, itself included. Any other corpus is left as it is. |
| Graph.NormalizedUpTo | pagerank/pagerank.py:134-136 | The corpus after the loop has applied the sink test to the first `j` pages, in dictionary order. Its shape is stated by `NormalizedUpToShape`. |
| Graph.Normalized | pagerank/pagerank.py:134-136 | The corpus after the sink test has run over every page. Its shape is stated by `NormalizedShape` and `NormalizedTwice`. |
| Graph.NormalizedUpToKeys | pagerank/pagerank.py:134-136 | Rewriting sinks never adds or removes a key. |
| Graph.NormalizedUpToShape | pagerank/pagerank.py:134-136 | After the first `j` pages, a sink among them links to every page. Every other page keeps the crawler's set. |
| Graph.NormalizedShape | pagerank/pagerank.py:134-136 | After a full pass: a sink links to all pages including itself, a linked page keeps its set, no sink remains, and link targets are still pages. |
| Graph.NormalizedUpToNoSinks | pagerank/pagerank.py:135 | On a corpus without sinks the rewrite changes nothing. |
| Graph.NormalizedTwice | pagerank/pagerank.py:134-136 | Normalising twice is normalising once, so rounds after the first find no sink. |
| Graph.Corpus.constructor | pagerank/pagerank.py:38-45 | A corpus is built from a crawl result: distinct keys, targets inside the corpus, no self links. |
| Transitions.TransitionModel | pagerank/pagerank.py:50-79 | A key gets the transition distribution. A page that is not a key fails the lookup at line 63. |
| Transitions.Transition | pagerank/pagerank.py:59-79 | The row `transition_model` returns: `1 / N` per page for a sink, and otherwise `(1 - d) / N` per page plus `d` divided by the number of links per linked page. Its properties are `TransitionKeys`, `SinkIsUniform`, `LinkedShare` and `TransitionIsDistribution`. |
| Transitions.TransitionKeys | pagerank/pagerank.py:67-77 | A row has exactly one entry per page of the corpus. |
| Transitions.UniformRow | pagerank/pagerank.py:66-69 | A sink's row gives every page the same share. |
| Transitions.JumpOrFollowRow | pagerank/pagerank.py:71-78 | A linked page's row gives every page the jump share, plus the follow share for each linked page. |
| Transitions.SinkIsUniform | pagerank/pagerank.py:66-69 | A sink's distribution is `1 / N` per page, whatever the damping factor. |
| Transitions.LinkedShare | pagerank/pagerank.py:71-77 | For `d > 0` a page gets more than `(1 - d) / N` if and only if the current page links to it. The surplus is then `d / |links|`. |
| Transitions.TransitionIsDistribution | pagerank/pagerank.py:50-79 | For `0 <= d <= 1`, every row is a probability distribution: non-negative, summing to 1. |
| Sampling.PickFrom | pagerank/pagerank.py:102-106 | The weighted pick returns an index of the population. |
| Sampling.PickFromPositive | pagerank/pagerank.py:102-106 | A point strictly inside the total weight lands on an entry of positive weight. |
| Sampling.Choice | pagerank/pagerank.py:102-106 | `random.choices` returns a member of the population. |
| Sampling.NextPage | pagerank/pagerank.py:100-106 | The surfer always moves to a page of the corpus. |
| Sampling.NextPagePositive | pagerank/pagerank.py:100-106 | For `0 <= d <= 1` and a draw in [0, 1), the surfer only moves to a page of positive probability. |
| Sampling.Walk | pagerank/pagerank.py:96-109 | The walk of `k` moves has `k + 1` pages, starts at the start page and stays in the corpus. |
| Sampling.WalkOfStep | pagerank/pagerank.py:99-109 | One move drawn from the last page extends a walk of the surfer. |
| Sampling.WalkIsWalkOf | pagerank/pagerank.py:96-109 | The recursive walk is a walk of the surfer, move by move. |
| Sampling.WalkOfPrefix | pagerank/pagerank.py:96-109 | Every non-empty prefix of a walk of the surfer is itself a walk of the surfer. |
| Sampling.WalkOfIsWalk | pagerank/pagerank.py:96-109 | The draws decide the walk: any walk of the surfer is the recursive walk of its length. |
| Sampling.WalkFollowsTransitions | pagerank/pagerank.py:100-109 | Every move of a walk has positive probability under the transition model. |
| Sampling.Visits | pagerank/pagerank.py:94-108 | A page's count is positive if and only if the walk visited it, and never exceeds the walk's length. `CountsSumToSamples` adds the counts up. |
| Sampling.Samples | pagerank/pagerank.py:96-99 | The number of samples taken: the start page, plus one per value of `range(1, n)`. That is `n` for `n >= 1` and 1 otherwise. |
| Sampling.Frequencies | pagerank/pagerank.py:111 | The estimate has exactly the corpus's keys. |
| Sampling.Estimate | pagerank/pagerank.py:84-112 | The estimate has exactly the corpus's keys. |
| Sampling.SamplePagerank | pagerank/pagerank.py:84-112 | An empty corpus fails the start choice, and `n == 0` fails the division. Otherwise the result is the visit counts of the drawn walk divided by `n`. |
| Sampling.CountVisits | pagerank/pagerank.py:94-110 | The counts are, page by page, the visits of a walk of `max(n, 1)` samples drawn by the transition model. |
| Sampling.VisitsStep | pagerank/pagerank.py:108 | Adding one to the moved-to page's count gives the counts of the extended walk. |
| Sampling.CountsAreEstimate | pagerank/pagerank.py:111 | Dividing the loop's counts by `n` gives the estimate. |
| Sampling.CountsAreFrequencies | pagerank/pagerank.py:111 | Dividing a walk's visit counts by `n` gives its frequencies. |
| Sampling.VisitsSum | pagerank/pagerank.py:94-110 | The visit counts over the pages add up to the number of samples on those pages. |
| Sampling.CountsSumToSamples | pagerank/pagerank.py:94-109 | The visit counts of a walk that stays on the pages add up to its number of samples. |
| Sampling.SumDivided | pagerank/pagerank.py:111 | Dividing every count by `n` divides their sum by `n`. |
| Sampling.FrequenciesIsDistribution | pagerank/pagerank.py:89-91 | For a walk of `n >= 1` pages, every frequency lies in [0, 1] and together they sum to 1. |
| Sampling.EstimateIsDistribution | pagerank/pagerank.py:84-112 | For `n >= 1` the estimate is each page's visit share of exactly `n` samples. Each share lies in [0, 1] and the shares sum to 1. |
| Iteration.WithinStep | pagerank/pagerank.py:144-145 | Scoring one more page keeps `converged` exactly when its rank moved by at most 0.001. |
| Iteration.Share | pagerank/pagerank.py:141 | What page `q` passes on to each page it links to: `d * rank(q)` divided by the number of pages `q` links to. |
| Iteration.Inflow | pagerank/pagerank.py:139-141 | What the pages pass on to `page`, added up in dictionary order. |
| Iteration.NewRank | pagerank/pagerank.py:138-141 | A page's new rank: the jump share `(1 - d) / N` plus its inflow. Its bounds are stated by `RoundLowerBound` and `RoundsBetweenZeroAndOne`. |
| Iteration.RoundRanks | pagerank/pagerank.py:131-142 | The ranks one round computes. `Round` proves the loop computes them, and `RoundMass` and `RoundTotalAtMost` state their total. |
| Iteration.InitialRanks | pagerank/pagerank.py:126 | The starting ranks, `1 / N` per page. `InitialRanksDistribution` states that they form a distribution. |
| Iteration.Settled | pagerank/pagerank.py:144-145 | No page's rank moved by more than 0.001. `Round` proves its `converged` flag is exactly this. |
| Iteration.SettledAt | pagerank/pagerank.py:129-145 | Round `k` settled: the condition that ends the loop after round `k`. |
| Iteration.Unsettled | pagerank/pagerank.py:130 | Every round up to round `k` moved some rank, so the loop went on after each of them. |
| Iteration.RoundPrefix | pagerank/pagerank.py:131-142 | The new ranks of a partial round have exactly the pages scored so far as keys. |
| Iteration.Rounds | pagerank/pagerank.py:126-147 | After any number of rounds, every page has a rank. |
| Iteration.Score | pagerank/pagerank.py:138-141 | The inner loop computes the jump share plus what every linking page passes on, on the corpus as it stands. |
| Iteration.ScorePage | pagerank/pagerank.py:134-142 | The page's sink is normalised in place, and then it is scored on the corpus that results. |
| Iteration.RoundPrefixStep | pagerank/pagerank.py:142 | Storing the new rank extends the partial round by one page. |
| Iteration.Round | pagerank/pagerank.py:131-146 | One round normalises every sink in place and computes the round's ranks. `converged` holds exactly when no rank moved by more than 0.001. |
| Iteration.IteratePagerank | pagerank/pagerank.py:116-148 | At least one round is run. The corpus ends normalised, and the ranks are those after the rounds run. It converged exactly when the last round settled, and every earlier round moved some rank. |
| Iteration.SolvingStep | pagerank/pagerank.py:129-147 | A round from an unconverged state gives the solver's state one round later. |
| Iteration.SolvingDone | pagerank/pagerank.py:129-148 | When the loop exits, the ranks are the rounds' ranks and every round before the last moved some rank. |
| Iteration.RunOfStep | pagerank/pagerank.py:147 | Keeping the new ranks extends the record of rounds. |
| Iteration.RunOfAt | pagerank/pagerank.py:126-147 | Entry `k` of the record is the ranks after `k` rounds. |
| Iteration.RunOfIsRounds | pagerank/pagerank.py:126-147 | Every entry of the record is the ranks after that many rounds. |
| Iteration.MovingStep | pagerank/pagerank.py:144-145 | A round that moved some rank extends the run of moving rounds. |
| Iteration.MovingExtend | pagerank/pagerank.py:130 | Recording another round keeps the earlier moving rounds. |
| Iteration.MovingIsUnsettled | pagerank/pagerank.py:130 | The recorded moving rounds are the unsettled rounds. |
| Iteration.CorpusAfterStep | pagerank/pagerank.py:134-136 | Each round starts on the crawled corpus (the first) or on the normalised one (all later ones). |
| Iteration.NormalizeSinks | pagerank/pagerank.py:134-136 | The correction: one pass normalises every sink in place before any page is scored. |
| Iteration.IteratePagerankNormalizedFirst | pagerank/pagerank.py:116-148 | The corrected solver: the same loop run on the normalised corpus, with the same convergence and round-limit outcomes. |
| RankMass.InitialRanksDistribution | pagerank/pagerank.py:126 | The starting ranks are `1 / N` per page and form a probability distribution. |
| RankMass.RoundPrefixValues | pagerank/pagerank.py:134-142 | Page `i` is scored on the corpus with the sinks among the first `i + 1` pages normalised. |
| RankMass.ShareNonNegative | pagerank/pagerank.py:141 | What a page passes on is never negative. |
| RankMass.InflowNonNegative | pagerank/pagerank.py:139-141 | What a page receives is never negative. |
| RankMass.RoundPrefixLowerBound | pagerank/pagerank.py:138-142 | Every rank computed so far is at least the jump share. |
| RankMass.RoundLowerBound | pagerank/pagerank.py:138-142 | Every new rank is at least `(1 - d) / N`, so it is non-negative for `d <= 1`. |
| RankMass.RoundPrefixNoSinks | pagerank/pagerank.py:134-142 | On a corpus without sinks, every page is scored on the corpus itself. |
| RankMass.OutflowToNone | pagerank/pagerank.py:139-141 | Nothing is passed to an empty set of pages. |
| RankMass.OutflowExtend | pagerank/pagerank.py:139-141 | One more receiving page adds what the senders pass to it. |
| RankMass.InflowIsOutflow | pagerank/pagerank.py:139-141 | Summing what every page receives equals summing what every page sends. |
| RankMass.OutflowOfAll | pagerank/pagerank.py:139-141 | Pages that each have a link, all inside the corpus, pass on exactly `d` times their total rank. |
| RankMass.PassedOn | pagerank/pagerank.py:141 | A page with links inside the corpus passes on exactly `d` times its rank. |
| RankMass.SpreadEvenly | pagerank/pagerank.py:141 | `m` shares of `d * (r / m)` make `d * r`. |
| RankMass.SumOfNewRanks | pagerank/pagerank.py:138-142 | The new ranks add up to one jump share per page plus everything received. |
| RankMass.MassOfNewRanks | pagerank/pagerank.py:138-142 | Without sinks, the new ranks add up to `(1 - d) + d * M`, where `M` is the old total. |
| RankMass.RoundMass | pagerank/pagerank.py:131-147 | A round on a corpus without sinks maps total rank `M` to `(1 - d) + d * M`. |
| RankMass.RoundKeepsDistribution | pagerank/pagerank.py:121-123 | With no sinks left and `0 <= d <= 1`, a round maps a probability distribution to one. |
| RankMass.FixedMass | pagerank/pagerank.py:121-123 | A total of 1 is the fixed point of `M -> (1 - d) + d * M`. |
| RankMass.NormalizedIsClean | pagerank/pagerank.py:134-136 | The normalised corpus keeps the keys and link targets, and has no sinks. |
| RankMass.LaterRoundsMass | pagerank/pagerank.py:129-147 | Every round after the first maps total rank `M` to `(1 - d) + d * M`. |
| RankMass.DampedDeficit | pagerank/pagerank.py:138-141 | The shortfall from 1 shrinks by a factor `d` per round. The total is 1 exactly when `d == 0` or it was 1 before. |
| RankMass.DeficitPersists | pagerank/pagerank.py:129-147 | For `d != 0`, a later round sums to 1 exactly when the first round did. |
| RankMass.RoundsLowerBound | pagerank/pagerank.py:126-147 | For `0 <= d <= 1`, every rank is non-negative, and after a round it is at least `(1 - d) / N`. |
| RankMass.NoSinksRoundsDistribution | pagerank/pagerank.py:121-123 | Without sinks, the solver as written yields a probability distribution after every round. |
| RankMass.CorrectedRoundsAreDistributions | pagerank/pagerank.py:121-123 | With sinks normalised first, every round is a probability distribution. |
| RankMass.InflowAtMostNormalized | pagerank/pagerank.py:135-141 | A page receives no more while some sinks are still empty than once every sink has been normalised. |
| RankMass.ScoredAtMostNormalized | pagerank/pagerank.py:134-141 | A page scored partway through the first round gets at most its rank on the fully normalised corpus. |
| RankMass.RoundPrefixAtMostNormalized | pagerank/pagerank.py:134-142 | Every rank a round as written has computed is at most the rank it would have with the sinks normalised first. |
| RankMass.RoundTotalAtMost | pagerank/pagerank.py:131-142 | A round as written adds up to at most `(1 - d) + d * M`, where `M` is the total before it. |
| RankMass.DampedAtMostOne | pagerank/pagerank.py:138-141 | For `d >= 0`, a total of at most 1 stays at most 1 after a round. |
| RankMass.RoundsTotalAtMostOne | pagerank/pagerank.py:121-123 | For `0 <= d <= 1` the solver's ranks as written add up to at most 1 after every round. |
| RankMass.RoundsBetweenZeroAndOne | pagerank/pagerank.py:121-123 | For `0 <= d <= 1`, every rank the solver as written returns lies between 0 and 1. |
| RankMass.CorrectedRoundsBetweenZeroAndOne | pagerank/pagerank.py:121-123 | Every rank of the corrected solver lies between 0 and 1 too. |
| RankMass.RoundOneLosesMass | pagerank/pagerank.py:134-142 | On the crawl result A->B with B a sink and `d = 0.85`: round 1 as written ranks A 0.075 and B 0.7125, a total of 0.7875. With B normalised first, A gets 0.2875. |
| RankMass.ExampleNeverRecovers | pagerank/pagerank.py:129-147 | In that example, no round of the solver as written ever sums to 1. |
| RankMass.ExampleCorpus | pagerank/pagerank.py:134-136 | The example is a crawl result, and its sink B is rewritten at the second page. |
| RankMass.ExampleInflows | pagerank/pagerank.py:139-141 | In the example's first round, A receives nothing as written. With the sinks normalised, A receives 0.2125 and B receives 0.6375. |

## Left out

- Floating point: ranks, shares and the 0.001 comparison are on real numbers, so rounding and the order of float additions are not modelled.
- Randomness: `random.choice` and `random.choices` are replaced by the draws passed in as parameters. The statistical claim that the estimate approaches the iterated ranks as `n` grows is not stated.
- `bisect_right` is modelled as a linear scan over the running sums. For non-negative weights it returns the same index. For `d` outside [0, 1] some weights are negative, and the two may pick different pages.
- `main`, command-line handling, printing and the `crawl` directory reader are I/O. The crawler's output invariant is the `Corpus` constructor's precondition instead.
- Iteration.IteratePagerank: the loop has no bound in the code. The model stops after `maxRounds` rounds and reports `RoundLimit`, and it does not prove that convergence happens within any number of rounds.
- The `raise NotImplementedError` lines (81, 113, 149) come after a `return` and can never run.
- Transitions.TransitionModel requires only that `pages` lists the keys. A link target outside the corpus is read as in the code, and no distribution property is claimed for such rows.
- Sampling.CountVisits also requires that every link target is a page. Without that, `d = 1` and a page whose links all lead outside the corpus give a row of zero weights. `random.choices` then raises `ValueError`, and that path is not modelled.
- Iteration.IteratePagerank: an empty corpus returns empty ranks after one round, as the code does (a comprehension over no keys never divides by zero). The docstring's promise that the values sum to 1 cannot hold there.
- The mutation of the caller's corpus is modelled (the `Corpus` class), but aliasing of it by other callers is not.

## Findings

| source | as written | input that shows it | evidently intended | confidence | as-written member | corrected member |
|---|---|---|---|---|---|---|
| pagerank/pagerank.py:134-142 | In the first round a sink is rewritten only when the loop reaches it. Pages scored before it receive nothing from it, so the first round's ranks sum to less than 1. Every later round keeps a deficit of `d` times the previous one, so the total never returns to 1. | corpus `{"A": {"B"}, "B": set()}`, damping 0.85: round 1 gives A 0.075 and B 0.7125, total 0.7875; no round sums to 1 | normalise every sink before the first round, so that every round's ranks form a probability distribution (the docstring says they sum to 1) | not executed | RankMass.RoundOneLosesMass | RankMass.CorrectedRoundsAreDistributions |
