# A Dafny model of the quant pipeline and the candidate contract

This project models the deterministic core of the `quant` pipeline, and the candidate tool contract of
`finauditgate`, and proves what they promise for every input, run and reachable state. `dafny verify dfyconfig.toml`
checks all of it.

The pipeline scores a pool of stocks each day and only learns later, and partly, how each stock did. The model follows
that one problem through the code.

- **Unknown outcomes.** `Ranks`, `RankVariance`, `Completions`, `Intervals`, `LinearExtreme`, `Surds`, `RankBounds`,
  `RoundedBounds` and `PairedBounds` cover average ranks with ties, the percentile interval of a partly known pool,
  and bounds on Spearman's coefficient over every way of filling in the missing outcomes. Coefficients are exact: an
  integer over the root of an integer, compared by signed squares; the reported numbers may be rounded outward by any
  step.
- **Exact neighbour search.** `Vectors`, `StateMetric`, `DistanceMeaning`, `CappedSearch`, `CappedAnswer`,
  `Shortlists`, `RowGroups`, `StateIndex`, `StateIndexBuild`, `Analogues` and `AnalogueMemory` prove that two different expanding-shortlist searches return
  what sorting the whole memory and picking greedily under a per-date cap would return, that this pick is optimal, and
  that what each group's tree measures, with the group's offset, is exactly the distance of the pair: through the
  embedding in one search, over the columns the group observes in the other.
- **Price chains.** `OutcomePrices`, `OutcomeMeaning`, `OutcomeChain`, `OutcomeNormalizer`, `ReferenceRows` and
  `ReferenceChain` model the two stateful day-by-day normalizers. `OutcomeChain` is one security's machine with its whole history; both classes carry the days
  they were given and keep every security exactly where its own run stands, so each run theorem holds of the class.
- **Knowledge cutoffs.** `Labels`, `ResearchStore`, `LabelMeaning`, `LabelBuild`, `FoldMeaning`, `WalkForward`,
  `StateSupervision` and `StateMeta` cover label rows that know only what a cutoff allows, re-cutting, purged folds, the array form of supervision and the half-year recursion
  that trains risk setups and gates on its own past predictions.
- **Fits and errors.** `HacVariance` covers the Bartlett-weighted variance; `IntervalFit` covers fitting one prediction
  to many intervals by bisection and by bracketed Newton steps.
- **Candidate contract.** `ClosedSchema`, `Utf8`, `SpanLocator`, `SpanText`, `CandidateMeaning` and `CandidateContract`
  cover the closed decoder against its own JSON Schema, the unique-span locator with whitespace tolerance, and the inverse encoder.

Each main operation is stated twice. One statement equates it with a function that has the code's own branches. The
other says what the result is in terms of the raw input alone and names no such function: the least and greatest rank
over all completions, the distance over the set of missing columns, the raw row that becomes a record, the store's own
prices, the dates of a window, the fields of an argument object. The modules called `...Meaning` hold those second
statements, and the lemmas that end in `Iff` or `Is` connect the two.

`Prelude`, `Clock`, `Sums`, `Sorting` and `Multisets` hold shared vocabulary. Errors the code raises are `Err` values.
Numbers are exact integers and reals; instants are seconds on the exchange clock and sessions are day ordinals.
Automatic induction is switched off on every lemma, so each inductive proof is the one written in its body.

## Where the code does less than one might expect

Two statements one might expect are false of the code. Each is replaced by the exact condition and a concrete input.

- An eligible reference row does not always come with published outcome prices for all sixty-one latest sessions: a
  streak can begin with a halt that the outcome chain refuses, because the reference side has lost its anchor while the
  outcome side has not. The sixty latest are always published; the sixty-first is exactly when the streak is older than
  that or its first row was not so refused (`ReferenceChain.EligiblePublished`). Sixty-three days that end with an
  eligible row and an unpublished sixty-first session are given (`ReferenceChain.EligibleUnpublished`).
- The words that explain a missing outcome do depend on records that only arrive after the cutoff: "not available at
  cutoff" is written only when a complete pair is already on file. Every other field is free of look-ahead
  (`LabelBuild.NoLookAhead`), the labels of two stores with one past are equal exactly when the stores agree on which
  matured keys have such a pair (`LabelBuild.LabelsLeak`), and two stores that differ there are given
  (`LabelBuild.ReasonLooksAhead`).

## Model

| member | source | states |
|---|---|---|
| Ranks.AverageRanks | quant/labels/ranks.py:6-19 | The tie-run loop gives every value the rank defined by counting members below and tied; it fails only on an empty list |
| Ranks.RunRank | quant/labels/ranks.py:12-17 | Any maximal run of ties, read through any ascending order, gets the counted rank of its value |
| Ranks.CentredRank | quant/evaluation/rank_bounds.py:49-49 | Twice the rank less n + 1 is the integer "members below minus members above" |
| Ranks.SumReordered | quant/labels/ranks.py:8-8 | No count changes with the order in which the pool is read, so a stable sort is as good as any |
| RankVariance.SquareSumFormula | quant/evaluation/rank_bounds.py:55-56 | The sum of squared centred ranks is that of as many distinct values less the same term for every tie group |
| RankVariance.SquareSumZero | quant/evaluation/rank_bounds.py:50-52 | The rank variance is never negative and vanishes exactly when all values tie |
| RankVariance.PositionsCancel | quant/evaluation/rank_bounds.py:27-27 | Centred ranks of any pool sum to zero |
| RankVariance.SquareSumStep | quant/evaluation/rank_bounds.py:55-58 | Adding a member changes the variance only through the size of its own tie group |
| Completions.CompletionSplits | quant/evaluation/rank_bounds.py:44-45 | Every completion is, up to order, the known values with the hidden ones |
| Completions.KnownOrder | quant/labels/intervals.py:14-20 | Drawing from the iterator over the known list meets each known entry's own value |
| Intervals.Percentiles | quant/labels/ranks.py:22-24 | Percentile of every member of a pool of two or more |
| Intervals.PercentileIntervals | quant/labels/intervals.py:8-22 | The iterator loop gives every known entry its interval and every unknown entry none |
| Intervals.IntervalSound | quant/labels/intervals.py:19-21 | For every completion the true full-pool percentile lies in the reported interval |
| Intervals.IntervalAttained | quant/labels/intervals.py:19-21 | Both ends of each interval are reached by some completion |
| Intervals.IntervalWidens | quant/labels/intervals.py:8-22 | Hiding further outcomes can only widen every interval still reported |
| Intervals.IntervalInRange | quant/labels/intervals.py:8-22 | Intervals lie in [0, 1], and are points exactly when nothing is missing |
| LinearExtreme.Extreme | quant/evaluation/rank_bounds.py:26-37 | The greedy pass returns the exact extreme over integer points of the boxes with zero sum, reached and unbeaten; it fails exactly when the corners do not bracket zero |
| LinearExtreme.PackedPrices | quant/evaluation/rank_bounds.py:30-35 | The last coefficient filled is a dual price at which no point beats the greedy one |
| LinearExtreme.FeasibleBrackets | quant/evaluation/rank_bounds.py:27-36 | Any feasible point shows that neither feasibility check can fire |
| Surds.LessEqMeaning | quant/evaluation/rank_bounds.py:17-23 | Comparing by signed squares is comparing the real quotients, for any square roots of the denominators |
| Surds.ClipBound | quant/evaluation/rank_bounds.py:23-23 | The clip to [-1, 1] keeps a bound on a coefficient a bound |
| Surds.CauchySchwarz | quant/evaluation/rank_bounds.py:23-23 | The squared covariance never exceeds the product of the variances |
| RankBounds.SpearmanRange | quant/evaluation/rank_bounds.py:17-23 | A defined coefficient lies in [-1, 1] |
| RankBounds.ExactThirds | quant/evaluation/rank_bounds.py:56-58 | Both floor divisions by three are exact |
| RankBounds.VarianceBounded | quant/evaluation/rank_bounds.py:55-58 | Every completion's rank variance lies between qmin and qmax |
| RankBounds.QMinAttained | quant/evaluation/rank_bounds.py:57-58 | qmin is reached by joining all unknowns to the largest known tie |
| RankBounds.QMaxAttained | quant/evaluation/rank_bounds.py:55-56 | qmax is reached by distinct new values |
| RankBounds.QMinZero | quant/evaluation/rank_bounds.py:59-61 | qmin is zero exactly when some completion ties every outcome |
| RankBounds.CompletionFeasible | quant/evaluation/rank_bounds.py:62-69 | The centred ranks of every completion lie in the boxes and cancel |
| RankBounds.BoxesExact | quant/evaluation/rank_bounds.py:62-69 | Each box end is the least or the greatest centred rank of its row over all completions, and some completion reaches it |
| RankBounds.EndsExact | quant/evaluation/rank_bounds.py:73-77 | The bounds are the least and the greatest quotient, cut to the unit range, of a covariance and the root of a variance product in their ranges |
| RankBounds.BoundsSound | quant/evaluation/rank_bounds.py:73-77 | One completion's exact coefficient lies between the lower and upper bound |
| RankBounds.BoundsHold | quant/evaluation/rank_bounds.py:73-77 | The same for all completions at once, and the bounds are never reversed |
| RankBounds.PointIsCoefficient | quant/evaluation/rank_bounds.py:70-72 | With nothing missing the reported point is the coefficient itself |
| RankBounds.RankIcBounds | quant/evaluation/rank_bounds.py:40-79 | Every accepted input is answered; bounds are withheld exactly when some completion has no defined coefficient, and otherwise enclose the coefficient of every completion; with something missing they are exactly the extremes over the ranges that completions span, row by row and in the variance |
| RankBounds.HidingWidens | quant/evaluation/rank_bounds.py:55-76 | Hiding more outcomes widens the variance range, the covariance range and both bounds |
| RoundedBounds.RoundedBoundsHold | quant/evaluation/rank_bounds.py:17-76 | Whatever the outward steps, the reported numbers are never reversed and hold the coefficient of every completion |
| RoundedBounds.ClipValue | quant/evaluation/rank_bounds.py:23-23 | Cutting an exact quotient to the unit range cuts the number it stands for |
| PairedBounds.PairedRankIcBounds | quant/evaluation/uncertainty.py:37-48 | Accepts exactly matching, defined dates; each result is exactly the set of possible differences no larger than two |
| PairedBounds.ClipIdle | quant/evaluation/uncertainty.py:45-47 | Between bounds on coefficients the clip at two never acts: every difference they allow is reported |
| PairedBounds.DifferenceBounded | quant/evaluation/uncertainty.py:45-47 | For any completion of the shared outcomes, the difference of the two models' coefficients lies in the paired bounds |
| HacVariance.BartlettIsWindowSquares | quant/evaluation/uncertainty.py:17-20 | lag + 1 times the variance is the sum of squared window sums over the zero-padded series, for every series and lag |
| HacVariance.BartlettNonnegative | quant/evaluation/uncertainty.py:21-21 | The weighted double sum is never negative, so the clamp does nothing |
| HacVariance.BartlettZero | quant/evaluation/uncertainty.py:17-21 | The variance vanishes exactly for the all-zero series |
| HacVariance.FarDistances | quant/evaluation/uncertainty.py:18-18 | Stopping at the length of the calendar loses no covariance |
| HacVariance.Accumulate | quant/evaluation/uncertainty.py:17-20 | The two nested accumulations compute that variance |
| HacVariance.DateAxisHac | quant/evaluation/uncertainty.py:9-25 | Accepts exactly admissible calendars and nonempty values; the mean is the one whose deviations cancel, the reported variance is unclamped, the normal interval is centred on the mean with its standard error, and it is a point exactly for a constant series |
| StateMetric.CosineIsDot | quant/models/state_metric.py:76-80 | For two usable trends the cosine is the dot product of the unit vectors, so the clip never acts |
| StateMetric.NormProduct | quant/models/state_metric.py:79-79 | For usable trends the floor under the product of norms is inactive |
| StateMetric.ShapeDistance | quant/models/state_metric.py:77-82 | In all four usable and unusable cases the unit distance plus the flags is twice the complement of the cosine |
| StateMetric.EmbeddedDistance | quant/models/state_metric.py:275-286 | Squared distance in the embedding, split into its numerical, level and trend parts |
| StateMetric.IndexedNonnegative | quant/models/state_metric.py:84-84 | The formula is never negative, so its floor at zero does nothing |
| StateMetric.IndexedEqualsPair | quant/models/state_metric.py:62-86 | Squared embedded distance plus the group offset is the pair distance, for every pair, missing pattern and eta |
| DistanceMeaning.PenaltyIs | quant/models/state_metric.py:83-83 | The penalty is a quarter of the share of columns in the set of those that either row misses |
| DistanceMeaning.PairDistanceIs | quant/models/state_metric.py:62-86 | The pair distance is the sum over fourteen weighted squared gaps, eta times the change from the first five to their weight times twice the complement of the cosine, and that penalty; the cosine counts only for trends observed in all five and longer than the floor |
| StateIndexBuild.Build | quant/models/state_metric.py:253-273 | Accepts exactly aligned memories; the groups partition the rows by missing pattern and trend flag |
| RowGroups.GroupByCode | quant/models/state_metric.py:266-272 | Every row lands in exactly one group, and every group's pattern and flag are those of its rows |
| RowGroups.NearestShortlist | quant/models/state_metric.py:304-310 | Where a tree's distance plus an offset is a hit's distance, the tree's nearest members are a shortlist of their group |
| RowGroups.BallHits | quant/models/analogues.py:245-251 | And the members the tree finds within a distance are the group's hits within it, offset added |
| StateIndex.GroupHitIsPair | quant/models/state_metric.py:302-308 | The distance computed from the tree and the offset is the row's pair distance |
| StateIndex.TreeGivesShortlist | quant/models/state_metric.py:304-310 | The tree's nearest members, seen through pair distances, are a shortlist of their group |
| StateIndex.GroupsCover | quant/models/state_metric.py:266-272 | Together the groups show a query exactly the whole memory |
| StateIndex.SearchOnce | quant/models/state_metric.py:300-328 | A pick accepted by the border test is the answer over the whole memory, also when no count is asked for, and at full length every pick is accepted |
| StateIndex.Pass | quant/models/state_metric.py:315-328 | One pass settles or postpones every pending query and never unsettles one |
| StateIndex.Query | quant/models/state_metric.py:288-332 | The doubling loop ends. Every query gets exactly the capped greedy pick from the whole memory, or every row the cap admits for k = 0, over distances computed from the columns of the two rows; it fails only when k and the cap are both zero and there is a query |
| Shortlists.ShortlistComplete | quant/models/state_metric.py:309-310 | Below its own border a shortlist misses nothing of its group |
| Shortlists.Merge | quant/models/state_metric.py:311-313 | The concatenated lists agree with the memory below the least border of the truncated groups |
| Shortlists.EdgeDecides | quant/models/state_metric.py:325-326 | A full pick ending before that border, or any pick when nothing was truncated, is the brute-force answer |
| CappedSearch.Scan | quant/models/state_metric.py:316-324 | The counting loop with early exit returns the capped pick, and for k = 0, where it never exits, everything the cap admits |
| CappedAnswer.ScanIsAnswer | quant/models/state_metric.py:316-324 | A row is in the answer exactly when fewer than the cap of its date and fewer than k of all are nearer and taken, and the answer is in order |
| CappedSearch.PickSound | quant/models/analogues.py:207-221 | A pick selects from its input, respects the cap, is ranked and has at most k rows |
| CappedSearch.BorderDecides | quant/models/analogues.py:235-256 | Candidates complete inside a border that holds k kept rows decide the whole search |
| CappedSearch.StrictBorder | quant/models/state_metric.py:325-326 | The strict test: k rows kept below every truncated group's edge are the answer |
| CappedSearch.AcceptMaximal | quant/models/analogues.py:211-220 | No selection that respects the cap is larger than the greedy one |
| CappedSearch.GreedyOptimal | quant/models/analogues.py:207-221 | For every i, no selection respecting the cap has a smaller i-th distance than the greedy pick |
| Analogues.SelectOrder | quant/models/analogues.py:209-210 | With ids in date order, sorting by distance and id is sorting by distance, date and id |
| Analogues.Select | quant/models/analogues.py:207-221 | The selection loop is the pick with cap k // 8 |
| Analogues.Candidates | quant/models/analogues.py:193-205 | The candidates agree with the memory below the least border; the border is infinite exactly when no group was truncated |
| Analogues.Boundary | quant/models/analogues.py:233-234 | The boundary is at least every nonempty pick's last distance, and infinite exactly when all picks are empty |
| Analogues.BoundaryFinite | quant/models/analogues.py:233-234 | With any row to choose from no pick is empty |
| Analogues.Refetch | quant/models/analogues.py:239-251 | The outward-rounded balls return rows of the memory only, and every row at or inside the boundary |
| Analogues.UniqueRows | quant/models/analogues.py:252-254 | Deduplicating by id keeps each fetched row exactly once |
| Analogues.RefetchDecides | quant/models/analogues.py:252-256 | A pick over the deduplicated rows is the brute-force answer even when the border ties |
| Analogues.Attempt | quant/models/analogues.py:229-258 | A round that declares a row ready has the brute-force answer for every requested count; full shortlists are always ready |
| Analogues.Neighbors | quant/models/analogues.py:223-261 | The doubling loop ends, and for every requested k at once the answer is the brute-force capped selection |
| AnalogueMemory.Build | quant/models/analogues.py:86-163 | Accepts exactly aligned rows whose ids ascend in date order; the groups partition the rows by missing pattern |
| AnalogueMemory.DistanceSplits | quant/models/analogues.py:185-191 | Missing entries are normalized to zero, so a squared distance splits into that of the observed columns and the query's own squares in the others |
| AnalogueMemory.GroupDistance | quant/models/analogues.py:193-205 | Squared distance over the observed columns plus the group's offset is the distance of the pair, for every query and every missing pattern |
| AnalogueMemory.FacingFitted | quant/models/analogues.py:151-163 | What the search needs of its groups and offsets follows, for every query, from how the memory was built |
| AnalogueMemory.TreeServes | quant/models/analogues.py:196-205 | The trees' nearest rows, offset added, are shortlists of their groups |
| AnalogueMemory.BallServes | quant/models/analogues.py:241-251 | The trees' balls, offset added, are exactly the rows of a group within the boundary |
| AnalogueMemory.NearestAnalogues | quant/models/analogues.py:223-261 | So, for every requested k at once, a query gets the greedy pick, at most an eighth of k on one date, over the whole memory; the distances are sums of squared gaps and a quarter of the share of columns missed by either row |
| OutcomePrices.Checked | quant/data/outcome_prices.py:44-57 | A record is accepted exactly when its times, prices, range and chain start are in order |
| OutcomePrices.MakeRecordLinks | quant/data/outcome_prices.py:117-133 | A made record continues its predecessor's factor, chain start and availability, or starts a chain at factor one |
| OutcomePrices.FullAccepted | quant/data/outcome_prices.py:135-149 | An accepted complete row becomes a record of its own prices, linked to its anchor, confirming exactly when it shows activity |
| OutcomePrices.SparseAccepted | quant/data/outcome_prices.py:151-178 | An accepted halted row is anchored and price-only, quotes one price, has no alias with known activity, never confirms, and carries its chain's return over unchanged, whatever the tolerance let through |
| OutcomePrices.ConsensusAccepted | quant/data/outcome_prices.py:180-225 | An accepted consensus has the prices every alias quotes; every alias independently shows positive activity, and it confirms |
| OutcomePrices.AliasesHaveFields | quant/data/outcome_prices.py:191-198 | A list of aliases passes only if each of them does |
| OutcomePrices.AliasesAgree | quant/data/outcome_prices.py:199-211 | Aliases with equal projections read the same prices and the same volume, so reading the first reads all |
| OutcomePrices.ProvidersQuiet | quant/data/outcome_prices.py:164-169 | A halt passes only if every alias is missing or zero in both activity fields |
| OutcomePrices.BuildAccepted | quant/data/outcome_prices.py:247-274 | The same on whichever branch the day takes |
| OutcomeMeaning.FullIff | quant/data/outcome_prices.py:135-149 | A complete row becomes a record exactly when its prices, times and activity are in order and, on a halt, its anchor explains the reference price; and which record |
| OutcomeMeaning.SparseIff | quant/data/outcome_prices.py:151-178 | A halted row is accepted exactly when it has an anchor, its own date, adjustflag 3 and tradestatus 0, an explicitly empty activity field, aliases without known activity, one positive price, and a reference price within 1e-8 of the last close |
| OutcomeMeaning.ConsensusIff | quant/data/outcome_prices.py:180-225 | A consensus is accepted exactly when two or more aliases of the security conflict in the amount alone, have every projected field in common and trade, on one unadjusted row of the session with tradable prices |
| OutcomeMeaning.BuildIff | quant/data/outcome_prices.py:247-274 | Whichever branch the day takes: a record exactly when the raw observation is allowed, and the record it then describes |
| OutcomeMeaning.AdvanceDone | quant/data/outcome_prices.py:247-290 | One day of one security, from the last record and the waiting rows to their successors and to what is emitted |
| OutcomeChain.NextFollows | quant/data/outcome_prices.py:247-290 | The history used below has the machine's state and emissions, and one dropped session per discarded record |
| OutcomeChain.JoinKeeps | quant/data/outcome_prices.py:275-287 | Accepting a record keeps every invariant of the history |
| OutcomeChain.DropKeeps | quant/data/outcome_prices.py:93-98 | So does breaking the chain |
| OutcomeChain.NextKeeps | quant/data/outcome_prices.py:247-290 | So does every day, whatever it brings |
| OutcomeChain.RunKept | quant/data/outcome_prices.py:227-292 | All invariants hold after every day of every run: pending rows are the contiguous tail of the chain ending at the previous entry |
| OutcomeChain.RunBalance | quant/data/outcome_prices.py:93-98 | After every day accepted = emitted + pending + dropped, and emitted sessions strictly ascend |
| OutcomeChain.FinishBalance | quant/data/outcome_prices.py:294-303 | After finish every accepted session was emitted or dropped, exactly once |
| OutcomeChain.SparseWaits | quant/data/outcome_prices.py:275-287 | No price-only record is emitted without a later positive-activity record on its own chain |
| OutcomeChain.ActiveEvidence | quant/data/outcome_prices.py:256-270 | Every confirming record comes from a day with independent evidence of trading |
| OutcomeChain.ConfirmJustifies | quant/data/outcome_prices.py:277-283 | A confirmed row stays valid, keeps its prices and chain, and is available no earlier than its confirmation |
| OutcomeChain.ChainFacts | quant/data/outcome_prices.py:117-133 | Along a chain the start is constant, ordinals count by one, sessions ascend and availability never decreases |
| OutcomeChain.JoinAvailability | quant/data/outcome_prices.py:278-283 | Availability still never decreases along emitted records after confirmation rewrote it |
| OutcomeChain.Telescopes | quant/data/outcome_prices.py:117-131 | The ratio of two return closes is the product of the daily close over preclose between them |
| OutcomeChain.EmittedTelescopes | quant/data/outcome_prices.py:275-287 | The same on emitted records, which keep their factor and start through confirmation |
| OutcomeChain.EmittedStays | quant/data/outcome_prices.py:227-292 | A record once emitted is never withdrawn or changed by later days |
| OutcomeNormalizer.StepBalance | quant/data/outcome_prices.py:247-290 | One security's step neither loses nor invents a record |
| OutcomeNormalizer.OutcomePriceNormalizer.constructor | quant/data/outcome_prices.py:79-87 | Starts with no previous, no pending and every count at zero |
| OutcomeNormalizer.OutcomePriceNormalizer.BreakChain | quant/data/outcome_prices.py:93-98 | Removes one security's entries and does the specified break to it alone |
| OutcomeNormalizer.OutcomePriceNormalizer.Admit | quant/data/outcome_prices.py:275-287 | Emits, withholds, or emits with all it confirms, and touches no other security |
| OutcomeNormalizer.OutcomePriceNormalizer.Observe | quant/data/outcome_prices.py:247-290 | One security's share of a day is one step of its own machine |
| OutcomeNormalizer.OutcomePriceNormalizer.NormalizeDay | quant/data/outcome_prices.py:227-292 | Accepts exactly a later session with no repeated security; every security lives its day as the raw rows say, the emissions are theirs and sorted, the counts balance, and nothing ever returned repeats a session of a security |
| OutcomeNormalizer.OutcomePriceNormalizer.Finish | quant/data/outcome_prices.py:294-303 | Discards and counts every pending row, so accepted = emitted + discarded |
| OutcomeNormalizer.NoKeyTwice | quant/data/market_store.py:285-289 | Over any history everything the normalizer returned has distinct sessions within each security: the store's primary key is never repeated |
| OutcomeNormalizer.KeysNeverClash | quant/data/market_store.py:285-289 | Over any history a later day emits only later sessions of a security |
| ReferenceRows.NormalizeSound | quant/data/market_store.py:138-169 | What an accepted reference row is: its own quoted numbers, a continued or restarted factor, start and streak, and eligibility |
| ReferenceRows.NormalizeComplete | quant/data/market_store.py:138-169 | And whenever the quoted numbers admit a sound row, that row is accepted and is the only one |
| ReferenceRows.NormalizeIff | quant/data/market_store.py:133-173 | A row is made exactly when the quoted numbers are allowed after the last row, and it is the one they describe; eligible from the sixty-first traded row of a streak |
| ReferenceChain.ReferenceNormalizer.NormalizeRow | quant/data/market_store.py:133-173 | One decision's row or issue, and the state it leaves for that security alone |
| ReferenceChain.ReferenceNormalizer.NormalizeDay | quant/data/market_store.py:115-174 | The values and the issues are those of the listed quotes, in order; securities the day does not list keep their entry, and every entry stays where its own run of all days so far leads |
| ReferenceChain.OutcomeIsLast | quant/data/market_store.py:131-173 | What a day returns for a security is the last row of that security's own run, on every run with the same quotes |
| ReferenceChain.FullAcceptedIff | quant/data/outcome_prices.py:135-149 | The outcome chain refuses a complete reference row exactly when a halt moved a reference price its own anchor cannot explain |
| ReferenceChain.RunsInStep | quant/data/market_store.py:138-169 | On every joint run the streak's rows and the end of the outcome chain agree one by one, on one common scale |
| ReferenceChain.StreakDays | quant/data/market_store.py:151-153 | The streak's rows are those of the last days, on consecutive ordinals |
| ReferenceChain.EligiblePublished | quant/data/market_store.py:168-169 | An eligible row has published prices for the sixty latest rows, and for the sixty-first exactly under the stated condition |
| ReferenceChain.BlockedStart | quant/data/outcome_prices.py:144-147 | A three-day input on which a streak starts with a row the outcome chain refuses |
| ReferenceChain.EligibleUnpublished | quant/data/market_store.py:168-169 | Continued to sixty-three days: the row is eligible, and the first of its sixty-one sessions has no published price |
| ReferenceChain.FullRunAgrees | quant/data/market_store.py:151-152 | Given a complete row every session, both normalizers hold the same close, factor and chain start |
| Labels.CensorAgain | quant/labels/forward.py:23-29 | Censoring again at an earlier cutoff is censoring there directly |
| Labels.RecutRows | quant/labels/forward.py:16-39 | Rows cut at c1 and re-cut at any earlier c2 equal the rows cut at c2, in every field |
| Labels.RecutTwice | quant/labels/forward.py:94-101 | Re-cutting in two steps is re-cutting once |
| Labels.RowValid | quant/contracts.py:186-211 | Every row the cut makes passes the row's own checks and is supervised exactly when its value is known |
| Labels.RowsAtValid | quant/contracts.py:248-263 | Every group the cut makes passes the group checks |
| Labels.RowsValid | quant/contracts.py:248-263 | So every cut of a good pool passes validation |
| Labels.Identify | quant/labels/forward.py:16-39 | The grouping dictionaries give each key the row of its full pool, in key order |
| Labels.ValidateGroups | quant/contracts.py:248-263 | The dictionary loop finds no problem exactly for distinct keys in valid groups; otherwise it reports the first check the first bad group fails |
| Labels.RecoveredGood | quant/labels/forward.py:99-100 | Validated rows carry everything needed to cut them again |
| Labels.LabelRowsAtCutoff | quant/labels/forward.py:94-101 | Fails exactly on invalid groups or a widening cutoff; otherwise returns the re-cut rows, valid again |
| LabelBuild.KeysArePools | quant/labels/forward.py:44-47 | The sorted keys are distinct, on the calendar, and no scoring time holds a single stock |
| LabelBuild.ObserveRecut | quant/labels/forward.py:54-85 | An observation built at c1 and censored at c2 is the one built at c2 |
| LabelBuild.ObserveGood | quant/labels/forward.py:54-85 | Every observation lies in its window, became known after it, and is explained when unknown |
| LabelBuild.WindowIs | quant/labels/forward.py:55-60 | The window opens on the first session after scoring and closes on the horizon-th, and exists exactly while the calendar has that many sessions left |
| LabelBuild.ReturnIs | quant/labels/forward.py:61-85 | The return is known exactly when the horizon is over and both ends were on record before the cutoff, on one anchored basis where the mode asks for it; then it is what holding would have earned |
| LabelBuild.ObserveTells | quant/labels/forward.py:54-86 | Window, value, readiness and explanation are read straight from the maps of the store: entry at its returnOpen, exit at the returnClose of the price source or else of the exits, in outcome mode on one basis anchored at entry |
| LabelBuild.LabelsTell | quant/labels/forward.py:42-86 | The rows built are one for each scored key, in order, and each tells what its observation does |
| LabelBuild.BuildLabelRows | quant/labels/forward.py:42-86 | Fails only on a foreign universe; what it builds passes every row and group check, and every row tells what the maps of the store say of its key |
| LabelBuild.RecutIsRebuild | quant/labels/forward.py:42-101 | Building at c1 and re-cutting at any earlier c2 gives exactly the labels built at c2 |
| LabelBuild.PricedFromPast | quant/labels/forward.py:65-84 | A known value rests only on records available before the cutoff; an exit reference cannot step in for a hidden price |
| LabelBuild.NoLookAhead | quant/labels/forward.py:42-86 | Two stores with the same past give the same labels, but for the words explaining a missing outcome |
| LabelBuild.ReasonLeaks | quant/labels/forward.py:69-84 | One missing outcome is explained alike exactly when both or neither store holds a complete pair that only arrives later |
| LabelBuild.LabelsLeak | quant/labels/forward.py:42-86 | Two stores with the same past give equal labels, words included, exactly when they agree on which matured keys have such a pair |
| LabelBuild.ReasonLooksAhead | quant/labels/forward.py:69-84 | Two valid stores with the same past whose explanations differ, and so do the rows built from them |
| WalkForward.DayAgrees | quant/splits/walk_forward.py:83-118 | The day form and the row form agree on every label of a valid day, errors included, up to single availability |
| WalkForward.FilterAgrees | quant/splits/walk_forward.py:121-126 | At the fold's cutoff the batch's own filter takes exactly the rows the partition calls available for training |
| WalkForward.WeightsSumToOne | quant/splits/walk_forward.py:128-130 | Every scoring time in a batch has total weight one |
| WalkForward.BatchValid | quant/splits/walk_forward.py:34-49 | The batch's own leakage, target and weight checks never fire |
| WalkForward.TrainBatch | quant/splits/walk_forward.py:121-132 | Fails exactly on a foreign cutoff or an empty selection; otherwise a sound batch of the filtered rows |
| WalkForward.NoReidentify | quant/splits/walk_forward.py:92-95 | On the fold's own views the re-identification check never fires |
| WalkForward.SelectRows | quant/splits/walk_forward.py:152-166 | The loop stops exactly where a scored row has no horizon; otherwise it routes every row to its place |
| WalkForward.TrainRowPlaced | quant/splits/walk_forward.py:152-168 | Every in-window training row is in exactly one of train, purged and unavailable |
| WalkForward.EvaluationRowPlaced | quant/splits/walk_forward.py:152-166 | Every in-window evaluation row is kept or purged, exactly once, known outcome or not |
| WalkForward.KeptEndsEarly | quant/splits/walk_forward.py:87-95 | No label that survives purging ends at or after the next split, or past what its own view knows |
| WalkForward.FateOfDay | quant/splits/walk_forward.py:83-98 | Purging decides whole scoring times, never single stocks |
| WalkForward.EvaluationValid | quant/splits/walk_forward.py:57-62 | What purging leaves of a view are whole valid groups, so the evaluation batch's check never fires |
| WalkForward.CutViews | quant/splits/walk_forward.py:143-148 | The three views are the labels at their own cutoffs; it fails exactly when a cutoff asks to widen |
| WalkForward.AllowedIff | quant/splits/walk_forward.py:135-168 | A fold can be prepared exactly when the evaluation cutoff is allowed, no label is asked for more than it knew, every scored row has a horizon, and each of the three ranges keeps a row; said in the dates of the window |
| WalkForward.FoldHolds | quant/splits/walk_forward.py:135-172 | Each list of the fold holds, in order, exactly the rows of its view that the dates of the window choose: kept or purged by range, horizon and cutoff day, and nothing from outside the three ranges |
| WalkForward.PrepareFold | quant/splits/walk_forward.py:135-172 | Accepts exactly the inputs AllowedIff describes; the fold is its three views, routed row by row as FoldHolds describes, and every contract holds |
| StateSupervision.SearchIsRank | quant/state_data.py:268-273 | The mean of the two search results is the zero-based average rank |
| StateSupervision.ZeroRanks | quant/state_data.py:268-273 | The sort-and-search array holds every return's rank less one |
| StateSupervision.SuperviseDay | quant/state_data.py:258-281 | One day's ids, intervals, weights, downside and times are those of its known members |
| StateSupervision.DayWeight | quant/state_data.py:279-279 | Every supervised day carries total weight one |
| StateSupervision.LaterDaysEmpty | quant/state_data.py:258-259 | Nothing after the first day that is not over contributes, so the loop may stop there |
| StateSupervision.Supervision | quant/state_data.py:250-287 | Every supervised member of every matured day in order; fails exactly when there is none |
| StateSupervision.SupervisionIsRecut | quant/state_data.py:250-287 | The arrays supervise exactly the members that re-cutting the day's labels leaves supervised, with the same interval and time |
| StateMeta.BlockStartsBefore | quant/state_meta.py:123-139 | Every block used at a boundary starts strictly before it |
| StateMeta.BlocksAreUsable | quant/state_meta.py:123-139 | The blocks before a boundary are all half-years whose last horizon is past and that themselves start after two such blocks, in order and without omission |
| StateMeta.ValidationIsLastTwo | quant/state_meta.py:375-375 | The validation blocks are the last two of them, or as many as there are |
| StateMeta.RowInTime | quant/models/state_gate.py:12-19 | For every joined row at every boundary: model cutoff < score time < label availability < fitting cutoff |
| StateMeta.RowsUnique | quant/state_meta.py:254-277 | Row ids strictly ascend through a history, so none is repeated |
| StateMeta.RowsComplete | quant/state_meta.py:259-272 | Every prediction of a past block whose label is known joins the history |
| StateMeta.HistoryIs | quant/state_meta.py:254-277 | A history is exactly the labelled predictions of the usable blocks: each with its own label as known at the boundary, none twice, none left out |
| StateMeta.TrialsAre | quant/state_meta.py:375-393 | One trial for each of the last two usable blocks that has a past, in order, with its history, its predictions and the gate of its own start |
| StateMeta.MetaRun.constructor | quant/state_meta.py:119-121 | Starts with nothing saved |
| StateMeta.MetaRun.Block | quant/state_meta.py:156-252 | A saved block is what computing it again would give: its anchors in order, scored at 21:30 by the setup of its own start |
| StateMeta.MetaRun.RowsBefore | quant/state_meta.py:254-277 | The loop over blocks joins exactly the history of the boundary |
| StateMeta.MetaRun.RiskSetup | quant/state_meta.py:279-320 | The saved setup is always the fit of its own history, and the recursion ends |
| StateMeta.MetaRun.Gates | quant/state_meta.py:363-408 | Fails exactly on an empty history; otherwise the gate is the fit of its history and its trials, saved or new. The gates it nests never fail, and the recursion ends |
| StateMeta.MetaRun.RunTrials | quant/state_meta.py:375-393 | The last two usable blocks are tried on their own past, skipping a block that has none |
| IntervalFit.LossAboveTangent | quant/labels/intervals.py:25-37 | The weighted loss lies above each tangent that the half derivative gives |
| IntervalFit.LossNearTangent | quant/labels/intervals.py:25-37 | And within the total weight times the squared step of it |
| IntervalFit.MinimisesIff | quant/labels/intervals.py:36-41 | A point minimises the loss exactly when its gradient vanishes |
| IntervalFit.SinglesMinimise | quant/labels/intervals.py:54-55 | For point intervals the weighted mean minimises, and nothing else does |
| IntervalFit.OverlapMinimises | quant/labels/intervals.py:56-58 | For overlapping intervals exactly the common points minimise, so the left end is the leftmost |
| IntervalFit.StartBracket | quant/labels/intervals.py:59-59 | Without a common point the starting ends have gradients of opposite sign |
| IntervalFit.MinimiserExists | quant/labels/intervals.py:59-67 | Between a negative and a nonnegative gradient there is a point that minimises the loss, found on a stretch clear of interval ends |
| IntervalFit.OneMinimiser | quant/labels/intervals.py:56-67 | Without a common point the minimiser is unique |
| IntervalFit.Bisect | quant/labels/intervals.py:59-67 | Eighty halvings keep the one minimiser in a bracket of the first width over two to the eightieth and return its right end |
| IntervalFit.LeftmostBetween | quant/labels/intervals.py:60-67 | A bracket whose gradients change sign holds a leftmost minimiser, right of its open left end |
| IntervalFit.BracketLoss | quant/labels/intervals.py:67-67 | The returned point loses at most twice the weight times the squared bracket width against any point |
| IntervalFit.FitIntervalConstant | quant/labels/intervals.py:44-67 | Accepts exactly valid input; the result is the only minimiser for point intervals, the leftmost for overlapping ones, and otherwise at most the bracket's width right of the only minimiser |
| IntervalFit.IntervalCenter | quant/models/analogues.py:44-53 | On a flat optimum the minimiser nearest the preferred point; otherwise the fitted one |
| IntervalFit.EnclosesSole | quant/models/state_metric.py:131-132 | Brackets with gradients strictly on either side hold the only minimiser strictly between them |
| IntervalFit.NewtonPrediction | quant/models/state_metric.py:111-137 | On a flat optimum the minimiser nearest the preferred point; otherwise the only minimiser stays strictly between the brackets, the result is nearer to it than the bracket is wide, and a stop before eighty steps has a tiny gradient or a tiny bracket |
| IntervalFit.SmallGradient | quant/models/state_metric.py:127-129 | What a stop on the gradient is worth against any point |
| IntervalFit.NewtonLands | quant/models/state_metric.py:130-133 | Once no interval end lies between, the Newton step lands on the minimiser: the gradient there is a line whose slope is the curvature |
| ClosedSchema.DecodesExactly | src/finauditgate/adapters/ollama_contract.py:409-461 | The decoder accepts exactly the values valid for the emitted schema (JSON Schema Validation 2020-12, sections 6.1.1 to 6.1.3, 6.4.1, 6.4.2 and 6.5.3) whose strings are not blank, and returns them unchanged |
| ClosedSchema.FieldReplaced | src/finauditgate/adapters/ollama_contract.py:453-461 | Replacing one field by a value its own rule accepts keeps an object acceptable |
| Utf8.RoundTrip | src/finauditgate/adapters/ollama_contract.py:498-498 | Decoding the encoding of a text gives the text back |
| Utf8.DecodeUnique | src/finauditgate/adapters/ollama_contract.py:372-375 | Whatever decodes is the encoding of its text: there is no second spelling |
| SpanLocator.MatchSpells | src/finauditgate/adapters/ollama_contract.py:484-487 | A match spells the words in order with some whitespace between them |
| SpanLocator.SpellsMatch | src/finauditgate/adapters/ollama_contract.py:484-487 | Every such spelling is found, and one start has one end |
| SpanLocator.LocatesIff | src/finauditgate/adapters/ollama_contract.py:464-490 | A span is located exactly when its bytes occur once, or never while its words match from one start |
| SpanLocator.WordsSpell | src/finauditgate/adapters/ollama_contract.py:484-485 | The words of a text spell the text itself, from its first visible byte to its last, with only white space outside |
| SpanLocator.FoundOnce | src/finauditgate/adapters/ollama_contract.py:479-483 | A span found byte for byte is the document's only occurrence of those bytes |
| SpanLocator.MatchedOnce | src/finauditgate/adapters/ollama_contract.py:484-490 | A span found by its words is also the only occurrence of the region's own bytes |
| SpanLocator.LocateAgain | src/finauditgate/adapters/ollama_contract.py:479-483 | Locating the located bytes again gives the same region by exact search |
| SpanText.WordsEncoded | src/finauditgate/adapters/ollama_contract.py:484-485 | The words of the encoded text are the encodings of the words |
| SpanText.SpelledText | src/finauditgate/adapters/ollama_contract.py:372-375 | A region spelled by encoded words is itself valid UTF-8 and shows every visible character of them |
| CandidateContract.ArgumentFits | src/finauditgate/adapters/ollama_contract.py:301-314 | Acceptable arguments are exactly two evidence objects and one calculation of the stated shapes |
| CandidateMeaning.LocatedIs | src/finauditgate/adapters/ollama_contract.py:464-490 | Locating finds a region exactly when it is the only occurrence of the span or, where there is none, the only place its words are spelled from |
| CandidateContract.EvidenceIff | src/finauditgate/adapters/ollama_contract.py:116-256 | The evidence rule accepts exactly the objects of ten visible strings with seven of them listed words |
| CandidateContract.DecodedIff | src/finauditgate/adapters/ollama_contract.py:325-346 | Arguments decode to a candidate exactly when they have the two evidence objects and the calculation, each field of the candidate is the member of its own name, and the offsets are the region of the cited span |
| CandidateContract.RegionText | src/finauditgate/adapters/ollama_contract.py:372-379 | However a span was found, its region decodes, shows something, and is located again at the same place |
| CandidateContract.EvidenceAgain | src/finauditgate/adapters/ollama_contract.py:493-514 | One evidence item comes back from its own payload |
| CandidateContract.EncodeCandidate | src/finauditgate/adapters/ollama_contract.py:348-406 | The rebuilding loop answers exactly the candidates some arguments are about, with arguments that are about this one and quote the bytes of the document |
| CandidateContract.CandidateRoundTrip | src/finauditgate/adapters/ollama_contract.py:325-406 | Whatever decodes can be encoded, and its encoding decodes to the same candidate |
| CandidateContract.EncodableIff | src/finauditgate/adapters/ollama_contract.py:403-406 | The encoder accepts exactly the candidates that some arguments decode to |

## Left out

- Rounding: exact integers and reals stand for floats and Decimals, so `nextafter`, `fsum`, overflow, underflow and the 60-digit context are not modelled; stated tolerances stay as constants.
- The KD-tree and its workers: specified as the nearest members of a group in ascending order with ties in any order, and as all members within a radius. Square roots are a function with the defining property, or one rounded outward where the code rounds outward.
- Fitting a normalization and applying it to raw values: rows arrive normalized, with zeros and flags for missing entries.
- Learned parameters: `coefficients`, `metric_objective`, `fit_metric`, `date_kernel` (also with equal weights), softmax and exp kernels, whose numerical specification is foreign.
- `batch_interval_center` and `array_center`: vector forms of the centre already modelled per row; numpy batching in `_neighbors` and `interval_predictions` is likewise one row at a time.
- StateIndex.SearchOnce: a search with neither a count nor a cap, which fails on its empty pick, is refused by StateIndex.Query before it starts.
- StateIndex.Pass: likewise entered only when a count or a cap is asked for.
- RowGroups.GroupByCode: groups appear in order of first use rather than of their numeric codes; the result of a search does not depend on it.
- `bound_sensitivity`: calls the variance above on the lower and on the upper bounds at both lags.
- RoundedBounds.RoundedBoundsHold: takes the step down and the step up as given; that `nextafter` steps past the rounding of the 60-digit quotient is not modelled.
- Source ids, fingerprints and provenance strings on records: identities are integers and the strings are dropped.
- Identity reconciliation, reviewed quote choices and suspension repairs: their results are inputs of each day.
- Parsing provider text: readers from text to numbers are parameters of a day; a reference row that fails before its numbers are read is an input refusal, and the market bar's own check reasons are one reason.
- OutcomePrices.ConsensusAccepted: aliases are taken in sorted order as given.
- ReferenceChain.EligiblePublished: states the exact condition for the sixty-first session instead of an unconditional claim, which is false of the code.
- `snapshot_cutoff`: the cutoff of a build is always given.
- WalkForward.PrepareFold: feature rows are known by their keys only, evaluation cutoffs are ordinals, and which of the error codes is raised is not stated.
- Dataclass type checks and the wording of error codes, except where they decide a branch.
- StateSupervision.SupervisionIsRecut: days hold outcomes directly; cache files, memory maps and nanosecond units are not modelled.
- StateMeta.MetaRun.Block: model predictions are a function of the block, its setup and the row; the neighbour pools, calibrations and geometry inside it are not modelled.
- StateMeta.MetaRun.Gates: fits are functions of their histories, with the penalty and risk loops merged into one; files are maps of what was saved.
- `date_weights`, `merged_diagnostics`, `bounded_ic`, `schedule` and `forecast`: arithmetic and orchestration on the parts above.
- ClosedSchema.DecodesExactly: descriptions are annotations; numbers, booleans and null occur only as values to refuse, and field names are Dafny strings.
- SpanLocator.MatchSpells: the regular expression is modelled by what it matches, not by an engine.
- Network and acquisition code, the command line, reports, persistence, hashing, the TradingAgents and thesis adapters and the study drivers: I/O, presentation or orchestration.
