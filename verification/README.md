# A model of the pair simulator and its live pilot

The repository simulates and trades a pair of Kalshi BTC contracts: a 15-minute market with anchor
strike A and an hourly market with strike K that settle on the same print. The pair spans a corridor;
a *strangle* buys the outside of it, a *flip* buys the inside and always pays at least $1. This project
models the deterministic cores that decide what is counted, entered, ordered and kept on disk, and
proves the laws those cores are relied on for.

| file | models |
|---|---|
| `Fees.dfy`, `Settlement.dfy` | the fee law, settlement of the two markets, strangle and flip payouts |
| `Tape.dfy`, `Refutation.dfy`, `Staleness.dfy`, `Dwell.dfy` | the tape walk, and how two walks of one tape compare |
| `TapeRows.dfy` | leg streams and the `do_walks` pass; what the pass hands to its two readers |
| `Freshness.dfy`, `PriceGrid.dfy` | what the readers of a pass cannot see, and what grid-priced trades exclude |
| `HardFloor.dfy` | the first-hard-floor policy of a pass |
| `Pipeline.dfy` | the hour grid, census rows matched with their markets, and the whole simulation run |
| `Policy.dfy`, `Surface.dfy` | the streaming policy evaluator and the one-pass surface aggregator |
| `BoxSelection.dfy`, `BoxMachine.dfy` | the wide-box selection and its decision machine |
| `Alignment.dfy`, `Executor.dfy` | batch response alignment and the order executor |
| `Rotation.dfy` | crash-safe journal rotation |
| `Census.dfy`, `Gate.dfy` | the census row law, quantiles, the bootstrap and the gate |
| `Book.dfy`, `Dedupe.dfy` | the order-book mirror and the ledger dedupe |
| `Sequences.dfy`, `Rounding.dfy` | filters, sums, lists of positions, parts laid end to end; decimal rounding |

Money and time are exact reals; tickers, close times, dates and order ids are identities. Code that
updates fields is a class (`PolicyEvaluator`, `Executor`, `JournalDir`, `BookMirror`), loops are loops,
and pure transitions are functions. Replies of the exchange, outcomes of file operations and the
bootstrap's draws are parameters, so every theorem holds for all of them. The walk is proved for any cost of
a pair of prices; a run charges the fee law `Fees.CostC` (`Pipeline.RunWindowsAreReady`).

Each operation is proved twice over: against the function that specifies it, and in plain terms, by
predicates that speak of positions, fields and numerals and of none of those functions (`Tape.FollowsTape`,
`TapeRows.PassWalked`, `Policy.Reports`, `Surface.CellTells`, `BoxSelection.Selects`, `BoxMachine.ActsPlainly`,
`Alignment.Aligned`, `Execution.Executed`, `Rotation.Swept`, `Census.CensusTells`, `Gate.GateTells`,
`Book.TopTells`, `Dedupe.Deduped`, `HardFloor.PolicyTells`, `Pipeline.RunTells`).

`dafny verify dfyconfig.toml` checks the whole project.

## Where the code differs from what is said about it

- A row counts as fresh when both leg ages are at most 1.0005 s, not 1 s: the ages were rounded to
  milliseconds before the comparison (`TapeRows.FreshnessIsRounded`).
- The sub-$1 flag and the rounded cost disagree exactly on costs in [0.99995, 1)
  (`TapeRows.DivergenceBand`); on prices in whole $0.0001 ticks no cost lies there, so strict mode accepts
  every such pass (`PriceGrid.GridPassAgrees`).
- p + fee(p) is nondecreasing only between prices at least $0.0001 apart, or where the fee does not step
  down; 0.53779 against 0.53780 is a dip (`Fees.LegCostIsMonotoneIff`, `Fees.LegCostCanDip`).
- The half-open pin regions written in pilot/service/box.py differ from settlement in one point, a print on the
  hourly strike (`Settlement.DocumentedRegionDiffersOnlyAtStrike`).
- A reply accepted by its status whose body cannot be read leaves the window unmarked although an order
  was posted; a second entry then passes the gates exactly when the budget covers both
  (`Execution.SecondEntryIff`, reached in `Execution.GarbledReplyPostsTwice`). An envelope that cannot be
  built charges tokens for legs that were never posted (`Execution.EntriesAreBounded`).
- A flush is kept in every run that follows exactly when rotation has not copied its stem yet, into `.gz` or
  into the temporary file about to be renamed, or nothing changed; the code compares nothing when it deletes
  the raw journal (`Rotation.FlushIsKeptIff`, reached in `Rotation.SecondFlushIsLost` and, for a stem without a
  `.gz`, in `Rotation.FlushDuringRotationIsLost`).
- The box selection mirrors on every ladder exactly when the 15-minute quote is not a balanced one that
  passes both filters (`BoxSelection.MirrorIff`); with the traded parameters no quote is
  (`BoxSelection.TradedParametersMirror`).
- The module documentation says that a leg's limit is the observed ask. It is the ask plus a margin,
  capped at 0.99: the two agree exactly for a zero margin up to 0.99 or an ask of 0.99, and the limit covers
  the ask exactly up to 0.99 (`BoxSelection.LimitIff`). The 15-minute ask has no upper filter, so the shipped
  parameters can fire a leg whose limit is below its ask (`BoxMachine.FiresBelowAsk`).
- Matching an eligible census row with its markets fails exactly when two hourly strikes of the hour are
  written alike to the cent, although the census told them apart (`Pipeline.LegsIff`, reached in
  `Pipeline.SubCentStrikesAreAmbiguous`); on strikes in whole cents it never fails (`Pipeline.CentStrikesMatch`).
- The reported cutoff reads as "gated below it" exactly when the rows of all buckets together do not clear
  (`Gate.ThresholdReadingIff`); rows that all gain do clear (`Gate.GainersClear`), five of them in
  `Gate.AllBucketsGated`, and then the cutoff is the largest gated value itself.
- A fire after a stand-down is impossible on chronological events for every setting of cutoff and entry
  window, not only when the cutoff lies past the entry window (`BoxMachine.NoFireAfterStandDown`).

## Model

| member | source | states |
|---|---|---|
| Fees.FeeIsSymmetric | sim/census.py:81-89 | a YES leg at p and a NO leg at 1-p pay the same fee |
| Fees.FeeIsBounded | sim/census.py:81-89 | on [0,1] the fee lies between 0 and $0.0175 |
| Fees.FeeIsExact | sim/census.py:81-89 | the fee is a whole number of hundredths of a cent, the first at or above 7% of p(1-p) |
| Fees.CostIsExact | sim/census.py:192-194 | a pair costs its two prices and a fee on each, within two hundredths of a cent of 7% of both p(1-p) |
| Fees.LegCostIsMonotoneIff | sim/census.py:81-89 | for p < q, price plus fee does not fall if and only if the rise covers the fee's step down; it always does over a full tick |
| Fees.LegCostCanDip | sim/census.py:81-89 | a concrete sub-tick pair on which price plus fee falls |
| Fees.CostIsMonotone | sim/census.py:192-194 | the pair cost C does not fall when either leg rises by whole ticks |
| Settlement.CorridorGeometry | sim/census.py:98-129 | for every print: recomputation gives the strike rule's result, the impossible branch is unreachable, PIN if and only if the print is in the corridor, flip pays 2 or 1, strangle + flip = 2 |
| Settlement.DocumentedRegionDiffersOnlyAtStrike | pilot/service/box.py:15-33 | the documented half-open pin regions differ from settlement exactly at print = K |
| Tape.MergedIsChronicle | sim/tape_sim.py:257-267 | the merged prints run in time order, OPP before SAME at one instant, and none is after T |
| Tape.MergedWithoutRefutation | sim/tape_sim.py:257-267 | with refutation off the walk scans exactly the SAME prints of the full scan, in its order |
| Tape.MergedIsMerge | sim/tape_sim.py:257-267 | the merge is in time order with opposite prints before fills, and at each instant up to T holds exactly the prints of each kind, HIGH before LOW and each stream in its own order |
| Tape.LiveNowIsLive | sim/tape_sim.py:273-284 | the live test on the two dictionaries equals "latest SAME fill young enough and no later OPP print reached it": the staleness guard on refutation is unobservable |
| Tape.ScanFindsMoment | sim/tape_sim.py:273-303 | the loop's guard holds if and only if the position is a declared moment |
| Tape.OccursIff | sim/tape_sim.py:273-303 | a moment is a fill in the last 900 s that meets the other leg's latest fill, young enough and reached by no opposite print since |
| Tape.MomentsFollowTape | sim/tape_sim.py:268-342 | the walk lists exactly the positions where such a moment occurs, in order, each event as PriceMoment states it |
| Tape.MomentBounds | sim/tape_sim.py:305-325 | every event lies in the last 900 s, has ages within the bound and a dwell that is never negative, so the clamp never acts |
| Tape.FindEnd | sim/tape_sim.py:305-325 | the look-ahead returns the time of the first print that ends the carried state, or T |
| Tape.PriceMoment | sim/tape_sim.py:286-342 | the event holds the fill, its time and side, both latest fill prices with their ages, C = cost of the two prices, ev = fair - C, ev_lin = fair_lin - C, payoff = settle - C, hard floor exactly for C < 1, and the dwell up to the first change, expiry or T |
| Tape.Advance | sim/tape_sim.py:268-342 | one step of the scan keeps dictionaries, events and look-ahead count equal to their declarative values |
| Tape.WalkDirection | sim/tape_sim.py:235-365 | without reference to the walk's own functions: the events are exactly those of the positions of the merged tape where a moment occurs, in order, with their prices, ages, cost, EV, payoff, flag and dwell; the summary counts, adds up and picks them |
| Tape.SummaryIsExact | sim/tape_sim.py:344-363 | a summary counts the events with ev > 0 and those flagged, adds up exactly their dwell, names the first of each and holds the least cost, which some event has |
| Refutation.SurvivesIff | sim/tape_sim.py:273-303 | an event of the unrefuted walk survives if and only if no OPP print reached the carried price of the leg that did not fill |
| Refutation.RefutationOnlyRemoves | sim/tape_sim.py:261-342 | the walk with refutation is a subsequence of the walk without, equal but for a dwell that is no larger |
| Refutation.ThinningSummary | sim/tape_sim.py:344-363 | thinning a walk lowers every count and every total of its summary |
| Refutation.RefutationDelta | sim/tape_sim.py:786-800 | for one walk, every count and every second compared satisfies after <= before |
| Staleness.StalenessIsExactFilter | sim/tape_sim.py:273-325 | a tighter bound s emits exactly the events of the looser walk with both ages <= s, each with dwell cut to older fill + s |
| Staleness.TighterPassIsLowerBound | sim/tape_sim.py:970-977 | every count and total of the tighter pass is at most that of the looser one |
| DwellTime.DwellIntervalsAreDisjoint | sim/tape_sim.py:305-325 | dwell intervals of one walk are disjoint and lie inside [T-900, T] |
| DwellTime.DwellIsLifetime | sim/tape_sim.py:305-325 | a dwell interval is exactly the life of its carried state: nothing changes it before the end, and it ends at settlement, at an expiry or at a print that changes it |
| DwellTime.SecondsAreBounded | sim/tape_sim.py:344-355 | EV+ seconds and hard-floor seconds are each between 0 and 900 |
| DwellTime.LookAheadIsLinear | sim/tape_sim.py:305-325 | all look-aheads of a walk inspect fewer prints than the tape holds |
| TapeRows.DirectionsAreDual | sim/tape_sim.py:493-503 | a fill for one direction is a refuting print for the other, at complementary prices |
| TapeRows.WalkOne | sim/tape_sim.py:566-585 | the rows are one direction's walk as written: streams by taker side, fair 1 -/+ pin rate, fair_lin 1 -/+ 0.006 G, settlement 0 or 1 for the strangle and 2 or 1 for the flip; ev, times and money written to their places, flag and pin of the event and the window |
| TapeRows.DirectionIsWalked | sim/tape_sim.py:506-585 | the events and written rows of one direction in terms of trades and prints alone |
| TapeRows.WalkWindow | sim/tape_sim.py:560-586 | a matched window's rows are its strangle rows and then its flip rows; it fails exactly when its results do not fit its outcome or some trade's two prices miss one by more than 0.0001 |
| TapeRows.DoWalks | sim/tape_sim.py:543-586 | on matched windows the pass succeeds if and only if every window can be walked, and its rows are the windows' rows laid end to end in order |
| TapeRows.PassIsWalked | sim/tape_sim.py:543-586 | the same of all windows of a pass, laid end to end |
| TapeRows.TapeIsContiguous | sim/tape_sim.py:543-586 | the pass over windows with distinct close times is contiguous, and reading a window back gives its own rows |
| TapeRows.WindowRowsDescend | sim/tape_sim.py:565-585 | within a window each direction's rows run forward in time, after rounding |
| TapeRows.PassEntersEarliest | sim/unseal_runner15.py:192-226 | on every pass output the evaluator enters a window if and only if some row of it may be entered in its quintile, and then at the earliest one |
| TapeRows.FreshnessIsRounded | sim/tape_sim.py:470-490 | a written row tests fresh if and only if both exact ages are at most 1.0005 s |
| Rounding.RoundIsNearest | sim/tape_sim.py:470-490 | written numbers are nearest values, ties to even |
| Rounding.RoundedIsWritten | sim/tape_sim.py:470-490 | a number written to n places is a multiple of its last place, at most half of it away from the exact value |
| TapeRows.DivergenceBand | sim/unseal_runner15.py:260-277 | flag and rounded cost disagree if and only if the exact cost is in [0.99995, 1) |
| TapeRows.SubDollarEntriesNeverLose | sim/unseal_runner15.py:192-226 | every sub-dollar flip entry made on a pass has a payoff that is not negative |
| TapeRows.PassTotalsCompare | sim/tape_sim.py:664-674 | summed over the windows of a pass, neither refutation nor a tighter staleness bound raises any total, and seconds stay within 900 per window |
| TapeRows.TotalsAreSums | sim/tape_sim.py:664-674 | the totals of a pass are the sums of its windows' summaries, number by number |
| Freshness.PolicyIgnoresStaleness | sim/unseal_runner15.py:192-258 | passes at any two staleness bounds above 1.0005 s lead to the same entries in the same order |
| Freshness.SurfaceIgnoresStaleness | claudes-corner/viz/aggregate.py:66-100 | such passes fill the freshest bracket of the surface alike, cell by cell |
| PriceGrid.GridPassAgrees | sim/unseal_runner15.py:260-277 | a pass over trades in whole ticks has no divergence, so strict mode accepts it |
| Pipeline.DaysRise | sim/census.py:289-290 | the requested days are sorted and distinct however they are given |
| Pipeline.GridRises | sim/census.py:285-295 | the hour grid is strictly increasing, so no close time repeats and its sort is idle |
| Pipeline.BuildGrid | sim/census.py:285-295 | the grid is strictly increasing and holds exactly the hours 1 to 24 of the requested days |
| Pipeline.WindowIsTold | sim/tape_sim.py:506-568 | a row has a window exactly when it is OK or has no quotes: its hour and day, width in cents, quintile by edges reached, pin rate, results, and the tapes of its two markets by orientation |
| Pipeline.LegsIff | sim/tape_sim.py:424-454 | on an eligible census row the matching fails if and only if two hourly strikes are written alike, and otherwise finds the census's pair |
| Pipeline.SubCentStrikesAreAmbiguous | sim/tape_sim.py:440-446 | a whole run input with an eligible row on which the matching fails: strikes 100.001 and 100.004 are written alike |
| Pipeline.CentStrikesMatch | sim/tape_sim.py:440-446 | on strikes in whole cents the matching settles on every eligible row |
| Pipeline.GridIsDated | sim/census.py:289-295 | every hour of the grid, midnight included, is dated to the requested day whose hours it is among |
| Pipeline.CensusWindowWalks | sim/tape_sim.py:543-568 | the repeated settlement check never fails on a census row: its window walks if and only if its trades can be read |
| Pipeline.RunWindowsAreReady | sim/tape_sim.py:506-568 | the windows of any run have distinct close times, are charged the fee law and meet what the pass theorems ask |
| Pipeline.RunWindowsAreDated | sim/tape_sim.py:577-586 | every window of a run carries a requested date and closes at an hour of that day |
| Pipeline.RunPass | sim/tape_sim.py:506-586 | the whole run succeeds if and only if every hour's row and legs settle and the trades can be read; its rows are the plain walks of the plain windows of the census rows, contiguous with one quintile per window |
| Pipeline.RunIsTold | sim/tape_sim.py:506-586 | what a run writes, from grid and census rows to windows and walks, each in plain terms |
| Pipeline.RunEntersEarliest | sim/unseal_runner15.py:192-226 | in every run an eligible window enters at its earliest enterable row, and grid-priced runs pass strict mode |
| Pipeline.EvaluateRun | sim/unseal_runner15.py:279-293 | however a run's rows are cut into files, the evaluation succeeds if and only if the run does and, in strict mode, nothing diverges, which tapes in whole ticks ensure; the report says of the run's rows what EvaluateFiles says |
| Pipeline.EverySplit | sim/unseal_runner15.py:279-288 | every way to write the rows to files is one of these cuts |
| HardFloor.PassIsRiskless | sim/tape_sim.py:758-769 | every first hard-floor entry of a pass banks a positive floor 1 - C, and realizes exactly $1 more on a pin |
| HardFloor.PolicyAddsUp | sim/tape_sim.py:747-783 | realized total = guaranteed total + pins, pins + escapes = entered, the guaranteed total is positive once a window is entered, the five bands hold each entered window once and the first is the sub-tick count |
| HardFloor.PassEntersAtFloor | sim/tape_sim.py:747-783 | one entry per window whose flip walk has an event under $1, at the first, paying $2 or $1 less its cost; counts, totals, the floors under a cent and the five bands in numerals |
| HardFloor.EnteredShrinks | sim/tape_sim.py:758-769 | neither refutation nor a tighter staleness bound enters more windows |
| HardFloor.PassCountsFloored | sim/tape_sim.py:669-673 | the windows entered are exactly those with a hard-floor event |
| TapeRows.PassFeedsSurface | claudes-corner/viz/aggregate.py:34-60 | a pass output has one quintile per window and no row after the close, as the surface theorems ask |
| Policy.BlocksAreContiguous | sim/unseal_runner15.py:228-241 | the incremental "seen before" test accepts exactly the streams in which each window is one block |
| Policy.StepIsSound | sim/unseal_runner15.py:228-258 | one row is accepted if and only if it continues its window and, in strict mode, agrees; the state then describes the longer stream |
| Policy.ReplayIsSound | sim/unseal_runner15.py:228-258 | a stream is accepted if and only if it is contiguous (and in strict mode divergence-free), and the state holds its totals and its open window's first candidates |
| Policy.ReplayIsBatch | sim/unseal_runner15.py:217-293 | closing the last window of an accepted stream reports what grouping by window reports |
| Policy.PolicyEvaluator.constructor | sim/unseal_runner15.py:167-183 | a fresh evaluator has fed nothing and satisfies the invariant |
| Policy.PolicyEvaluator.FinalizeWindow | sim/unseal_runner15.py:217-226 | the fields become those of the closed state: counted, burned or entered with its winner |
| Policy.PolicyEvaluator.ResetWindow | sim/unseal_runner15.py:185-190 | the fields become those of a window just started, with its quintile and no candidate |
| Policy.PolicyEvaluator.Consider | sim/unseal_runner15.py:241-258 | the fields become those of the judged state; refused exactly when that state is refused in strict mode |
| Policy.PolicyEvaluator.FeedRow | sim/unseal_runner15.py:228-258 | a row is refused if and only if it reopens a window or, in strict mode, disagrees; otherwise the fields are the replay of the longer stream |
| Policy.PolicyEvaluator.FeedFile | sim/unseal_runner15.py:279-288 | a file is accepted if and only if replaying the whole stream so far succeeds, and the fields are that replay |
| Policy.PolicyEvaluator.FeedFiles | sim/unseal_runner15.py:279-288 | the files are all accepted if and only if replaying their concatenation succeeds |
| Policy.PolicyEvaluator.Finalize | sim/unseal_runner15.py:290-293 | the report is the batch report of everything fed |
| Policy.EvaluateFiles | sim/unseal_runner15.py:149-293 | for any files laid end to end: accepted exactly when no window is left and reopened and, in strict mode, no young flip's flag contradicts its cost before the window's first sub-$1 row; one entry per window that is not burned and has an enterable row, at its first such row; eligible, burned and disagreeing counted |
| Policy.WinnerIsEarliest | sim/unseal_runner15.py:192-215 | a window is entered if and only if it has a fresh row of: a strangle with EV at least 0.05 in quintile 0, a flip under $1 in quintiles 0 to 3, a flip with EV at least 0.10 in quintile 4; the entry is the earliest, a strangle on ties |
| Policy.WinnerIsEntered | sim/unseal_runner15.py:192-215 | in any row order: an entry exists exactly when some row may be entered, and is made at the first such row of its direction, before the other direction's first or as early and a strangle |
| Policy.BatchReports | sim/unseal_runner15.py:192-293 | the grouped report lists one entry per enterable window in opening order, with the counts of windows and of disagreements, all in terms of row positions |
| Policy.NoneDisagrees | sim/unseal_runner15.py:241-258 | there is no divergence exactly when no fresh flip row, with no sub-$1 row of its window before it, has a flag against its cost |
| Policy.WindowsAreAccounted | sim/unseal_runner15.py:217-226 | eligible + burned = distinct windows |
| Policy.SourcesPartition | sim/unseal_runner15.py:334-344 | the three sources partition the entries: Q1 strangles in quintile 0, sub-$1 flips in 0 to 3, Q5 flips exactly in 4 |
| Surface.Fill | claudes-corner/viz/aggregate.py:88-94 | one row is added to exactly the cells lo..hi of its key |
| Surface.Touch | claudes-corner/viz/aggregate.py:81-100 | the prefix memory and the sub-$1 memory together remember exactly the slots reached, and each newly reached cell gets the row once |
| Surface.FoldRow | claudes-corner/viz/aggregate.py:45-100 | one row keeps memory and cells equal to the naive definition |
| Surface.Aggregate | claudes-corner/viz/aggregate.py:34-100 | every cell holds the number, the payoff sum and the pins of the rows that are the first of their window to qualify: both ages within 1 s, 5 s or any; the minute, 14 and more, or all; an EV of at least x cents or, in slot 31, a flip under $1 |
| Surface.NaiveTells | claudes-corner/viz/aggregate.py:34-100 | the naive cell holds the number, payoff sum and pins of exactly those rows |
| Surface.QualifiesIff | claudes-corner/viz/aggregate.py:65-84 | brackets, minute buckets and margins in numerals |
| Surface.CellCountsWindows | claudes-corner/viz/aggregate.py:34-100 | a cell counts exactly the windows that ever qualify for it |
| Surface.CountsAreMonotone | claudes-corner/viz/aggregate.py:37-100 | counts fall in x, rise with the freshness bracket, and no minute exceeds ALL |
| Surface.AllBelowMinutes | claudes-corner/viz/aggregate.py:29-32 | the ALL count is at most the sum of the fifteen minute counts |
| Surface.MarginIsExact | claudes-corner/viz/aggregate.py:81-83 | on six-decimal EVs the tolerant margin test is exactly "at least x cents" |
| BoxSelection.ScanLadder | pilot/service/box.py:177-206 | the ladder loop finds the chosen rung: usable, preferred to every earlier usable rung, with no later one preferred to it; none exactly when no rung is usable |
| BoxSelection.SelectionIsOptimal | pilot/service/box.py:177-206 | the chosen strike qualifies and minimises (distance of mid from target, minus gap from A) over all that qualify |
| BoxSelection.SelectsIff | pilot/service/box.py:141-235 | a box is selected exactly when all its fifteen fields are those of the quotes: sides, asks and bids of the sides bought, the chosen rung, both filters, limits, mids and implied pin |
| BoxSelection.NoBoxIff | pilot/service/box.py:156-211 | each of the five reasons for no box, by its exact condition |
| BoxSelection.SelectionIsOrderFree | pilot/service/box.py:156-235 | with distinct strikes the selection does not depend on ladder order |
| BoxSelection.SelectionMirrors | pilot/service/box.py:141-235 | unless the 15-minute quote is balanced and passes both filters, reflecting strikes about A and exchanging YES and NO mirrors the selection, with equal cost and implied pin |
| BoxSelection.TieBreaksMirror | pilot/service/box.py:156-198 | such a quote breaks the mirror on a one-rung ladder, whatever the parameters |
| BoxSelection.MirrorIff | pilot/service/box.py:141-235 | the selection mirrors on every ladder if and only if the quote is not balanced or fails a filter |
| BoxSelection.TradedParametersMirror | pilot/service/box.py:141-235 | with an ask floor above one half by more than half the spread, as traded, the selection always mirrors |
| BoxSelection.LimitIff | pilot/service/box.py:213-217 | the limit is the ask exactly for a zero margin up to 0.99 or an ask of 0.99; it covers the ask if and only if the ask is at most 0.99 |
| BoxSelection.SelectionPrices | pilot/service/box.py:156-235 | a box passed every filter on the sides it buys; unless crossed its cost exceeds $1 by at least its implied pin, and each limit covers its ask if and only if that ask is at most 0.99 |
| BoxSelection.BoxIsFlip | pilot/service/box.py:163-194 | every selected box is the flip of its corridor and pays $2 inside, $1 outside, for every print |
| BoxMachine.CacheIsTransparent | pilot/service/box.py:305-350 | in every reachable state the cached view is a fresh one, and the cached machine acts like one that selects at every event |
| BoxMachine.OfferIff | pilot/service/box.py:291-350 | a box is on offer at an event exactly when, inside the entry window, the last updates of its two markets are not suspect and no older than the freshness bound, and the last tops of the hour's markets select it |
| BoxMachine.BooksAreLatest | pilot/service/box.py:318-335 | the folded books hold the last update of every subscribed market |
| BoxMachine.RunActsPlainly | pilot/service/box.py:318-458 | over the event list alone: the first offer no later than the cutoff decides the hour (skip under the floor, else fire, on paper in shakedown), the first offer at or above the floor after a skip is rescanned, the first event past the cutoff of an undecided hour stands down, nothing else acts; legs, limits and box of each action |
| BoxMachine.PicksAreEmitted | pilot/service/box.py:346-458 | the state remembers exactly the boxes it has fired, skipped and rescanned |
| BoxMachine.RunDoesExpected | pilot/service/box.py:318-458 | what event i of any run emits is fixed by the history of offers and cutoffs, without latches |
| BoxMachine.DecisionAtFirstReady | pilot/service/box.py:386-458 | a decision falls exactly at the first fresh qualifying instant before the cutoff, a skip if and only if the implied pin is under the floor |
| BoxMachine.DecidedPairPays | pilot/service/box.py:421-458 | every pair a run fires or skips is a flip of one of its hour's corridors, in equal contracts, paying $2 or $1 for every print, with each limit covering its ask if and only if that ask is at most 0.99 |
| BoxMachine.FiresBelowAsk | pilot/service/box.py:213-217 | with the shipped parameters a run fires a 15-minute leg whose limit is below the ask it was chosen at |
| BoxMachine.OneShot | pilot/service/box.py:340-458 | at most one decision, one stand-down and one rescan in a run, and no stand-down after a decision |
| BoxMachine.RescanFollowsSkip | pilot/service/box.py:346-378 | a rescan only follows a skip |
| BoxMachine.NoFireAfterStandDown | pilot/service/box.py:384-404 | on chronological events nothing is decided after a stand-down |
| Alignment.NormalizeIsIdempotent | pilot/service/orders/envelope.py:171-193 | normalising again gives the same as normalising once, only prices change, and a NO leg gets one less the raw price, a YES leg the raw price |
| Alignment.IndexSlots | pilot/service/executor.py:271-280 | the dictionary holds the last slot of each id, the list the anonymous slots in order |
| Alignment.AlignOne | pilot/service/executor.py:281-289 | one pop answers the leg with its declared slot and leaves the rest unpopped |
| Alignment.AlignBatch | pilot/service/executor.py:271-289 | one response per leg, in leg order: from the last slot with its own id when no earlier leg has that id, else from the nameless slot with its own place in the queue, else unfilled; fill, fault and mark are the slot's, a price is one less the raw one for a NO leg and the raw one for a YES leg |
| Alignment.AnswerIsAligned | pilot/service/executor.py:271-289 | every declared answer, also on mixed batches, is that answer |
| Alignment.AnswerNamesLeg | pilot/service/executor.py:271-289 | every answer carries its own leg's id |
| Alignment.SlotsUsedOnce | pilot/service/executor.py:271-289 | no response slot answers two legs |
| Alignment.EchoedIdsAlign | pilot/service/executor.py:271-289 | with distinct ids, an echoed id is answered by its own slot wherever it stands in the batch |
| Alignment.AnonymousAlignsInOrder | pilot/service/executor.py:271-289 | slots without ids answer legs by position |
| Execution.VerdictIff | pilot/service/executor.py:160-206 | a call is dispatched if and only if it passes arm, caps, route, cutoff, one-entry, single-flight and budget |
| Execution.VerdictIsGated | pilot/service/executor.py:160-206 | each refusal by its exact condition, after those before it |
| Execution.EndingIsPlain | pilot/service/executor.py:221-269 | how each reply ends a dispatch, response by response |
| Execution.DispatchKeepsOrder | pilot/service/executor.py:208-219 | every POST of the extended run still follows its own journaled intent and passed the gates |
| Execution.DispatchKeepsAccounts | pilot/service/executor.py:193-219 | tokens stay equal to the charge per leg, posted or dropped, and within budget, and a window is marked if and only if one entry of it returned |
| Execution.EntriesAreBounded | pilot/service/executor.py:193-219 | in every run a window gets at most one ENTRY more than its unreadable replies, and its tokens are those of its posted and dropped legs |
| Execution.TallyDispatch | pilot/service/executor.py:193-219 | what one dispatch adds to the legs posted, dropped and charged and to the entries posted, returned and crashed |
| Execution.SecondEntryIff | pilot/service/executor.py:208-267 | the same entry passes again if and only if its envelope could not be built or its accepted reply cannot be read, and the budget covers it twice; only the second way posts two entries |
| Execution.GarbledReplyPostsTwice | pilot/service/executor.py:208-267 | with the shipped configuration a reply of status 200 without a readable body leads to two posted entries |
| Execution.RefusalJournals | pilot/service/executor.py:292-306 | a refused call journals its intent and one refusal per leg, and posts nothing |
| Execution.DispatchJournals | pilot/service/executor.py:221-269 | a returning dispatch journals its intent and one response per leg; one that raises, before or after its POST, only its intent |
| Execution.Executor.constructor | pilot/service/executor.py:103-121 | a new executor has an empty run and is armed as configured |
| Execution.Executor.SetArmed | pilot/service/executor.py:126-130 | arming changes nothing else |
| Execution.Executor.JournalResponses | pilot/service/executor.py:304-306 | one record per response is appended, in order |
| Execution.Executor.Refuse | pilot/service/executor.py:292-299 | the journal grows by the refusal's records, one no-fill per leg is returned |
| Execution.Executor.Dispatch | pilot/service/executor.py:221-269 | no POST when the envelope cannot be built, otherwise exactly one; a POST that raised or a status outside 200-299 fills nothing, a lone leg gets its own response with its price in its own space, several legs are aligned, an unreadable accepted body raises |
| Execution.Executor.Commit | pilot/service/executor.py:208-219 | budget is reserved and intent journaled before the POST; in-flight is empty afterwards even when the dispatch raised |
| Execution.Executor.Decline | pilot/service/executor.py:160-206 | a refused call leaves tokens and marks alone, posts nothing, and returns one unfilled response per leg |
| Execution.Executor.Proceed | pilot/service/executor.py:207-219 | a permitted call charges its legs, is posted once after its intent and returns the responses of its reply, or raises |
| Execution.Executor.Execute | pilot/service/executor.py:145-219 | the refusal is the first reason that applies, in numbers; a refused call fills nothing, is journaled leg by leg and leaves the books alone; a dispatched one is journaled, posted once, charged per leg, marked when an entry returned, and ends as its reply says; and the run stays orderly and accounted |
| Rotation.StepIsSafe | pilot/service/journal_io.py:120-148 | every atomic step, and so every cut between steps, keeps each stem's content raw or whole in .gz |
| Rotation.FlushIsSafe | pilot/service/journal_io.py:203-208 | a writer that does not flush a stem rotation has copied keeps safety, also while that stem is being copied |
| Rotation.RunIsSafe | pilot/service/journal_io.py:120-237 | safety in every state of every run of steps, crashes, wakes and flushes |
| Rotation.ReadersSeeOriginals | pilot/service/journal_io.py:62-84 | in a safe state readers find exactly the flushed stems, the summary apart, each with its original content |
| Rotation.JournalPaths | pilot/service/journal_io.py:62-84 | each stem with a raw or compressed journal is listed once, raw preferred, the summary never |
| Rotation.FlushIsKeptIff | pilot/service/journal_io.py:120-208 | in any phase of rotation, flushed content is read back throughout every run that follows if and only if its stem was not copied yet or the content is what was flushed before |
| Rotation.FlushIsSafeIff | pilot/service/journal_io.py:120-208 | such a flush leaves a safe world if and only if it is harmless in that sense |
| Rotation.HarmfulIsLost | pilot/service/journal_io.py:133-208 | any other flush can be lost within two steps |
| Rotation.SecondFlushIsLost | pilot/service/journal_io.py:203-208 | a second flush after a failed delete is read before the next sweep and gone after it |
| Rotation.FlushDuringRotationIsLost | pilot/service/journal_io.py:133-147 | a flush between the copy and the rename is read before them and gone after them |
| Rotation.TallyAccounts | pilot/service/journal_io.py:195-228 | each file adds one to scanned and to exactly one of rotated, kept, errors, deferred |
| Rotation.TreatsMore | pilot/service/journal_io.py:195-226 | a file is kept, cleared, in error, deferred or rotated by its exact condition, and its raw, .gz and temporary file end as that treatment leaves them |
| Rotation.JournalDir.NothingIsLost | pilot/service/journal_io.py:120-237 | the code only ever takes steps of the crash protocol, so the directory it leaves is safe |
| Rotation.JournalDir.constructor | pilot/service/journal_io.py:151-194 | a wake may start from any safe directory, such as one a crash left |
| Rotation.JournalDir.GzipOne | pilot/service/journal_io.py:120-148 | each file step is a protocol step; on success .gz holds the raw content and raw is gone unless the delete failed; a failure up to the rename leaves both unchanged, one after it leaves both copies |
| Rotation.JournalDir.Abandon | pilot/service/journal_io.py:141-145 | cleaning up after a failure touches neither raw nor .gz, and removes the temporary file when its delete goes through |
| Rotation.JournalDir.Sweep | pilot/service/journal_io.py:195-226 | the report names exactly the files treated each way, in order, with the bound counted over the files rotated before, and every file, listed or not, is left as its treatment says |
| Rotation.JournalDir.RotateOne | pilot/service/journal_io.py:195-226 | one file is treated by its first applicable rule and no other file is touched |
| Rotation.JournalDir.Rotate | pilot/service/journal_io.py:151-237 | scanned = rotated + kept + errors + deferred, at most max_files rotated, nothing lost, and an error-free in-time backlog strictly shrinks |
| Rotation.JournalDir.Drain | pilot/service/journal_io.py:151-237 | wakes without failures or new journals leave nothing waiting once wakes times max_files reaches the backlog |
| Census.NearestAt | sim/census.py:336-345 | the pick has the least distance to the anchor of all hourly strikes |
| Census.NearestIsUnique | sim/census.py:336-345 | a market is strictly nearest exactly when it is the pick and there is no tie |
| Census.RowIsTold | sim/census.py:305-504 | every row, status by status: which input is missing or wrong, the pair, G/sigma to six places of the width in cents over the deviation of the eight anchor steps, results, outcome, costs and payoffs |
| Census.NarrowIff | sim/census.py:197-206 | the corridor is excluded if and only if it is at most half a cent wide |
| Census.WorstIsWorse | sim/census.py:427-470 | on well-formed grid candles C_worst >= C_base and payoff_worst <= payoff_base |
| Census.EligibleRowsSettle | sim/census.py:305-504 | an eligible row has a unique nearest strike off the anchor, its outcome is the corridor's, and the tape walk's flip check never fails on it |
| Census.OkRowsPay | sim/census.py:452-473 | an OK row pays the strangle settlement less its cost, per column, and WORST never pays more than BASE on well-formed candles |
| Census.SettlementNeverImpossible | sim/census.py:384-418 | agreeing prints and results always classify |
| Census.BuildCensus | sim/census.py:305-504 | one such row per hour in order, failing exactly when some hour fails; the inventory lists, per status, exactly the hours of the rows that are not OK, in order |
| Gate.QuantileIsMonotone | sim/gate_fit.py:63-75 | type-7 quantiles never leave [min, max] and never fall as p rises |
| Gate.QuantileHitsOrderStatistics | sim/gate_fit.py:63-75 | the quantile is the order statistic at each step and linear between them |
| Gate.EdgesAscend | sim/gate_fit.py:83-86 | quintile edges are sorted |
| Gate.BucketInterval | sim/gate_fit.py:89-91 | a value's bucket is the interval between edges that holds it |
| Gate.BucketsKeepOrder | sim/gate_fit.py:89-91 | buckets preserve order |
| Gate.GroupByDay | sim/gate_fit.py:155-160 | each day's list holds its values in row order, blanks left out |
| Gate.PoolDraw | sim/gate_fit.py:163-168 | a draw pools the values of its days in order, a day drawn twice counted twice |
| Gate.ScoreDraws | sim/gate_fit.py:161-170 | one mean for each draw that pools anything, in order |
| Gate.IntervalIsPlain | sim/gate_fit.py:140-175 | the interval is the 2.5% and 97.5% type-7 quantile of the pooled means, each defined by positions: sum over count of the drawn days' values |
| Gate.BootstrapCi | sim/gate_fit.py:140-175 | that interval, and the number of draws used; none exactly when no draw pools anything |
| Gate.BootstrapWithin | sim/gate_fit.py:153-175 | for any draws, min value <= lb <= ub <= max value |
| Gate.FillBuckets | sim/gate_fit.py:210-212 | bucket b holds, in order, exactly the rows whose value has reached b edges |
| Gate.PrefixIsJudged | sim/gate_fit.py:236-241 | the first k buckets laid end to end clear or not by their own bootstrap |
| Gate.EdgesAreEdges | sim/gate_fit.py:83-86 | the edges are the 20%, 40%, 60% and 80% quantiles |
| Gate.Cutoff | sim/gate_fit.py:264-268 | the cutoff is the edge above the gated buckets, or the attained maximum of all rows; below the top bucket a row is gated if and only if it is under it |
| Gate.ThresholdReadingIff | sim/gate_fit.py:264-268 | a fitted gate is "the rows below its cutoff" if and only if the rows of all buckets together do not clear |
| Gate.GainersClear | sim/gate_fit.py:236-241 | rows that all gain clear whatever is drawn, as long as a draw pools anything |
| Gate.AllBucketsGated | sim/gate_fit.py:205-268 | five winning rows, one per quintile, are not degenerate and gate all five buckets |
| Gate.FitGate | sim/gate_fit.py:205-280 | refuses no rows, edges out of order and an empty bucket; else the first k of five buckets clear together, no larger number does, and the cutoff is edge k, or the largest value when k is 5; for any draws, and the gate holds a row that gains |
| Gate.LargestPrefix | sim/gate_fit.py:236-262 | the largest prefix that clears, found by scanning down with one bootstrap per prefix |
| Gate.ClearingNeedsGain | sim/gate_fit.py:236-262 | whatever days are drawn, a positive lower bound needs a row with a positive payoff |
| Gate.GateIsThreshold | sim/gate_fit.py:265-268 | a prefix of k <= 4 buckets is exactly the rows under edge k-1 |
| Book.ParseLevels | pilot/service/book.py:119-134 | a snapshot side holds for each price the size of its last entry above zero, and nothing without one |
| Book.TrustStep | pilot/service/book.py:107-170 | the mirror is trusted if and only if there was a snapshot and no malformed delta or invalidation since |
| Book.MoveMirrors | pilot/service/book.py:136-160 | a delta moves one price's size to max(0, size + delta) and nothing else |
| Book.SizeRests | pilot/service/book.py:107-160 | the size at a price follows the history message by message: set by a snapshot, moved by a delta and cut at zero, untouched otherwise |
| Book.BestBid | pilot/service/book.py:181-190 | the best bid is the highest stored price with its size |
| Book.BookMirror.constructor | pilot/service/book.py:96-105 | a new mirror is empty and suspect |
| Book.BookMirror.ApplySnapshot | pilot/service/book.py:107-117 | both sides are replaced and trust is restored |
| Book.BookMirror.ApplyDelta | pilot/service/book.py:136-164 | sizes keep equal to the pointwise fold since the last snapshot; a malformed delta counts and sours |
| Book.BookMirror.MarkSuspect | pilot/service/book.py:166-170 | an invalidation sours the book and keeps its levels |
| Book.BookMirror.Top | pilot/service/book.py:220-236 | each best bid is the highest price at which the history leaves anything, with its size; each ask is one less the other side's bid; suspect unless a snapshot was followed by sound messages only |
| Book.DerivedQuotesAgree | pilot/service/book.py:192-204 | YES and NO spreads are equal, and exchanging sides is the mirror used in box selection |
| Dedupe.PlaceWindow | tools/dedupe_v33_ledger.py:126-130 | a window row opens a slot or replaces the row in its close's slot |
| Dedupe.TakeRow | tools/dedupe_v33_ledger.py:111-130 | one row keeps output, slots and variants equal to their declarative values |
| Dedupe.DedupeRows | tools/dedupe_v33_ledger.py:96-140 | the output lists every row but the later ones for a window already seen, in order, each window row replaced by the last one for its window; counts by kind; conflicts are exactly the windows with two different bodies; read = written + removed |
| Dedupe.PassIsDeduped | tools/dedupe_v33_ledger.py:96-140 | output positions, contents, the five counts and the conflicts in terms of row positions and fields |
| Dedupe.FindConflicts | tools/dedupe_v33_ledger.py:131-131 | the conflicts are exactly the closes with two differing compare-keys |
| Dedupe.VariantsConflict | tools/dedupe_v33_ledger.py:122-131 | two remembered keys if and only if two rows of the close differ |
| Dedupe.CollapseIsDistinct | tools/dedupe_v33_ledger.py:96-140 | the output has one window row per close |
| Dedupe.CleanLedgerIsFixed | tools/dedupe_v33_ledger.py:96-140 | a ledger without duplicates is returned unchanged |
| Dedupe.DedupeIsIdempotent | tools/dedupe_v33_ledger.py:96-140 | a second run changes nothing and reports no conflict |
| Dedupe.PassthroughSurvives | tools/dedupe_v33_ledger.py:111-120 | backfill and no-close rows survive unchanged and in order |

## Left out

- The history downloader, proxy calls, retries and quiet-window sleeping: a network client.
- Reports, CSV and JSON text, argument parsing and the `main` functions: presentation.
- Hash pins, seal and preflight checks: one-branch guards over file existence.
- pilot/service/box_report.py, the rebuild and concatenation tools, and the recorder subclass: counting and formatting.
  Chunked runs are not claimed to equal one full run.
- Floating-point rounding: arithmetic is exact, except that the rounding of written rows is modelled.
- Parsing of timestamps, tickers, JSON and order envelopes: values arrive parsed, with parse failures as
  missing or garbled values.
- The construction of the EV curve: its four edges and five pin rates are inputs of a run.
- The standard deviation of the sigma tape: a function parameter; only its being zero matters to a row.
- The T-13, T-10 and T-2 price columns of the census: computed like the T-5 pair that the payoffs use.
- An hourly market without a strike raises in the census as in the source; the kind of the exception is not kept.
- The aggregator's `win_meta`, window counts and the best-EV table of its `main`: no interaction with the cells.
- Descriptive texts of actions and refusals: kinds are kept, wording is not.
- The pseudo-random generator: the draws are arbitrary.
- TapeRows.WalkWindow: starts from a window whose markets are found; the drift errors of the matching are part of Pipeline.RunPass.
- TapeRows.DoWalks: starts from matched windows likewise.
- Policy.PolicyEvaluator.FeedRow: after a refused row the evaluator's fields are unspecified, because the error ends the run.
- Execution.Executor.Execute: calls do not overlap; re-entry through the lock is not modelled.
- Execution.Executor.Dispatch: the id of a single-leg response is whatever the venue echoed, as in the source.
- Rotation.FlushIsSafe: assumes that no stem is flushed once rotation has copied it, which the deletion in the source relies
  on; a flush while a copy is running counts as before or after it.
- Rotation.JournalDir.Rotate: the clock, the age of files and the keep file are inputs; bytes saved are not counted, and
  stopping early is the deferred count.
- Gate.FitGate: per-bucket statistics, the WORST interval and observed maxima are left out.
- The file rewrite and the safe time band of the dedupe tool: file handling around the modelled law.
