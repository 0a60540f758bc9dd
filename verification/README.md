# Proved model of the duty roster, the download gateway and the swap-request migration

This project models, in Dafny, the parts of the repository whose correctness is hardest to see by
reading: the duty-assignment engine around its constraint solver, the protocol by which a
downloaded file and its capacity permit are handed from thread to thread, and the migration that
consolidates swap requests. Everything below is proved for all inputs, all runs and all
interleavings that the statement ranges over.

`dafny verify dfyconfig.toml` checks the whole project.

## What is modelled

**Dates, times, scores** (`Domain`). A date is a day number, a clock time a minute of the day, an
identifier a natural number in the order of the identifiers' text. Duties end on an exclusive
date. Eligibility of a soldier for a duty is an arbitrary predicate.

**The hard constraints** (`HardModel`, `Constraints`, `CoverageRules`, `OverlapRules`, `RestRules`,
`WindowRules`, `BuildModel`, `CalendarForm`, `PromisedRest`). `HardModel` says what a choice of (duty,
soldier) pairs must satisfy with no bound on windows or on the distance between duties,
`CalendarForm` says the same in nothing but dates, minutes and counts of days and soldiers, and
`PromisedRest` compares its rest around published bookings with what is promised. The other modules are the emission
loops, which restrict window starts to a range, clamp headroom, look ahead a bounded number of
days and reify quotas. The emitted constraints are satisfiable exactly for the choices that meet
the specification.

**Splitting a run** (`UnionFind`, `Components`, `Decomposition`, `Batches`, `Calendar`,
`Saturation`). Union-find with path halving on an array, the components of the eligibility graph,
the two ways of cutting a component into batches, and the date clusters of the diagnostics, which
use the same union-find.

**The batched run** (`Engine`, `Carry`, `InterleavedRun`, `Roster`, `Offers`, `BatchedSolve`). The
constraint solver is an object that answers each call with a point that satisfies what it was given, with nothing, or
with a cancellation; it may answer differently every time. Around it: the relaxation chain, soft
coverage in two stages, carrying bookings and effort from batch to batch, the retry of leftovers.
`Roster` reads the result off the calendar, without the bookings that the run carries along; `Offers`
says which duties were put to the solver and that the roster is made of its answers.

**The relaxation ladder** (`Relaxation`), **the fairness scale** (`Fairness`) and **the swap pass**
(`SwapModel`, `SwapPass`, `SwapGoal`, `SwapCaches`, `SwapRun`). The pass builds seven caches with loops over
the solver's assignments and from then on updates them in place as fields. Comparisons with the
mean effort compare `n * effort` with the total. `SwapGoal` says which transfers the rules allow and
which of them help, without the pass.

**Explanations and reserves** (`Explain`, `Hierarchy`, `Reserves`). The bisected overlap window
against the plain scan; ancestor sets, their distance and the links built on it.

**Downloads** (`Download`, `DownloadProtocol`, `RateLimiter`). The classes carry out the critical
sections; the protocol interleaves any number of requests, each with an opener thread, a coroutine
that can be cancelled or time out while it waits, a generator and a background task.

**Swap requests** (`SwapRows`, `SwapMigration`, `SwapConsolidation`). The backfill as statements on
tables, and what it promises about every table it may be given.

`Sums`, `Sorting` and `Arithmetic` hold shared definitions.

## Where the code and its own documentation differ

The model follows the code.

- A comment promises rest between each duty and the soldier's next one, published or new
  (`backend/app/algorithm/model.py:390-392`). For a published booking the code only asks whether the
  duty starts before the rest after that booking is over, which is also true of a duty long before
  the booking, and bookings that lie ahead are loaded
  (`backend/app/services/algorithm_bridge.py:796-806`). The manual assignment check does distinguish
  the two (`backend/app/services/assignments.py:115-130`).
  `PromisedRest.BookedRestAsPromisedIff` is the exact condition for the code to ask for the promised
  rest after bookings and no more, `PromisedRest.RestBeforeBookingsIff` the one for it to keep the
  rest before bookings, which it never looks at. A booking that carries a rest requirement bars its
  soldier from everything earlier (`PromisedRest.NothingBeforeRestingBooking`); in
  `PromisedRest.MonthAheadInfeasible` that leaves a run without a solution.
- The same promise covers duties assigned in one run. The booking that a batch leaves behind for the
  later ones carries no rest requirement (`backend/app/algorithm/solver.py:611-615`):
  `PromisedRest.RestAcrossBatchesIff` says exactly when the rest is kept all the same,
  `PromisedRest.RestLostBetweenBatches` is a pair of duties for which it is not.
- The swap pass documents that a moved duty counts once per window, "matching the solver's
  convention" (`backend/app/algorithm/solver.py:1545-1547`). The solver counts every day of a duty.
  `SwapPass.LongDutyMayExceedCap` is an accepted transfer that takes a window above its cap, in a
  roster that kept all caps;
  `SwapModel.StaysWithinCap` is the exact condition for a window to stay within it, and one-day
  duties always meet it (`SwapPass.TransferDensity`).
- A cluster whose free count is zero is documented as "a proven structural shortfall", with every
  eligible soldier committed elsewhere "on those exact dates" (`backend/app/algorithm/types.py:209-214`).
  The code compares commitments with the hull of the whole cluster, so a soldier who is busy on
  some other day of the hull counts as committed. `Saturation.HullTestExact` and
  `Saturation.FreeMeansClear` say what is counted; `Saturation.ShortfallProvenIffAllSpanHull` says
  when a zero count does prove the shortfall: exactly when every duty of the cluster spans the whole
  hull, which can be read off the dates. `Saturation.DiagnoseStaggered` carries the counts out on a
  cluster of two staggered duties: nobody is free, and the one eligible soldier could take a duty.
- The domain of the deviation variables is justified in a comment by "Σ weights ≤ K"
  (`backend/app/algorithm/model.py:438`). Rounding up makes that K plus the number of duties. The
  domain leaves a value to every choice exactly when it has room for the two extreme choices, no
  duty and every possible duty (`Fairness.CutsNothingIffExtremesFit`); a range that one soldier's
  effort cannot overrun is enough (`Fairness.DomainNeverCutsOff`), and the range that each batch
  derives for itself always is one (`Fairness.AutoRangeCutsNothing`). A comment says that the bridge
  always stamps the range (`backend/app/algorithm/model.py:440-441`); it no longer does
  (`backend/app/services/algorithm_bridge.py:1663-1670`), the settings default to none
  (`backend/app/algorithm/types.py:142-143`), and only the replay script passes on the range of a
  saved dump (`backend/app/scripts/replay_solver.py:94-95`). Through that route a range can be too
  narrow for the batch, and then a choice that meets every hard constraint is cut off:
  `Fairness.NarrowRangeCutsOff` is such a problem.
- The overlap window of an explanation is justified by ends being in the order of starts
  (`backend/app/algorithm/explain.py:37-41`). `Explain.WindowExactIffEndsAscend` shows that this is
  exactly what it takes. Duties as the solver hands them out have it (`Explain.TidyEndsAscend`), so
  the marks are right (`Explain.OverlapMarks`); `Explain.NestedDutyMissed` only shows why the
  hypothesis is needed and is no claim about solver output.
- Reserve linking is documented as one link per primary that has a reserve in its shift
  (`backend/app/algorithm/reserve.py:67`). It needs a reserve at distance below 999:
  `Reserves.LinkReserves` has the exact statement, `Reserves.DeepPrimaryUnlinked` a case without a
  link, `Reserves.SmallHierarchyLinksAll` the size below which it cannot happen.
- The migration's comments say that no approval progress is lost because an awaiting row always
  survives (`backend/alembic/versions/4a4997526f58_unify_swap_requests_with_candidates.py:59-71`). A
  row that its group gives up is deleted, and the foreign key of the approvals deletes its approvals
  with it (`backend/alembic/versions/b388b74fdae9_add_swap_manager_approvals.py:25`).
  `SwapConsolidation.ApprovalsRemainIffNonePreceded` says exactly when every approval, of either
  side, is kept: when none sits on a row that another live row of its group precedes in the
  migration's order. `SwapConsolidation.ApprovalsKeptIffNonePreceded` adds that the covering ones
  then point at their own soldiers. `SwapConsolidation.SecondCoverLosesApproval` is a group of two
  awaiting rows, the second of which loses its approvals.

## Model

| member | source | states |
|---|---|---|
| `Domain.ScoreDaysMeaning` | backend/app/algorithm/duration.py:25-32 | the wall-clock length rounded up is the number of calendar days touched, less one exactly when a duty of two days or more ends by its starting hour, and one for the sentinel whose dates are equal |
| `Domain.BlockScoreMeaning` | backend/app/algorithm/model.py:26-29 | the block score is the daily score times those days in thousandths, its fraction dropped towards zero, for scores of either sign |
| `BuildModel.Build` | backend/app/algorithm/model.py:267-611 | the emitted constraints can be satisfied on given choices exactly when the choices meet every hard constraint, for hard and soft coverage |
| `CalendarForm.HardSatMeans` | backend/app/algorithm/model.py:267-611 | those hard constraints are: duties go to eligible soldiers, one or at most one each; met quotas count the soldiers of the subtree; nobody serves twice on a day or where he is booked; each start leaves the rest in minutes after the last day of an earlier duty or after a booking; a window with a day of service in it holds at most the cap of busy days, real ones under T, all under R |
| `CalendarForm.RestClashMeans` | backend/app/algorithm/rest.py:8-28 | two duties clash exactly when the later one starts fewer minutes after the end of the last day of the earlier one than that one asks for |
| `CalendarForm.RestBetweenDuties` | backend/app/algorithm/model.py:412-425 | of two duties chosen for one soldier the later starts at the earliest when the rest after the last day of the earlier one is over |
| `CalendarForm.BusyDaysCount` | backend/app/algorithm/model.py:555-585 | the model's sum of overlaps plus the booked days of a window is the number of days in it on which the soldier serves or is booked |
| `CoverageRules.EmitCoverage` | backend/app/algorithm/model.py:323-338 | exactly one, or at most one, soldier per duty; duties that nobody may take are unconstrained |
| `CoverageRules.EmitQuotas` | backend/app/algorithm/model.py:340-371 | the quota constraints hold for given covered-flags exactly when each quota with a matching variable is met by every duty whose flag is set |
| `CoverageRules.QuotasUnreified` | backend/app/algorithm/model.py:349-371 | some setting of the covered-flags satisfies the reified quotas exactly when the plain quotas hold for the duties that are taken |
| `OverlapRules.EmitOverlap` | backend/app/algorithm/model.py:373-388 | the day-by-day constraints say that a soldier's chosen duties share no day with each other or with his booked days |
| `OverlapRules.DaysToPairs` | backend/app/algorithm/model.py:373-388 | at most one duty on every day is the same as pairwise disjoint duties |
| `RestRules.BeyondLookahead` | backend/app/algorithm/model.py:412-425 | a duty that starts more than ceil(rest/24)+1 days after another ends cannot clash with it |
| `RestRules.EmitPairsFrom` | backend/app/algorithm/model.py:413-425 | cutting the scan off at the lookahead excludes exactly the clashing later duties in start order |
| `RestRules.EmitBookedRest` | backend/app/algorithm/model.py:398-407 | the emitted constraints hold exactly for the choices without a duty that starts before the rest after some booking of the soldier is over, whether that booking lies behind the duty or ahead of it |
| `PromisedRest.BookedRestAsPromisedIff` | backend/app/algorithm/model.py:390-407 | they ask for the promised rest after earlier bookings and nothing more, over all choices, iff each eligible duty that clashes with a booking ahead of it also clashes with one that is not |
| `PromisedRest.RestBeforeBookingsIff` | backend/app/algorithm/model.py:390-407 | they keep the promised rest before later bookings as well, whatever time of day those start, iff each eligible duty that ends too late for a booking ahead clashes with some booking |
| `PromisedRest.NothingBeforeRestingBooking` | backend/app/algorithm/model.py:398-407 | no choice that meets the hard constraints has a soldier serve a duty that starts before a booking of his that carries a rest requirement, however far ahead |
| `PromisedRest.MonthAheadInfeasible` | backend/app/algorithm/model.py:398-407 | one soldier booked on day 30 and one duty on day 1: serving it keeps every other hard constraint and all promised rest, and the model has no solution |
| `RestRules.EmitRest` | backend/app/algorithm/model.py:390-425 | the emitted rest constraints hold exactly when no two chosen duties and no booking clash, over all pairs and in either order |
| `RestRules.PairsInOrder` | backend/app/algorithm/model.py:409-425 | the pairs of positions in start order are free of clashes exactly when no two chosen duties clash in either order |
| `WindowRules.WindowTerms` | backend/app/algorithm/model.py:558-574 | the terms found by bisection among the sorted duties count exactly the new duty days of the window |
| `WindowRules.AlreadyBooked` | backend/app/algorithm/model.py:556-585 | two bisects over the sorted booked days count the booked days of the window |
| `WindowRules.BoundedRangeSuffices` | backend/app/algorithm/model.py:537-552 | constraints at the window starts between the first and last relevant date imply the constraint at every integer window start |
| `WindowRules.EmitCap` | backend/app/algorithm/model.py:550-611 | the emitted constraints of one cap say, for each start in the range, that the window takes nothing new or new and booked days fit the cap |
| `WindowRules.EmitWindows` | backend/app/algorithm/model.py:518-611 | both caps hold over all window starts of the calendar exactly when the emitted constraints do |
| `UnionFind.DisjointSets.Find` | backend/app/algorithm/solver.py:407-411 | path halving terminates on every reachable parent array, returns the representative and changes no class |
| `UnionFind.DisjointSets.Union` | backend/app/algorithm/solver.py:413-416 | exactly the classes of the two arguments are merged |
| `UnionFind.HalvingKeepsForest` | backend/app/algorithm/solver.py:407-411 | linking a node to its grandparent keeps the array a forest with the same roots |
| `UnionFind.LinkingKeepsForest` | backend/app/algorithm/solver.py:413-416 | linking one root under another keeps the array a forest, of the merged partition |
| `UnionFind.MergedDecides` | backend/app/algorithm/solver.py:413-420 | if equal representatives mean linked, they still do after an edge is added and its ends' classes merged |
| `Components.ConnectedComponents` | backend/app/algorithm/solver.py:397-431 | each duty lies in one component; duties share a component, and a soldier belongs to one, exactly when they are linked through eligible pairs |
| `Decomposition.EligiblePairs` | backend/app/algorithm/solver.py:374-394 | exactly the eligible positions, by duty and then by soldier, none twice |
| `Decomposition.DecompositionExact` | backend/app/algorithm/solver.py:374-431 | no eligible pair crosses components, and choices meet the hard constraints of the whole problem iff their restriction to every component meets those of the component alone |
| `Decomposition.EveryDutyHasSomeone` | backend/app/algorithm/solver.py:490-497 | in a component with a soldier every duty has an eligible soldier |
| `Decomposition.Decompose` | backend/app/algorithm/solver.py:487-488 | what the code computes is such a decomposition of the eligibility graph |
| `Batches.InterleavedDutyBatches` | backend/app/algorithm/solver.py:434-458 | the batches partition the duties, none is empty or above the target size, sizes differ by at most one, there are as few as the size allows; batch j holds every n-th card of a deck: the duties by earlier start, then higher daily score, then lower type, equal ones as listed |
| `Batches.DealtAt` | backend/app/algorithm/solver.py:456-457 | the k-th duty of batch j is duty j + k * n of the sorted list |
| `Calendar.CalendarWindowBatches` | backend/app/algorithm/solver.py:718-743 | the batches concatenate to the input, each spans fewer start days than the window, and no grouping of that span has fewer groups |
| `Calendar.GreedyIsMinimal` | backend/app/algorithm/solver.py:733-742 | batches whose first starts are a window apart cannot be outnumbered from below by any other grouping |
| `Saturation.ClusterByDateOverlap` | backend/app/algorithm/saturation.py:32-61 | two duties are in one cluster exactly when a chain of date overlaps joins them |
| `Saturation.HullsDisjoint` | backend/app/algorithm/saturation.py:32-70 | for non-empty duties the hulls of two clusters share no day |
| `Saturation.HullIsCovered` | backend/app/algorithm/saturation.py:69-70 | every day of a cluster's hull is a day of one of its duties |
| `Saturation.HullTestExact` | backend/app/algorithm/saturation.py:81-84 | a commitment overlaps the hull exactly when it overlaps one of the cluster's duties |
| `Saturation.AnalyzeCluster` | backend/app/algorithm/saturation.py:64-97 | for any list of duties: the hull, the number of soldiers eligible for one of them, the number of those without a commitment over the hull, and for each duty type how many commitments over the hull the eligible soldiers have |
| `Saturation.FreeMeansClear` | backend/app/algorithm/saturation.py:64-97 | in a cluster of non-empty duties the soldiers counted as free are exactly the eligible ones who are committed against none of its duties |
| `Saturation.ShortfallProvenIffAllSpanHull` | backend/app/algorithm/types.py:207-217 | "no free soldier" proves that whoever is eligible for a duty of the cluster is committed against that duty, for every pool and all commitments, iff every duty of the cluster spans the whole hull |
| `Saturation.DiagnoseStaggered` | backend/app/algorithm/saturation.py:64-97 | two overlapping duties that form a cluster: the computed counts are one eligible soldier and none free, though he has every day of one of the duties open |
| `Relaxation.CurrentCaps.RelaxStep` | backend/app/algorithm/solver.py:1023-1037 | one rung up in place, R before T, or no change when both ceilings are reached |
| `Relaxation.StepClimbs` | backend/app/algorithm/solver.py:1031-1037 | a step raises one cap by one or two, keeps T at most R when the ceilings are so ordered, and uses up one of the remaining steps |
| `Relaxation.LadderPositions` | backend/app/algorithm/solver.py:1040-1058 | the list holds every rung above the base, ceil((ceilR-R)/2) + ceil((ceilT-T)/2) of them; the n-th has n labels, each of which names the cap that rose in its step and the new value |
| `Relaxation.LadderRises` | backend/app/algorithm/solver.py:1040-1058 | later positions are strictly higher |
| `Relaxation.LadderReachesCeilings` | backend/app/algorithm/solver.py:1471-1472 | the last rung is at both ceilings, or at the base where that is higher |
| `Relaxation.Prober.ProbeWithRetry` | backend/app/algorithm/solver.py:1159-1183 | the first attempt when it covers or is cancelled; otherwise the extended retry when that is cancelled or assigns more, and else the first |
| `Relaxation.SearchRelaxationLadder` | backend/app/algorithm/solver.py:1186-1245 | the outcome of one of the probes, never with fewer duties than the base; if the ceiling covers, the result covers at a rung whose lower neighbour was probed and fell short; inner probes are logarithmic; cancelled iff a probe was |
| `Relaxation.SearchInside` | backend/app/algorithm/solver.py:1230-1245 | the halving loop ends between a probed rung that fell short and the next one, which covers |
| `Relaxation.TenProbes` | backend/app/algorithm/solver.py:1230-1245 | logarithmic means at most ten inner probes for fewer than 1024 inner rungs |
| `Relaxation.ChosenIsLowest` | backend/app/algorithm/solver.py:1194-1199 | when coverage is monotone in the rung, the chosen rung is the lowest that covers |
| `Engine.Solver.RelaxationChain` | backend/app/algorithm/solver.py:1448-1524 | the rungs are tried from the base up, each later than the one below it and only after that one found nothing; the answer is what the solver found on the last one tried and meets the hard constraints there; no solution only after the ceilings; cancelled only if the last attempt gave no answer and the cancel event was set when looked at; each label names the cap raised |
| `Engine.Solver.SoftCoverage` | backend/app/algorithm/solver.py:891-961 | the answer is stage two's point, or stage one's when stage two finds none, or empty when stage one finds none; it meets the soft constraints and covers no fewer duties than stage one; cancelled only if the event was set after a stage |
| `Engine.Solver.SolveBatch` | backend/app/algorithm/solver.py:541-552 | the outcome is the hard answer on the lowest rung that has one, and the soft answer only when every rung was tried in vain; it meets the constraints at caps no higher than the larger of base and ceiling |
| `Carry.WindowAfterBatch` | backend/app/algorithm/solver.py:611-619 | after a batch is booked each window holds at most the cap, or no more than it held before |
| `Carry.PickGrowth` | backend/app/algorithm/solver.py:611-617 | one booking adds to a window at most what the model counted for it |
| `InterleavedRun.Run.BookOne` | backend/app/algorithm/solver.py:611-619 | one assignment is appended to the bookings and the effort offset moves by rate times score |
| `InterleavedRun.Run.RunBatch` | backend/app/algorithm/solver.py:524-619 | a batch adds exactly the picks of the solver's answer to its own problem, on top of everything booked so far, and reports exactly what it assigned; a cancelled one adds none, and the cancel event was set |
| `InterleavedRun.NeverDoubleBooked` | backend/app/algorithm/solver.py:461-715 | over any sequence of batches no soldier has two duties on one day |
| `InterleavedRun.NeverOnBookedDay` | backend/app/algorithm/solver.py:461-715 | nor any duty, his first included, on a day on which he was booked beforehand |
| `InterleavedRun.NeverUnrested` | backend/app/algorithm/solver.py:461-715 | nor any duty, in any batch or retry, that starts before the rest after a booking published beforehand is over |
| `InterleavedRun.DensityAfterBatch` | backend/app/algorithm/solver.py:611-617 | every window of the carried bookings stays within the larger of base cap, ceiling and what was booked beforehand |
| `Roster.CarryIsCalendar` | backend/app/algorithm/solver.py:611-617 | the days booked once a run carries its picks, real or all, are exactly the days of the bookings published beforehand and of the picked duties |
| `Roster.RosterIsGood` | backend/app/algorithm/solver.py:461-715 | over all batches: duties go to eligible soldiers, each at most once; nobody serves twice on a day, or on a booked day, or before the rest after a booking is over; the days of each window, counted from published bookings and picked duties alone, are at most the base cap, the ceiling or what was there beforehand, real days under T and all days under R |
| `BatchedSolve.MakePlan` | backend/app/algorithm/solver.py:487-497 | the batches are disjoint, non-empty and of at most the batch size, the soldiers listed with a batch include everyone eligible for one of its duties and are the same for all batches of a component, and the plan holds exactly the duties that somebody may take |
| `BatchedSolve.Solve` | backend/app/algorithm/solver.py:461-715 | whatever the solver answers: the roster is good (`Roster.RosterIsGood`), made of the solver's answers and reported under the right identifiers; the cancel event is looked at before every batch and the run stops early only if it was set; otherwise each duty that somebody may take was put to the solver together with everyone who may take it, and if it is still open once more after all batches of its component; it is reported optimal exactly when every duty is assigned, infeasible exactly when there are duties and none is |
| `Offers.RosterIsAnswers` | backend/app/algorithm/solver.py:611-619 | a duty is assigned to a soldier exactly when the solver's answer to one of the batches gives it to him |
| `Offers.WillingSolverFills` | backend/app/algorithm/solver.py:524-619 | if the solver finds a point for every question with hard coverage, every duty that somebody may take is assigned |
| `BatchedSolve.CountMeansAll` | backend/app/algorithm/solver.py:705-706 | as many assigned identifiers as duties means every duty is assigned |
| `PromisedRest.RestAcrossBatchesIff` | backend/app/algorithm/solver.py:611-617 | bookings carried from batch to batch keep their days and ask for no rest; so rest between duties of different batches is kept iff every clashing pair that one soldier could take shares a day |
| `PromisedRest.RestLostBetweenBatches` | backend/app/algorithm/solver.py:611-617 | two duties too close together that no single solve assigns to one soldier, and that two batches in turn can |
| `Fairness.AutoRangeCovers` | backend/app/algorithm/model.py:442-452 | the derived range is wide enough for any soldier to take every duty |
| `Fairness.RangeIffSomeoneMoves` | backend/app/algorithm/model.py:444-454 | a range is derived exactly when some soldier has a positive rate |
| `Fairness.AutoRangeMeaning` | backend/app/algorithm/model.py:444-452 | among those soldiers it runs from the least past effort to the greatest plus all scores at the greatest rate, and spans at least one |
| `Fairness.AllWeights` | backend/app/algorithm/model.py:460-461 | the weights of all duties together exceed the resolution by at most one per duty, despite rounding |
| `Fairness.OffsetMeaning` | backend/app/algorithm/model.py:457-458 | inside the range an effort goes to its share of the scale, rounded down, outside to the nearer end |
| `Fairness.WeightMeaning` | backend/app/algorithm/model.py:460-461 | a weight is the duty's share of the scale, rounded down, and one where that is less |
| `Fairness.TotalWithin` | backend/app/algorithm/model.py:485-496 | every soldier's total lies in [0, 2K + number of duties] for every choice |
| `Fairness.CentreWithin` | backend/app/algorithm/model.py:509-516 | so does the fixed centre |
| `Fairness.CentreIsMean` | backend/app/algorithm/model.py:499-516 | at equal rates the fixed centre is the mean, rounded down, of the totals with which every choice that gives each duty to one soldier ends, past effort included |
| `Fairness.CutsNothingIffExtremesFit` | backend/app/algorithm/model.py:442-516 | whatever the range, rates and scores: every choice over the variables has a legal value of the deviation variable iff the choices of no duty and of every duty keep their distance from the centre within the bound |
| `Fairness.DeviationFitsIff` | backend/app/algorithm/model.py:137-145 | a legal value exists iff the distance from the centre is within the bound, and then the distance is the least legal value |
| `Fairness.DomainNeverCutsOff` | backend/app/algorithm/model.py:137-145 | sufficient: a range as wide as the highest rate times the total score; then for every choice the distance is a legal value, and the least one |
| `Fairness.AutoRangeCutsNothing` | backend/app/algorithm/model.py:442-463 | on the range that a batch derives for itself no choice is cut off |
| `Fairness.PlainNeverCutsOff` | backend/app/algorithm/model.py:464-472 | when nobody's effort moves and every duty weighs one, the smaller domain of that branch cuts nothing off |
| `Fairness.NarrowRangeCutsOff` | backend/app/algorithm/model.py:442-463 | a problem of two soldiers and one duty, a stamped range of size one, and a choice that meets every hard constraint: no value of the idle soldier's deviation variable is legal |
| `SwapModel.EffortsMoved` | backend/app/algorithm/solver.py:1709-1745 | recomputed efforts change for the two parties only, each by its own rate times the score |
| `SwapModel.TotalMoved` | backend/app/algorithm/solver.py:1745-1745 | the recomputed total moves by the difference of the rates times the score |
| `SwapModel.L1FallsByGain` | backend/app/algorithm/solver.py:1721-1724 | the population's distance from the old mean falls by exactly the gain of the two parties |
| `SwapModel.GainfulLowersL1` | backend/app/algorithm/solver.py:1536-1538 | every accepted transfer strictly lowers the distance from the mean at the start of the iteration |
| `SwapModel.GainfulAtEqualRates` | backend/app/algorithm/solver.py:1690-1749 | at equal rates the mean stays, the true distance strictly falls, the maximum does not rise and the minimum does not fall |
| `SwapModel.DaysGained` | backend/app/algorithm/solver.py:1738-1742 | the recipient's recomputed dates grow by the duty's dates, its real dates only for a real duty |
| `SwapModel.DaysLost` | backend/app/algorithm/solver.py:1733-1737 | the donor's recomputed dates lose exactly the duty's dates, since nothing else booked him on them |
| `SwapModel.LoadGained` | backend/app/algorithm/solver.py:1661-1676 | a recipient's window gains exactly the duty's days in it |
| `SwapModel.RecipientDensity` | backend/app/algorithm/solver.py:1661-1676 | a checked window ends with at most cap - 1 plus the duty's days in it |
| `SwapModel.StaysWithinCap` | backend/app/algorithm/solver.py:1661-1676 | for both caps: a window of the recipient stays within the cap exactly when it had room for all the days in it that the duty adds, none for a reserve duty under T |
| `SwapModel.OthersDensity` | backend/app/algorithm/solver.py:1733-1745 | no window of anyone but the recipient gets fuller |
| `SwapPass.TransferDensity` | backend/app/algorithm/solver.py:1648-1676 | what an accepted transfer leaves in every window of donor and recipient; for one-day duties within T and R |
| `SwapGoal.AcceptableIffHelps` | backend/app/algorithm/solver.py:1691-1726 | the pass accepts a transfer exactly when the recipient is eligible, off duty on the duty's days and below the caps in every window that it checks, the donor is above the mean, the recipient below the donor, and the population's distance from the mean falls |
| `SwapGoal.NoDoubleBookingMeans` | backend/app/algorithm/solver.py:1543-1544 | nobody is double-booked: on no day does a soldier hold two duties, or a duty where he was booked beforehand |
| `SwapPass.LongDutyMayExceedCap` | backend/app/algorithm/solver.py:1666-1674 | from a roster in which every window of everybody is within both caps, an accepted transfer of a two-day duty leaves a window above its cap |
| `SwapPass.HasRoom` | backend/app/algorithm/solver.py:1661-1675 | the sliding windows with two bisects each decide whether every window that touches the duty has room for one more |
| `SwapPass.CanReceive` | backend/app/algorithm/solver.py:1651-1676 | the cached check equals the check on recomputed dates |
| `SwapPass.FindRecipient` | backend/app/algorithm/solver.py:1710-1726 | the acceptable recipient of least effort, or none exists |
| `SwapPass.FindForDonor` | backend/app/algorithm/solver.py:1705-1749 | the donor's acceptable duty of highest score, or none exists |
| `SwapPass.FindTransfer` | backend/app/algorithm/solver.py:1693-1749 | an acceptable transfer of the donor of highest effort that has one, or no acceptable transfer exists at all |
| `SwapCaches.BuildHoldings` | backend/app/algorithm/solver.py:1612-1616 | going through the assignments once gives the two maps between duties and soldiers, inverse to each other |
| `SwapCaches.BuildDates` | backend/app/algorithm/solver.py:1618-1647 | appending published bookings and held duties day by day, in whatever order a soldier's duties are visited, then dropping repeats and sorting, gives his booked days and his real ones |
| `SwapCaches.BuildEfforts` | backend/app/algorithm/solver.py:1678-1687 | adding up scores at each soldier's own rate, in whatever order his duties are visited, gives every effort and their total |
| `SwapRun.Caches.constructor` | backend/app/algorithm/solver.py:1612-1687 | the seven caches built by these loops all equal recomputation from the assignments |
| `SwapRun.Caches.Transfer` | backend/app/algorithm/solver.py:1727-1745 | after the incremental updates every cache again equals recomputation, and only the one duty changed hands |
| `SwapRun.Caches.Improve` | backend/app/algorithm/solver.py:1691-1749 | one iteration applies the first improving transfer, or reports that there is none |
| `SwapRun.TransferKeepsWindows` | backend/app/algorithm/solver.py:1648-1676 | with one-day duties an accepted transfer leaves every window of everybody, under T and under R, within its cap or no fuller than it was |
| `SwapRun.NoDenserMore` | backend/app/algorithm/solver.py:1690-1749 | so over any number of transfers each window stays within its cap or no fuller than at the start |
| `SwapRun.Run` | backend/app/algorithm/solver.py:1527-1751 | the result lists the same duties in the same order; moved duties go to eligible soldiers, nobody is double-booked; at equal rates the distance from the mean falls with every transfer and no effort leaves the range it started in; with one-day duties no window is fuller than its cap or its start; at most 3n transfers; a pass that stops before that leaves no transfer which the rules allow and which would lower the distance from the mean |
| `Hierarchy.NodeAncestors` | backend/app/algorithm/reserve.py:10-19 | the guarded walk ends on every finite parent map with exactly the nodes reachable by climbing |
| `Hierarchy.BuildAncestorCache` | backend/app/algorithm/reserve.py:22-32 | each cached set is the ancestor set |
| `Hierarchy.HierarchyDistanceCached` | backend/app/algorithm/reserve.py:43-49 | the cached distance is the distance |
| `Hierarchy.DistanceIsPseudometric` | backend/app/algorithm/reserve.py:35-40 | on every parent map: symmetric, triangle inequality, zero exactly between mutual ancestors |
| `Hierarchy.DistanceIsMetric` | backend/app/algorithm/reserve.py:35-40 | a metric on forests |
| `Hierarchy.CycleMeansZero` | backend/app/algorithm/reserve.py:15-16 | the parent map has a cycle exactly when two different nodes are at distance zero or a node is its own parent |
| `Hierarchy.DistanceIsShortestWalk` | backend/app/algorithm/reserve.py:35-40 | on a forest nodes are connected exactly when they share an ancestor, and then the distance is the length of the shortest walk |
| `Hierarchy.UnrelatedDistance` | backend/app/algorithm/reserve.py:35-40 | nodes of different trees are as far apart as both are deep |
| `Reserves.LinkReserves` | backend/app/algorithm/reserve.py:52-112 | in order, each primary with a reserve below distance 999 in its shift is linked to the first of the closest, with its distance; the others get no link |
| `Reserves.ClosestReserve` | backend/app/algorithm/reserve.py:91-103 | the first candidate at the least distance, or all are at 999 or more |
| `Reserves.SmallHierarchyLinksAll` | backend/app/algorithm/reserve.py:52-68 | in a hierarchy of fewer than 999 nodes a primary is linked exactly when its shift has a reserve |
| `Reserves.DeepPrimaryUnlinked` | backend/app/algorithm/reserve.py:91-105 | a primary 999 levels below its only reserve gets no link |
| `Explain.TidyEndsAscend` | backend/app/algorithm/explain.py:37-41 | disjoint non-empty duties in start order are in end order |
| `Explain.WindowIsOverlap` | backend/app/algorithm/explain.py:87-93 | the slice between the two bisects holds exactly the overlapping duties whenever starts and ends ascend |
| `Explain.OverlapMarks` | backend/app/algorithm/explain.py:42-50 | a soldier with disjoint non-empty duties is marked exactly when another duty of his overlaps the queried one |
| `Explain.OverlapMark` | backend/app/algorithm/explain.py:87-96 | the scan of the slice finds a duty other than the queried one iff the slice has one |
| `Explain.WindowExactIffEndsAscend` | backend/app/algorithm/explain.py:36-41 | for duties in start order without repeats the slice is right for every non-empty query iff they are in end order too |
| `Explain.NestedDutyMissed` | backend/app/algorithm/explain.py:36-41 | why the hypothesis is needed: a duty nested in another one makes the slice miss an overlap |
| `Download.PendingOpen.Open` | backend/app/file_gateway/routes.py:58-67 | the opened body is handed over, or closed when the request has gone |
| `Download.PendingOpen.Abandon` | backend/app/file_gateway/routes.py:73-79 | later bodies are refused and one handed over already is closed once |
| `Download.DownloadLease.Close` | backend/app/file_gateway/routes.py:94-103 | the first call closes the body and releases the permit even when closing raises; later calls do nothing |
| `Download.Chunks` | backend/app/file_gateway/routes.py:215-231 | the first reads are yielded whole and the next one decides: a failed one interrupts, one that would exceed the authorized size stops the stream, the end of the object ends it normally iff exactly that size has come; on every way out the body is closed and the permit given back, each once |
| `DownloadProtocol.StepKeepsSound` | backend/app/file_gateway/routes.py:150-252 | every step of opener, coroutine, stream or close keeps the ownership of body and permit accounted for |
| `DownloadProtocol.EveryRunIsSafe` | backend/app/file_gateway/routes.py:50-252 | in every interleaving no body is closed twice and no permit released twice; an ended request closed all it opened and released all it acquired; a stream that ends normally yielded the whole object, of the authorized size |
| `DownloadProtocol.EveryRequestCanBeServed` | backend/app/file_gateway/routes.py:150-252 | in every reachable state a request that has just arrived and finds a permit can be served by its own steps: whatever the object of the authorized size holds, it is streamed in full, opened and closed once, the permit drawn and given back once, and no other request changes |
| `DownloadProtocol.EveryStreamCanBeCut` | backend/app/file_gateway/routes.py:215-231 | in every reachable state a running stream can be cut off: it ends abnormally with exactly what it had yielded, body closed once and permit given back |
| `DownloadProtocol.EveryRunConservesPermits` | backend/app/file_gateway/routes.py:150-252 | available permits plus setups in flight and open leases is the capacity, and all permits are back when all requests have ended |
| `DownloadProtocol.EveryRunCanSettle` | backend/app/file_gateway/routes.py:150-252 | from every reachable state a request can come to its end by its own steps, with body closed and permit released |
| `RateLimiter.SlidingWindowRateLimiter.Allow` | backend/app/file_gateway/routes.py:118-134 | turned away exactly when the window that ends now holds the limit of all admissions ever made; no window ever holds more |
| `RateLimiter.SpacedIsThrottled` | backend/app/file_gateway/routes.py:118-134 | admissions a limit apart in the list being a window apart in time bounds every window, wherever it ends |
| `RateLimiter.CountsRecent` | backend/app/file_gateway/routes.py:128-131 | the length of the pruned queue is the number of admissions in the window |
| `SwapRows.Survivor` | backend/alembic/versions/4a4997526f58_unify_swap_requests_with_candidates.py:120-131 | the surviving row awaits approval iff some row of the group does, and no row precedes it in the migration's order |
| `SwapMigration.GroupRows` | backend/alembic/versions/4a4997526f58_unify_swap_requests_with_candidates.py:112-118 | every live row is in the group of its requester and duty, every other row is set aside |
| `SwapMigration.RowsBySoldier` | backend/alembic/versions/4a4997526f58_unify_swap_requests_with_candidates.py:170-178 | each soldier named in the group appears once, with the first of the rows that name him |
| `SwapMigration.Tables.Consolidate` | backend/alembic/versions/4a4997526f58_unify_swap_requests_with_candidates.py:135-203 | one candidate per named soldier, the survivor marked iff some row had no target, all other rows given up |
| `SwapMigration.Tables.Repoint` | backend/alembic/versions/4a4997526f58_unify_swap_requests_with_candidates.py:257-266 | an approval gets a candidate iff it is a covering one on a remaining row whose covering soldier has a candidate there, and it gets that one |
| `SwapMigration.Tables.Delete` | backend/alembic/versions/4a4997526f58_unify_swap_requests_with_candidates.py:226-227 | a request remains iff it was not given up, an approval iff its request was not |
| `SwapMigration.Tables.Upgrade` | backend/alembic/versions/4a4997526f58_unify_swap_requests_with_candidates.py:108-287 | the remaining rows are the survivors and the ended rows, the candidates are exactly the expected ones, no (request, soldier) twice, the remaining approvals are those of the remaining rows, re-pointed; `SwapConsolidation` reads all of it off the columns of the rows |
| `SwapConsolidation.Migrate` | backend/alembic/versions/4a4997526f58_unify_swap_requests_with_candidates.py:18-295 | the migration ends in a state of which the statements below hold |
| `SwapConsolidation.OneOpenParent` | backend/alembic/versions/4a4997526f58_unify_swap_requests_with_candidates.py:289-295 | at most one open parent per requester and duty |
| `SwapConsolidation.ParentsExact` | backend/alembic/versions/4a4997526f58_unify_swap_requests_with_candidates.py:108-142 | a row remains iff no row in progress of its case precedes it, with its identity and dates; open if it was in progress, else with its own status; on the marketplace iff it, or for a row in progress one of its case, had no target |
| `SwapConsolidation.GroupKeepsProgress` | backend/alembic/versions/4a4997526f58_unify_swap_requests_with_candidates.py:59-71 | each requester and duty with rows in progress keeps exactly one of them, awaiting approval whenever one was |
| `SwapConsolidation.CandidatesHaveParents` | backend/alembic/versions/4a4997526f58_unify_swap_requests_with_candidates.py:19-31 | every candidate's request remains |
| `SwapConsolidation.GroupCandidatesExact` | backend/alembic/versions/4a4997526f58_unify_swap_requests_with_candidates.py:144-199 | under the row that leads its case the candidates are exactly the soldiers that the rows in progress are about; accepted iff a row about him awaited approval, invited iff a row targets him, undecided, details from the first row about him |
| `SwapConsolidation.EndedRowKept` | backend/alembic/versions/4a4997526f58_unify_swap_requests_with_candidates.py:205-224 | an ended row remains, with one candidate for its covering soldier, or its target when nobody covers, and no other: applied iff the row was applied, otherwise cancelled; from the marketplace iff it had no target; with the row's offer, approval and creation date, decided when the row last changed |
| `SwapConsolidation.ApprovalFollows` | backend/alembic/versions/4a4997526f58_unify_swap_requests_with_candidates.py:252-266 | a covering approval on a surviving row remains and points at the candidate of that row's covering soldier, accepted if the row awaited approval |
| `SwapConsolidation.ApprovalsGo` | backend/app/db/models.py:866-868 | a row that is given up leaves no approval behind |
| `SwapConsolidation.ApprovalsRemainIffNonePreceded` | backend/alembic/versions/4a4997526f58_unify_swap_requests_with_candidates.py:59-71 | every approval of a request, of either side, remains iff none sits on a live row that another row of its group precedes |
| `SwapConsolidation.ApprovalsKeptIffNonePreceded` | backend/alembic/versions/4a4997526f58_unify_swap_requests_with_candidates.py:228-266 | every approval of a covering soldier remains and points at his candidate iff none sits on such a row |
| `SwapConsolidation.SecondCoverLosesApproval` | backend/alembic/versions/4a4997526f58_unify_swap_requests_with_candidates.py:236-250 | two awaiting rows in one group: an approval of the second, of either side, is gone, while its covering soldier is an accepted candidate |
| `SwapConsolidation.NewConstraintHolds` | backend/alembic/versions/4a4997526f58_unify_swap_requests_with_candidates.py:268-273 | the unique constraint with the candidate column holds because the one without it did |

## Left out

- The constraint solver itself, its time budgets, seeds, stall and cancel watchers, and profiling: an arbitrary answer that meets the emitted constraints stands for them.
- `Engine.Solver.SoftCoverage`: does not say that stage one's coverage is the largest possible, because the solver may stop early.
- The objective tiers beyond the deviation variables, and any claim that their weights form a strict lexicographic order.
- Decimal precision of scores and floating-point rounding of the mean effort (exact numbers here), and parsing of clock times.
- `Domain.ScoreDaysMeaning`: speaks of clock times within a day only; the text parser admits others.
- The eligibility rules themselves: an arbitrary predicate of soldier and duty, the same one for every module.
- Automatic relaxation of node quotas, and the merging of quota nodes into their parents.
- `BatchedSolve.Solve`: does not promise rest between duties of different batches, which the code does not keep (`PromisedRest.RestAcrossBatchesIff`), nor model the final sort of the assignments, batch results and progress callbacks.
- The effort-round solve and the calendar-window solve around their batching: `Relaxation` takes one full attempt on a component as an arbitrary outcome.
- `Relaxation.Prober.ProbeWithRetry`: the attempt is an arbitrary function of call number, rung and budget.
- `SwapRun.Run`: keeps eligibility, days and the checked windows, not rest or quotas, which the swap pass does not check.
- `SwapPass.SortedByKey`: leaves the order among equal keys open, which in the code follows the iteration order of sets.
- `Saturation.AnalyzeCluster`: the competing duty types are counted, their order in the listing is not modelled; nor is the diagnosis of infeasible runs.
- `Reserves.LinkReserves`: the children map is not used by the code; distances for the objective, computed per duty and soldier, are not modelled.
- `RateLimiter.SlidingWindowRateLimiter.Allow`: clock readings reach the lock in order, as they do on one event loop; the code reads the clock before it takes the lock.
- `Explain.OverlapMarks`: the other blocking reasons, effort figures and tie-break notes of an explanation.
- `DownloadProtocol.EveryRunIsSafe`: relies on the framework calling the response that it was given, on a read that never runs after its thread was given up, and on waiting for a permit either drawing one or not.
- Authorization, headers, object keys and the HTTP errors of a download beyond success or failure of the setup.
- `SwapMigration.Tables.Upgrade`: candidate identifiers are positions; the downgrade is not modelled.
- Routes, exports, workers, logging, settings and the frontend.
