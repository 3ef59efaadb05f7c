# VDRA budget allocation: model and proofs

This project models the allocation engine of VDRA, which decides how many branches each node of
a search tree may expand, and proves what the engine is for.

A queue of nodes has a budget of branches. Every node `s` has a dispersion `C_s`, and the engine
chooses whole numbers `k_s` between bounds so that the sum of `C_s / k_s` is as small as possible
for the budget. Around this solver are two families of rounders, a synchronous scheduler that
shares a budget among queues, an online manager whose queues fill up and are flushed, the ledger
that the flushes write onto the nodes, the bound that dispersions are computed from, the script
that compares the solver with four baselines, and the script that calibrates the tail allowance
of the bound. Two reconstruction algorithms of the same repository round the project off: putting
the shards of a ZeRO-3 checkpoint together, and flattening and unflattening nested dictionaries.

The modules, from the bottom up:

- `Prelude`, `Arithmetic`, `Dicts`: orders and deterministic choices, products, sums over dictionaries.
- `Separable`, `Greedy`, `GreedyOrder`: minimising a separable convex cost by unit steps.
  Exchange-stable vectors are exactly the optimal ones, and the one that the steps end with is
  determined; allocator and rounders both rest on this.
- `BranchCost`, `AllocatorSpec`, `AllocatorTheorems`, `FeasibilityRepair`, `NeverWorse`,
  `ObjectiveRises`, `Allocator`: the integer allocator as a function of what the nodes hold, its
  theorems, and the methods that update the node objects.
- `NodeKeys`, `SummaryKeys`, `WrittenNodes`: the same from outside. What a call reports and what it
  leaves on each node, said of the keys of that node and the settings of the call alone.
- `Rounding`, `StochasticRounding`, `LargestRemainder`, `Quota`, `DealtRounds`: the two rounders.
- `Ties`: the solver, both rounders and the scaling of the baselines are determined, ties included:
  each result is the only vector of its kind.
- `WaterFilling`, `WaterGap`: the continuous allocation by doubling and bisection, and what it can
  lose by stopping.
- `Sharing`, `SchedulerSpec`, `Scheduler`, `SchedulerKeys`: the synchronous scheduler.
- `Schema`, `OnlineSpec`, `ManagerRuns`, `FlushLedger`, `ReserveRuns`, `OnlineBudget`,
  `TreeSummary`: the online manager as a state machine, what holds over all its runs, the ledger,
  the objects, and the report over a finished tree.
- `ReadyFlushes`, `FlushKeys`: which queues a call flushes and why, and what one flush makes of the
  keys of its items.
- `Dispersion`, `GapForms`, `TailCalibration`, `CoverageExact`: the dispersion bound, its two forms
  written out, and the calibration of its tail allowance.
- `Levelling`, `Baselines`, `Proportions`, `Comparison`, `CompareAll`: the comparison script.
- `ZeroShards`, `Nest`, `NestSkips`, `NestLists`, `NestForms`: the reconstruction algorithms.

Every loop of the source that updates state is a method, proved against a specification function
or predicate; the theorems are lemmas about those. Reals stand for floats, unbounded integers for
Python's integers, and a dictionary of the source is a map, or an object with a map where it is
shared and updated in place.

## Where the code does less than its tests or documents say

- `tests/test_integer_allocation.py:99-103` is named after the objective never rising and checks one
  instance, on which it holds. In general it can rise: when the defaults do not spend the budget
  they are compared with as they stand, however far they are beyond the caps or the budget. For
  every accepted list of nodes `NeverRisesIff` gives the exact guard under which no dispersions
  make it rise, and `RisesOnCall` gives nodes on which a call reports a risen objective for every
  violation of it.
- `Summary.md:1093` calls the allowance the (1 - alpha)-quantile of the ratios. The interpolated
  quantile covers at least floor(q (n - 1)) + 1 of n pairs, which can be a smaller share than q.
  `CoversAlwaysIff` says exactly for which n, q and delta every sample is covered to a share of q.
- The comparison script lets `n_min` be zero. The solver then still gives every node a branch, the
  baselines need not, and the solver can lose, or raise where the baselines end; `WinsAlwaysIff`
  says exactly when, for all settings.
- The stochastic rounding strategy is not optimal for every draw; `AlwaysOptimalIff` says exactly
  for which inputs it is.
- `largest_remainder_rounding` deals in rounds by the fractions alone, so that a key lifted by its
  lower bound can take a unit that another is owed; `RoundOptimalIff` says exactly when it is
  optimal all the same.
- With the default cap mode and no separate repair cap the feasibility repair never lifts
  anything; `RepairLiftsIff` says exactly under which settings it can.
- A queue whose first item arrived at time 0.0 is reported with no waiting time, because the code
  writes `first_enqueued_at or current` (`vdra_core/online_budget.py:229`). The model keeps this,
  and `WaitKeptIff` says exactly when the time is right.
- When `n_min` is zero and some default is below one, pruning in a flush does not balance
  expansion (`FlushBalances`; `UnbalancedFlush` is such a flush), and the addition written onto
  such a node differs from the one in the summary (`FlushedNodesAgree`), because allocator and
  manager use different floors.
- A flush that lists one dictionary twice can report more as transferred than the manager's counter
  adds (`RepeatedFlush`); `RunReserveIff` says exactly in which runs counter and records agree.

## Model

| member | source | states |
|---|---|---|
| Separable.OptimalIffStable | vdra_core/core.py:334-349 | A vector within bounds is a global minimum of a separable convex cost, among all with its sum, if and only if no single unit can be moved profitably. |
| Separable.StableIsOptimal | vdra_core/core.py:334-349 | The exchange argument: an exchange-stable vector costs no more than any rival in the box with the same sum. |
| Separable.StableBeatsCheaper | vdra_core/core.py:334-349 | When no unit ever hurts, it also beats every rival that spends less. |
| Separable.RaiseKeepsStable | vdra_core/core.py:341-349 | Adding the cheapest unit that fits keeps exchange-stability. |
| Separable.LowerKeepsStable | vdra_core/rounding.py:43-48 | Taking back the dearest unit keeps exchange-stability. |
| Greedy.SpendInvariant | vdra_core/core.py:334-358 | After t turns of the loop the vector is in the box, exchange-stable, and spends min(lower + t, upper) exactly, so neither RuntimeError can be raised. |
| Greedy.SpendOptimal | vdra_core/core.py:341-349 | What the loop ends with is a global minimum among everything in the box that spends at most as much. |
| Greedy.SpendOneMore | vdra_core/core.py:341-349 | One turn more raises exactly one key by one and lowers none. |
| Greedy.OffersAfterRaise | vdra_core/core.py:346-349 | Popping a key and pushing it back while it has room leaves the heap with exactly the keys below their caps, each once, with its current gain. |
| Greedy.Solve | vdra_core/core.py:334-349 | The heap loop computes that vector, with the number of units it was given. |
| GreedyOrder.SpendSettled | vdra_core/core.py:341-349 | What the loop ends with is settled: the last unit of each key is cheaper than the next unit of any other, or as cheap with a name that comes first. |
| GreedyOrder.SettledUnique | vdra_core/core.py:341-349 | For a convex cost there is one settled vector for each sum, whichever way ties are broken. |
| BranchCost.DiminishingReturns | vdra_core/core.py:202-207 | The objective is an instance of the convex problem: the gains C/(k(k+1)) never rise with k and are never negative. |
| BranchCost.GainIsDrop | vdra_core/core.py:230-231 | The marginal gain is what one more branch takes off C/k. |
| BranchCost.AllocationOptimal | vdra_core/core.py:334-349 | The greedy allocation minimises the sum of C/k over all integer allocations within the bounds that spend at most as much. |
| BranchCost.AllocationSpends | vdra_core/core.py:339-351 | It spends every branch that it is given and that fits. |
| BranchCost.SolveBranches | vdra_core/core.py:334-351 | The loop over the branches returns the greedy allocation. |
| BranchCost.ComputeObjective | vdra_core/core.py:202-207 | The accumulating loop returns the sum of C/max(k, 1). |
| BranchCost.ObjectiveByKeys | vdra_core/core.py:202-207 | The objective of no nodes is zero, and each node adds what, times its branches, or once if it has none, is its dispersion. |
| AllocatorSpec.IntakeDescribes | vdra_core/core.py:272-301 | After the intake loop every node is in the table under its identifier with its own limits, and nothing else is. |
| AllocatorTheorems.IntakeAccepts | vdra_core/core.py:272-276 | The intake fails exactly on a repeated identifier or, in strict mode, a negative dispersion. |
| AllocatorTheorems.AllocateAccepts | vdra_core/core.py:260-335 | A call succeeds if and only if there are nodes, the intake accepts them, the budget reaches the lower bounds, and under the error policy does not exceed the caps. |
| AllocatorTheorems.AllocateBalanced | vdra_core/core.py:328-409 | On success the allocation is within the bounds, spends min(budget, caps after repair), and allocated plus underallocated is the budget. |
| AllocatorTheorems.AllocateOptimal | vdra_core/core.py:334-370 | No integer allocation within the same bounds that spends at most as much has a smaller objective. |
| AllocatorTheorems.AllocateLedger | vdra_core/core.py:371-373 | Pruned equals expanded plus underallocated if and only if the defaults add up to the budget; the transfer is the whole expansion if and only if the defaults come to no less than what is allocated. |
| AllocatorTheorems.OrderIsImmaterial | vdra_core/core.py:272-349 | With identifiers of their own, the order of the nodes does not change the summary. |
| AllocatorTheorems.OneMoreUnit | vdra_core/core.py:339-349 | With explicit defaults and within the caps, a budget larger by one raises exactly one node by one and lowers none. |
| FeasibilityRepair.RepairLiftsIff | vdra_core/core.py:309-317 | Some call lifts a cap if and only if the policy expands caps and the least cap that may be lifted, the floor when caps follow the predictions and the ceiling otherwise, is below the repair cap and below the budget. |
| FeasibilityRepair.RepairIsIdle | vdra_core/core.py:309-317 | Under all other settings every call leaves the caps as they are and counts no repair. |
| NeverWorse.NeverWorseIff | vdra_core/core.py:362-370 | The objective does not rise above the reference for all dispersions, if and only if the clamped defaults spend the budget, or no default is over its cap and together they fit the budget. |
| NeverWorse.CapsHurt | vdra_core/core.py:362-370 | For every setting with a default over its cap, dispersions under which the objective rises; RisesOnCall carries them to a call. |
| NeverWorse.ScarcityHurts | vdra_core/core.py:362-370 | For every setting whose defaults fit the caps but not the budget, dispersions under which the objective rises; RisesOnCall carries them to a call. |
| NeverWorse.ObjectiveDoesNotRise | vdra_core/core.py:362-370 | The two objectives a successful call reports are the ones compared there, so under the guard the reported objective does not rise. |
| ObjectiveRises.NeverRisesIff | vdra_core/core.py:234-416 | For every configuration and every accepted list of nodes: whatever dispersions or weights these nodes are given, no call reports a risen objective, if and only if the guard holds for the bounds, defaults and spending of their intake. |
| ObjectiveRises.RisesOnCall | vdra_core/core.py:234-416 | Where the guard fails, the same nodes with other dispersions make a call report a risen objective, under the same bounds, defaults and spending. |
| ObjectiveRises.SameSettingForAll | vdra_core/core.py:272-317 | Dispersions have no say in bounds, defaults and spending. |
| Allocator.TakeIn | vdra_core/core.py:272-301 | The intake loop over node objects returns the table, or the first error. |
| Allocator.LiftCaps | vdra_core/core.py:309-316 | The repair loop lifts exactly the caps that may be lifted, and counts them. |
| Allocator.AllocateBranchFactors | vdra_core/core.py:234-416 | On node objects the call returns what the specification says, and leaves every node with what it says; a rejected call changes none. |
| SummaryKeys.SummaryFromKeys | vdra_core/core.py:272-317 | A successful call from the keys of its nodes, in all three cap modes: each node is in the summary under the first of its names that is not empty; its default, prediction and dispersion are what the first key present says, with the fallbacks and the floor; its cap is its prediction where the mode follows it, else the ceiling, and the repair cap exactly if a repair was due and no redundancy finding forbids it; nothing else is in the summary; and as many repairs are reported as caps were lifted. |
| SummaryKeys.RedundantNodeCapped | vdra_core/core.py:287-289 | In the default mode a node whose default is above its prediction is capped at the prediction, and gets no more, whatever the budget. |
| SummaryKeys.AcceptsFromKeys | vdra_core/core.py:256-308 | Under the expanding policy a call succeeds if and only if there are nodes, their names differ, strict mode finds no negative dispersion under the keys, and the budget has max(n_min, 1) for each. |
| SummaryKeys.RejectsFromKeys | vdra_core/core.py:256-335 | Under the policy that rejects the caps that follow from the keys must take the budget as well. |
| SummaryKeys.ObjectivesCompared | vdra_core/core.py:362-370 | The two objectives that are reported are those of the allocation and of the defaults moved into the bounds, if these spend what is granted, and otherwise of the bare defaults. |
| WrittenNodes.NodesAfterCall | vdra_core/core.py:388-409 | After a successful call on different dictionaries each carries allocation, cap, bounds, default, prediction, dispersion and ledger of the summary under its name, and all its other keys are as they were. |
| Ties.AllocationDetermined | vdra_core/core.py:328-349 | The allocation is determined: of all integer allocations within the bounds that spend min(budget, caps) it is the only one in which the last branch of each node gains more than the next branch of any other, or as much with a name that comes first. |
| Prelude.StrLtIff | vdra_core/core.py:340-349 | Names are ordered by the first place where they differ, a proper prefix first. |
| Prelude.DecimalStandsFor | vdra_core/logging_schema.py:25 | The number in the name of a node without names is written in decimal digits without leading zeros. |
| Rounding.RoundBounded | vdra_core/rounding.py:8-50 | The three strategies with both repair loops compute the specified rounding. |
| Rounding.RoundReachesTarget | vdra_core/rounding.py:20-49 | For every strategy, all draws and all bounds, in order or not, the result is within the bounds in force, its sum is the target clamped to what they hold, and the second loop never undoes the first. |
| Rounding.CrossedBounds | vdra_core/rounding.py:20-49 | A lower bound above its cap gives way to the cap: the result is that for the bounds in force. |
| Rounding.RoundedStable | vdra_core/rounding.py:20-35 | Both deterministic starts are exchange-stable for the squared error. |
| Rounding.RoundOptimal | vdra_core/rounding.py:20-49 | Largest remainder and nearest repair minimise the squared error over all integer vectors within the bounds with that sum. |
| Rounding.StrategiesAgree | vdra_core/rounding.py:20-49 | So the two always make the same squared error. |
| Rounding.StartFromValue | vdra_core/rounding.py:20-35 | The start of a key is less than one below its value; or within half a unit, upwards on a tie; or one of the two, the upper for draws below the fraction. |
| Ties.RoundDetermined | vdra_core/rounding.py:37-49 | For every strategy and all draws the result is determined by the start: it is the only vector with its sum in which every unit added is one that rounding misses more than any unit not added, and every unit taken back one that it misses less than any that stays, the first name on a tie. |
| StochasticRounding.AlwaysOptimalIff | vdra_core/rounding.py:26-49 | The stochastic strategy is optimal whatever is drawn, if and only if the target is at most the clamped floors together, or at least the floors and one unit for every key open to both roundings, or all those keys have the same fraction. |
| StochasticRounding.BumpedStableIff | vdra_core/rounding.py:26-31 | A start with one unit more at some open keys is exchange-stable if and only if those have the largest fractions. |
| StochasticRounding.LowersToFloors | vdra_core/rounding.py:43-48 | Lowering takes back the units drawn upwards before any other, so that every start comes by the floors. |
| StochasticRounding.RaisesToCeilings | vdra_core/rounding.py:37-42 | Raising begins at the open keys drawn downwards, so that every start comes by the ceilings. |
| StochasticRounding.StochasticCanMiss | vdra_core/rounding.py:26-31 | An instance where it is not always optimal: one unit for two keys, one of which needs it more. |
| LargestRemainder.LargestRemainderRounding | vdra_core/core.py:115-142 | The passes over the sorted keys compute the specified rounding. |
| LargestRemainder.RoundReaches | vdra_core/core.py:124-142 | For all bounds the loop ends within those in force with the sum max(clamped floors, min(target, caps)). |
| DealtRounds.RoundIsDealt | vdra_core/core.py:124-142 | In closed form: the clamped floors and what rounds over the keys in order of their fractions hand out of the missing units. |
| DealtRounds.RoundOptimalIff | vdra_core/core.py:115-142 | For all bounds in order and every target the result minimises the squared error among all integer vectors within the bounds with its sum, if and only if no key whose raw value is below its lower bound is dealt a unit while a key with room is owed more. |
| DealtRounds.CrossedDealt | vdra_core/core.py:120-142 | A lower bound above its cap gives way to the cap. |
| DealtRounds.NothingLifted | vdra_core/core.py:115-142 | So it does for every target when no raw value with room is below its lower bound. |
| DealtRounds.LiftedTakesFirst | vdra_core/core.py:129-142 | A family where it does not: the key with the largest fraction is one that its lower bound has lifted, and another key is owed more. |
| Quota.RoundIsFloorOrCeiling | vdra_core/core.py:124-142 | When the raw values are within the bounds and add up to the target, every output is the floor of its value or one more where there is a fraction, and the sum is the target. |
| Quota.LargerFractionsGoUp | vdra_core/core.py:129-142 | What is rounded up has no smaller fraction than what is not. |
| Quota.RoundingsAgree | vdra_core/core.py:115-142 | On such inputs it is optimal for the squared error, and as good as the strategies of round_bounded. |
| Ties.DealtDetermined | vdra_core/core.py:124-142 | For all bounds in order and every target the result is determined: from the floors moved into the bounds it is the only vector with its sum in which no key below its cap is behind another by more than the one turn that a larger fraction, or the same and an earlier name, has before it. |
| WaterFilling.ContinuousCappedAllocation | vdra_core/core.py:145-199 | The loops end; all values are within base and cap; with more than the bases to spend the sum is at most 1e-9 below min(target, caps), and the keys that are topped up are filled in order. |
| WaterFilling.LargeDualFits | vdra_core/core.py:172-174 | No lambda beyond n * n * max C asks for more than the target, which bounds the doubling loop. |
| WaterFilling.DoubleUntilFits | vdra_core/core.py:172-174 | The doubling loop ends with a lambda that does not ask for too much and is at most twice the larger of one and n * n * max C. |
| WaterFilling.Bisect | vdra_core/core.py:175-180 | Through all 160 turns the upper end never asks for more than the target, the lower end does unless it never moved, and the bracket halves each turn. |
| WaterFilling.Fill | vdra_core/core.py:190-198 | Topping up in key order leaves keys at their caps, then at most one in between, then keys as they were. |
| WaterFilling.WaterOptimal | vdra_core/core.py:164-188 | The clamped levels minimise the sum of C/x over all real vectors within the bounds that spend at most as much. |
| WaterFilling.ResultNearOptimal | vdra_core/core.py:183-199 | The allocation that is returned, topped up or not, costs at most the price of what the levels left unspent more than any real allocation within the bounds that spends at most the target. |
| WaterGap.TotalsClose | vdra_core/core.py:164-180 | Between two lambdas the total of the levels moves by no more than the sum of the caps times their distance, over the smaller one. |
| WaterGap.ResultWithinLoss | vdra_core/core.py:145-199 | With a loss that is known before the call, from the number of nodes, a bound on their dispersions, the caps and the target, the allocation that is returned costs at most that much more than any real allocation within the bounds that spends at most the target. |
| WaterFilling.RelaxationBound | vdra_core/core.py:164-188 | Hence they bound the integer problem from below. |
| Dispersion.BoundMonotone | vdra_core/core.py:47-81 | The value-gap bound never falls with the distance or the tail allowance and stays between zero and r_max. |
| Dispersion.GapGuardIdle | vdra_core/core.py:52-57 | The guard against a vanishing denominator never fires. |
| Dispersion.TailMonotone | vdra_core/core.py:60-63 | The tail correction is monotone in both arguments. |
| Dispersion.PairwiseIdentity | scripts/calibrate_tail_divergence.py:216-220 | The squared differences over all pairs add up to n times the sum of squares less the square of the sum. |
| Dispersion.BoundsVariance | vdra_core/core.py:84-112 | With every pair given and every value gap within the bound of its entries, the variance of the values is at most C_s. |
| Dispersion.BoundAtMost | vdra_core/core.py:84-112 | With all keys in range C_s is between zero and r_max^2 (n - 1) / (2n). |
| Dispersion.CanonicalPairs | vdra_core/core.py:97-101 | The canonicalisation loop drops diagonal entries and keeps the first of two orientations. |
| Dispersion.DispersionBoundFromPairTvs | vdra_core/core.py:84-112 | The loops compute the bound. |
| GapForms.VarianceLinear | vdra_core/core.py:75-112 | In the linear form: if values differ by at most r_max (tv + (1 - tv) eps) for every entry of their pair, in either orientation, their variance is at most C_s. |
| GapForms.VarianceSimulated | vdra_core/core.py:47-112 | In the simulation-lemma form: if they differ by at most r_max min(1, 1/(1 - g) - 1/(1 - g (1 - t))), with the corrected distance t and the discount g, their variance is at most C_s. |
| GapForms.LinearAttained | vdra_core/core.py:75-112 | For two children and one entry there are such values with variance exactly C_s, the square of that difference over four. |
| GapForms.SimulatedAttained | vdra_core/core.py:47-112 | Likewise in the simulation-lemma form. |
| GapForms.OutOfRange | vdra_core/core.py:52-62 | Distances, allowances, discounts and reward ranges that are out of range count as the nearest that are in it. |
| GapForms.FirstEntryCounts | vdra_core/core.py:97-101 | Of several entries for one pair, in either orientation, the first counts. |
| GapForms.EntryAdds | vdra_core/core.py:95-112 | Entry by entry: every pair that is new, in either orientation, and off the diagonal adds its squared bound over n squared to C_s, no other entry adds anything, and with fewer than two children C_s is zero. |
| Sharing.RoundRobin | vdra_core/scheduler.py:26-30 | Node i becomes element i div q of queue i mod q. |
| Sharing.EvenLoads | vdra_core/scheduler.py:26-30 | Queue loads differ by one at most, and the next node goes to the queue next in turn. |
| Sharing.RoundedQuotient | vdra_core/scheduler.py:37-39 | The rounded share is a nearest integer to the quotient, the even one on a tie. |
| Prelude.LeastLoaded | vdra_core/scheduler.py:27 | The first of the shortest queues. |
| Sharing.SharesSum | vdra_core/scheduler.py:34-50 | The budgets of the queues add up to exactly the total. |
| Sharing.FairShares | vdra_core/scheduler.py:34-50 | Every queue is given between floor(T/N) and ceil(T/N) for each of its nodes. |
| Sharing.EnoughForAll | vdra_core/scheduler.py:34-50 | No queue is given less than f per node if and only if the total has f for every node. |
| SchedulerSpec.ScheduleAccepts | vdra_core/scheduler.py:21-51 | A call succeeds if and only if no queue has clashing identifiers or forbidden dispersions and the total has max(n_min, 1) for every node; the split never starves a queue. |
| SchedulerSpec.ScheduleConserves | vdra_core/scheduler.py:32-51 | On success, what the queues allocate and leave unallocated adds up to the total. |
| SchedulerSpec.DealTotal | vdra_core/scheduler.py:26-30 | Every node is in exactly one queue. |
| SchedulerKeys.PlacedAt | vdra_core/scheduler.py:26-30 | Of different nodes the i-th is marked with queue i mod q, and otherwise as it was. |
| SchedulerKeys.ServedSummary | vdra_core/scheduler.py:34-49 | A queue that is served adds one summary, of its nodes and its share under the keyword defaults, and takes share and nodes off what remains. |
| SchedulerKeys.ServedFromKeys | vdra_core/scheduler.py:34-47 | Its default, prediction, dispersion and bounds are those the keys of its nodes tell: the cap is a prediction below the default, else max(12, floor). |
| SchedulerKeys.ServedNodes | vdra_core/scheduler.py:41-46 | Its nodes carry the figures of that summary afterwards, and all other nodes are as they were. |
| Scheduler.FlexibleBudgetScheduler.constructor | vdra_core/scheduler.py:16-19 | The queues are numbered from zero, and there is at least one. |
| Scheduler.FlexibleBudgetScheduler.PlaceAll | vdra_core/scheduler.py:26-30 | The dealing loop fills the queues and marks the nodes as specified. |
| Scheduler.FlexibleBudgetScheduler.Allocate | vdra_core/scheduler.py:21-51 | One call on queue and node objects does what the specification says, also when a queue is rejected midway. |
| Schema.WrittenValidates | vdra_core/logging_schema.py:36-139 | Whatever the node held, what is written validates, keeps the identifier, and holds a requested allocation inside the requested bounds unchanged. |
| Schema.WriteNodeAccounting | vdra_core/logging_schema.py:36-116 | The write onto the node object is the specified one. |
| NodeKeys.WriteAccountsRequest | vdra_core/logging_schema.py:36-116 | With l the lower bound that is asked for or the floor, whichever is larger: base and lower bound are l, cap and upper bound are the upper bound that is asked for, or without one the largest of floor, prediction and allocation, but never below l; the allocation is what is asked for, or the first that the node holds, moved into the bounds; saving and addition are its distance from the default; and no key outside the record changes. |
| NodeKeys.GoesByIs | vdra_core/logging_schema.py:19-26 | A node goes by the first of its four names that is not empty, or by its position. |
| NodeKeys.ValidatesIff | vdra_core/logging_schema.py:119-139 | The validator accepts exactly the records that a write with their own default, allocation and bounds reproduces. |
| TreeSummary.IterTreeNodes | vdra_core/logging_schema.py:142-147 | The walk with an explicit stack visits exactly the recursive preorder. |
| TreeSummary.SummarizeTree | vdra_core/logging_schema.py:150-204 | The report accumulates over that walk. |
| TreeSummary.WriteAccounts | vdra_core/logging_schema.py:36-116 | A node that was written is one that the balance covers. |
| TreeSummary.TreeBalance | vdra_core/logging_schema.py:150-204 | Over any tree of written or untouched nodes, saved less redistributed is requested less allocated, and the unused reserve is its positive part. |
| TreeSummary.BuiltCounts | vdra_core/logging_schema.py:175-179 | The branches reported as built are all nodes of the tree but its root and the children of nodes without an allocation. |
| TreeSummary.ReportOfTree | vdra_core/logging_schema.py:150-184 | The report of a tree is what its root adds, its default, the first allocation it holds, its children if it holds one, and its record, and the reports of its subtrees. |
| OnlineBudget.OnlineBudgetQueue.Append | vdra_core/online_budget.py:66-77 | A foreign snapshot is rejected before anything changes; otherwise the item joins the end, and the first arrival is recorded. |
| OnlineBudget.OnlineBudgetQueue.FlushReason | vdra_core/online_budget.py:79-93 | Capacity goes before timeout, and an empty queue is never ready. |
| OnlineBudget.OnlineBudgetQueue.PopAll | vdra_core/online_budget.py:95-99 | All items leave in order, and the first arrival is forgotten. |
| OnlineSpec.WaitKeptIff | vdra_core/online_budget.py:229 | The reported waiting time is what has passed since the first arrival, if and only if that was not at time zero or no time has passed. |
| OnlineBudget.RootQueueManager.constructor | vdra_core/online_budget.py:166-199 | The settings are clamped to at least one queue, one item and no negative timeout or minimum, and a manager begins with empty queues and zero counters. |
| OnlineBudget.RootQueueManager.Enqueue | vdra_core/online_budget.py:201-203 | The call is the step of the state machine. |
| OnlineBudget.RootQueueManager.FlushQueue | vdra_core/online_budget.py:223-304 | One flush of one queue is the step of the state machine, on queue, counters and node objects. |
| OnlineBudget.RootQueueManager.FlushReady | vdra_core/online_budget.py:205-213 | The loop over ready queues is the run of those steps, up to a rejection if there is one. |
| OnlineBudget.RootQueueManager.Drain | vdra_core/online_budget.py:215-221 | Likewise for the final drain. |
| ReadyFlushes.FlushesExactly | vdra_core/online_budget.py:205-229 | A call of flush_ready flushes in order exactly the queues that are full or, with a positive timeout, whose first item has waited that long, and drain exactly those that hold anything, up to a rejection; the reason is capacity if and only if the queue was full and timeout otherwise; the items are the queue's; and every other queue is as it was. |
| ReadyFlushes.JoinsShortest | vdra_core/online_budget.py:201-203 | An accepted item joins the end of the first of the shortest queues, and nothing else changes. |
| ReadyFlushes.RunCounts | vdra_core/online_budget.py:285-290 | Over every run the counters are the numbers of accepted flushes in the history, in all and for each reason, and the reserve counter is the sum of their transfers. |
| ReadyFlushes.WaitingSince | vdra_core/online_budget.py:66-99 | Over every run a queue that holds anything has been waiting since the call that put its first item into it while it was empty. |
| ManagerRuns.RunKeepsInvariant | vdra_core/online_budget.py:59-304 | Over every run: each queue is first in first out; accepted items are queued plus departed, as multisets; the counters equal the history, with flush count = timeout + capacity + final drain; one snapshot per queue; and a first arrival is recorded exactly in non-empty queues. |
| ManagerRuns.CallReturnsItsFlushes | vdra_core/online_budget.py:205-221 | What a call returns is what it added to the history, in queue order. |
| ManagerRuns.DrainEmpties | vdra_core/online_budget.py:215-221 | A drain without rejection leaves every queue empty. |
| ManagerRuns.FlushReadyLeavesNoneReady | vdra_core/online_budget.py:205-213 | After a flush of the ready queues without rejection each queue is empty or below capacity, and if there is a timeout its first item has waited less than that. |
| ManagerRuns.ReadyRunAtRest | vdra_core/online_budget.py:79-93 | Over every run that ends with an unrejected flush_ready, every queue that still holds anything is below capacity, and under a positive timeout has waited less than that. |
| ManagerRuns.FlushMakesRoom | vdra_core/online_budget.py:205-221 | A flush call leaves no queue over capacity and some queue with room. |
| ManagerRuns.PromptRunsFit | vdra_core/online_budget.py:201-221 | If flush_ready follows each enqueue, no queue ever exceeds its capacity, even when flushes are rejected. |
| FlushLedger.FlushAccepted | vdra_core/online_budget.py:231-259 | A flush is accepted if and only if it has items, their identifiers differ, strict mode finds no negative dispersion, and the budget has max(n_min, 1) for each. |
| FlushKeys.FlushFromKeys | vdra_core/online_budget.py:231-259 | The summary of an accepted flush from the keys of its items: the default is the item's; the prediction is the node's, or else that default; the dispersion is the node's, or the squared weight if some item asks for the override; the cap is a prediction below the default, else max(12, floor); the budget is the flush's. |
| FlushKeys.OverrideCounts | vdra_core/online_budget.py:244-254 | If some item asks for the override, a node that holds a weight w there counts with w squared. |
| FlushKeys.OwnDispersionCounts | vdra_core/online_budget.py:244-254 | If none does, a node counts with its own dispersion. |
| FlushKeys.FlushedNode | vdra_core/online_budget.py:260-284 | Afterwards each dictionary carries allocation and bounds of the summary, saving and addition from its own default, and the trace of the flush with budget, ledger, both objectives, repairs, waiting time and reason; all other keys are as they were. |
| FlushKeys.RejectedNode | vdra_core/online_budget.py:232-237 | A rejected flush leaves default and prediction on each dictionary, and nothing else. |
| FlushKeys.BudgetIsBrought | vdra_core/online_budget.py:238 | The budget of a flush is the sum over its items of the default or the minimum, whichever is larger. |
| FlushLedger.FlushBalancesIff | vdra_core/online_budget.py:231-290 | For every accepted flush, also one that lists a dictionary twice: pruned equals expanded plus underallocated if and only if the defaults that the allocator sees add up to the budget, and the transfer is the whole expansion if and only if they come to no less than what is allocated. |
| FlushLedger.BudgetCoversMinimum | vdra_core/online_budget.py:238 | The budget of a flush always covers n_min for each item. |
| FlushLedger.FlushBalances | vdra_core/online_budget.py:231-290 | For different dictionaries the first holds if and only if n_min is positive or every default is, and the second always. |
| FlushLedger.UnbalancedFlush | vdra_core/online_budget.py:231-290 | For any two nodes and n_min zero, an accepted flush that does not balance. |
| FlushLedger.RepeatedFlush | vdra_core/online_budget.py:231-290 | For any node and n_min below the largest default cap, an accepted flush that lists its dictionary twice and whose transfer is not its whole expansion. |
| FlushLedger.FlushedNodesAgree | vdra_core/online_budget.py:260-284 | After both accounting writes each node validates and its allocation, saving and transfer are the summary's; its addition is too, exactly when its default is not below the floor. |
| FlushLedger.RecordAgrees | vdra_core/online_budget.py:119-158 | The record of a flush reports queue, reason, waiting time and size of the flush and transfer and budget of the summary, and balances under the same condition. |
| ReserveRuns.RunGenuine | vdra_core/online_budget.py:119-304 | Over every run, every accepted flush reports at least the transfer of its summary, and one of different dictionaries has a record that agrees with its summary. |
| ReserveRuns.RunReserveIff | vdra_core/online_budget.py:289-290 | Over every run the manager's reserve counter is at most the sum of the transfers in the records, and equals it if and only if in every accepted flush the defaults came to no less than what was allocated. |
| ReserveRuns.RunReserve | vdra_core/online_budget.py:289-290 | So the two are equal over every run whose flushes held different dictionaries. |
| TailCalibration.Sort | scripts/calibrate_tail_divergence.py:94 | Sorting permutes the sample and puts it in order. |
| TailCalibration.QuantileBetween | scripts/calibrate_tail_divergence.py:91-101 | The interpolated quantile lies between the sorted neighbours of its position. |
| TailCalibration.QuantileCounts | scripts/calibrate_tail_divergence.py:91-101 | At least floor(q (n - 1)) + 1 values are at most the q-quantile. |
| TailCalibration.QuantileAt | scripts/calibrate_tail_divergence.py:91-101 | Where q is a share f of the way from place i of the ordered sample to the next, the quantile is that share of the way between the two values. |
| TailCalibration.QuantileEnds | scripts/calibrate_tail_divergence.py:91-101 | For q out of range it is the least or the greatest value. |
| TailCalibration.RatioCovers | scripts/calibrate_tail_divergence.py:243 | A pair whose ratio is at most an allowance in [0, 1] satisfies the inequality that is counted. |
| TailCalibration.CalibrationCovers | scripts/calibrate_tail_divergence.py:231-264 | With divergences in [0, 1] and delta > 0, the q-quantile of the ratios covers at least floor(q (n - 1)) + 1 of the n pairs, for every q and every non-empty sample. |
| TailCalibration.CoverageNearQuantile | scripts/calibrate_tail_divergence.py:350-358 | The reported coverage falls short of q by less than one pair. |
| CoverageExact.CoversAlwaysIff | scripts/calibrate_tail_divergence.py:227-358 | Every sample of n pairs is covered to a share of q at least, if and only if f + q <= 1 or f + delta^2 >= 1, where f is how far the position q (n - 1) is beyond a whole number; for every n, delta > 0 and q, clamped as the quantile does. |
| CoverageExact.SlackCovers | scripts/calibrate_tail_divergence.py:227-358 | If f + delta^2 >= 1, the allowance covers one pair more than the quantile guarantees. |
| CoverageExact.ShortSample | scripts/calibrate_tail_divergence.py:227-358 | Where the condition fails, a sample of that size with coverage below q. |
| CoverageExact.CoverageBelowQuantile | scripts/calibrate_tail_divergence.py:227-358 | An instance: two pairs and q = 0.9, with coverage 0.5. |
| TailCalibration.CoveredIsCorrected | scripts/calibrate_tail_divergence.py:355-357 | Being covered is being within delta of the tail correction that the dispersion bound uses. |
| TailCalibration.CollectRatios | scripts/calibrate_tail_divergence.py:231-245 | The loops list every pair and ratio once in order, and every ratio once more under its depth. |
| TailCalibration.TabulatedCovers | scripts/calibrate_tail_divergence.py:231-264 | The guarantee for the collected lists, as a whole and for each depth. |
| Levelling.ReachableIff | scripts/rq3_allocation_quality.py:71-85 | Handing out units in rounds comes by a total of t if and only if there is room for t. |
| Levelling.MovedUnique | scripts/rq3_allocation_quality.py:71-85 | The amount handed out determines who has got what. |
| Baselines.ScaleEndsIff | scripts/rq3_allocation_quality.py:66-86 | The loops end if and only if the budget is between n * n_min and n * max(n_min, u). |
| Baselines.ScaledWithinBounds | scripts/rq3_allocation_quality.py:66-86 | The result spends exactly the budget with every entry in [n_min, max(n_min, u)]. |
| Baselines.ScaledUnique | scripts/rq3_allocation_quality.py:66-86 | The result is determined by the input. |
| Baselines.ScaleToBudget | scripts/rq3_allocation_quality.py:66-86 | The nested loops return the clipped allocation levelled to the budget in rounds over the sorted keys. |
| Ties.ScaledIff | scripts/rq3_allocation_quality.py:66-86 | An allocation is what another is scaled to if and only if it spends the budget and comes from the clipped one by adding, or by taking away, so that no key with room left is behind another by more than the one turn that an earlier name has before it. |
| Comparison.ObjectiveOfQueue | scripts/rq3_allocation_quality.py:157-162 | The queue objective is the objective that the allocator minimises. |
| Comparison.LeftOutCountsOnce | scripts/rq3_allocation_quality.py:157-162 | A prefix that an allocation leaves out counts as if it had one branch. |
| Comparison.VdraSucceeds | scripts/rq3_allocation_quality.py:138-154 | On every queue with distinct identifiers, no negative dispersion and an affordable budget, the exact allocator succeeds and spends the budget. |
| Comparison.VdraAccepts | scripts/rq3_allocation_quality.py:138-154 | On every such queue it raises exactly when the queue is empty or the budget misses max(n_min, 1) for each prefix. |
| Comparison.VdraBest | scripts/rq3_allocation_quality.py:138-162 | Its queue objective is at most that of every allocation in [max(n_min, 1), max(n_min, u)] with that budget. |
| Comparison.VdraWins | scripts/rq3_allocation_quality.py:89-162 | It is at most that of whatever is scaled to the budget, hence of the fixed, random, uncertainty and empirical-variance baselines. |
| Comparison.VdraLoses | scripts/rq3_allocation_quality.py:66-162 | For every n_min below one and budget from n to (n - 1) u, a queue and a baseline that beats it. |
| Comparison.VdraRaises | scripts/rq3_allocation_quality.py:66-162 | For every budget on which the baselines end but which has not a branch for each prefix, a queue and a baseline that ends while it raises. |
| Comparison.WinsAlwaysIff | scripts/rq3_allocation_quality.py:66-162 | For every setting the comparison always comes out for the exact allocator, a raised error counting as a loss, if and only if the baselines do not end, or there are prefixes and either n_min >= 1 or the budget is at least n and exceeds (n - 1) u. |
| Arithmetic.HalfEven | scripts/rq3_allocation_quality.py:110 | Rounding is to a nearest integer, the even one on a tie. |
| Proportions.Proportional | scripts/rq3_allocation_quality.py:105-135 | Every starting value is at least n_min, at most half a branch below its share of the budget, and at most half a branch above it unless n_min has lifted it. |
| Proportions.ProportionalNear | scripts/rq3_allocation_quality.py:105-135 | So is every value of the specified dictionary, which the two proportional baselines start from. |
| Proportions.SharesAddUp | scripts/rq3_allocation_quality.py:109-110 | The shares add up to the budget. |
| Proportions.ProportionalTotal | scripts/rq3_allocation_quality.py:105-135 | All starting values together miss the budget by at most half a branch for each key, from above only if no share is below n_min. |
| Proportions.ProportionalOrdered | scripts/rq3_allocation_quality.py:105-135 | A key with no smaller weight starts with no smaller value. |
| CompareAll.QueueObjectiveOf | scripts/rq3_allocation_quality.py:157-162 | The accumulating loop returns the queue objective. |
| CompareAll.Vdra | scripts/rq3_allocation_quality.py:138-154 | The allocator on freshly built dictionaries. |
| CompareAll.FixedIsEven | scripts/rq3_allocation_quality.py:89-94 | The fixed baseline starts every prefix at the whole quotient of budget and prefixes, moved into its bounds. |
| CompareAll.UncertaintyWeighs | scripts/rq3_allocation_quality.py:105-108 | The uncertainty baseline weighs each prefix by its naive uncertainty, and by 1e-9 if that is smaller. |
| CompareAll.Baselines4 | scripts/rq3_allocation_quality.py:89-135 | The four baselines: each is what its own start is scaled to, with its score, and the last two start near their shares; they raise exactly without prefixes or with no number to draw. |
| CompareAll.RunAll | scripts/rq3_allocation_quality.py:172-210 | All five allocators on one queue on which the loops end: the run raises exactly without prefixes, with n_min above u, or with a budget that misses the minimum, and the objective of the exact allocator is at most each of the others when n_min >= 1 or the budget leaves no prefix without a branch. |
| ZeroShards.PartitionExact | scripts/zero_to_fp32.py:345-349 | The partitions hold the parameter and its padding exactly, and the padding is less than the world size. |
| ZeroShards.Reassembles | scripts/zero_to_fp32.py:429-431 | Concatenating the slices of all ranks and cutting off the padding gives the parameter back. |
| ZeroShards.MergeInvertsSharding | scripts/zero_to_fp32.py:388-439 | For every world size, parameter list and padding, merging what was sharded gives every parameter back, and the sanity check passes. |
| ZeroShards.EveryParam | scripts/zero_to_fp32.py:429-431 | With distinct names every parameter is found under its name. |
| ZeroShards.MergeAccepts | scripts/zero_to_fp32.py:410-437 | On any groups, the merge succeeds if and only if the first holds what the shapes call for and the others no less. |
| ZeroShards.MergeRejects | scripts/zero_to_fp32.py:410-437 | Otherwise the first shape that some group is too short for is reported, with the earlier ones stored, and if there is none the two counts that differ. |
| ZeroShards.MergeTrainableParams | scripts/zero_to_fp32.py:388-439 | The loop with its offset and the sanity check, filling the state dictionary in place. |
| Nest.SplitKey | treetune/common/nest.py:32-48 | On clean paths, splitting the constructed key recovers the path. |
| Nest.PutLeaf | treetune/common/nest.py:377-381 | Storing at a path apart from all leaves adds that leaf and keeps all others. |
| Nest.LeavesDetermine | treetune/common/nest.py:364-397 | A nested value is determined by its leaves. |
| Nest.NeverSkips | treetune/common/nest.py:385-392 | For what flatten made of a clean dictionary the adjacent-prefix skip never fires. |
| NestSkips.SkipsIff | treetune/common/nest.py:385-392 | For any keys, the skip fires exactly if the next key in order is this key with one part more. |
| NestSkips.SkipDrops | treetune/common/nest.py:383-396 | There it drops the value: the shorter key of two is lost. |
| NestForms.PutAccepts | treetune/common/nest.py:377-381 | Storing along any path succeeds if and only if nothing but dictionaries is on the way. |
| NestForms.PutStores | treetune/common/nest.py:377-381 | Then the value is found there, and everything apart from the path is as it was. |
| Nest.RoundTripIff | treetune/common/nest.py:364-397 | For every dictionary without lists, unflatten gives back what was flattened if and only if no key holds the separator and an empty key at the top leads to nothing else. |
| Nest.UnflattenKeys | treetune/common/nest.py:383-396 | The loop over the sorted keys computes the specified dictionary or error. |
| Nest.UnflattenDict | treetune/common/nest.py:364-397 | With the assertion that the input is flat. |
| NestLists.FlattenInto | treetune/common/nest.py:82-116 | The recursion adds an entry for every leaf of the value, under strings or, where no key precedes, list indices as they are, and no other. |
| NestLists.Flatten | treetune/common/nest.py:51-119 | The flat dictionary has an entry for every leaf under its constructed key, and nothing else. |
| NestLists.ListFreeFlat | treetune/common/nest.py:51-119 | Without lists all keys are strings, and the flat dictionary is the one whose round trip is decided. |
| NestLists.RestoresIff | treetune/common/nest.py:420-445 | Converting back restores a value if and only if no dictionary in it looks like a list. |
| NestLists.ListRoundTripIff | treetune/common/nest.py:400-448 | For every value, unflatten_list gives back what was flattened if and only if no key and no list index holds the separator, an empty key at the top leads to nothing else, and no dictionary in the value looks like a list. |
| NestLists.KeysClear | treetune/common/nest.py:32-48 | A separator that is not a digit and is in no key is clear of all list indices too. |
| NestLists.ConvertIdle | treetune/common/nest.py:437-445 | Converting list items a second time changes nothing. |
| NestForms.StoredUnderIs | treetune/common/nest.py:32-48 | The key of any leaf in closed form: empty keys and zero indices at the front leave no trace, what follows them is joined, and a single key that is left stays as it is, an index included. |
| NestForms.ListLikeIff | treetune/common/nest.py:425-435 | For keys that are read as integers, the test of the original, with its sum, its ends and its steps of one, holds if and only if the keys are those of a list. |
| NestForms.RootConverted | treetune/common/nest.py:420-448 | What is returned are the converted children; a missing index in one of them is an error, and so is a root that looks like a list. |
| NestForms.RejectedInOrder | treetune/common/nest.py:400-418 | A value that is not flat is rejected first, then a key that is not a string. |

## Left out

- The binary heap inside `heapq` is modelled by its contract, a dictionary of scores with the first key by (score, key) taken out; its array layout is not.
- Floating-point rounding, infinities and NaN: reals are used, so the guards against non-finite values never fire, and `math.sqrt` is a function with the defining property of a square root.
- Square-root weights, timings, log strings and the legacy alias fields that only repeat other fields.
- Node identifiers that are not strings, and keys that are present with the value None: a key is absent or holds a value.
- Unknown names of options, cap modes and strategies, which the code rejects with an error: they are enumerations here.
- asyncio, locks and the wall clock: calls are sequential steps and take the time as an argument.
- The reserve pool: the current flush never draws on it, so its value is not part of the manager.
- Other exceptions than those of the allocator during a flush.
- FlushBalances: is the corollary of FlushBalancesIff for flushes of different dictionaries.
- FlushedNodesAgree: assumes that the items of one flush are different dictionaries, as does RecordAgrees: a dictionary that is listed twice ends with its last entry and cannot agree with both.
- NodesAfterCall: assumes different dictionaries for the same reason, as do PlacedAt, ServedNodes, FlushFromKeys and what is said of single nodes beside it; FlushAccepted and FlushBalancesIff do not.
- RunReserve: is the corollary of RunReserveIff for flushes of different dictionaries.
- RoundOptimal: assumes lower <= upper for every key, as do AlwaysOptimalIff, RoundOptimalIff, RoundDetermined, DealtDetermined and the quota lemmas; CrossedBounds and CrossedDealt reduce all other bounds to such.
- VarianceLinear: assumes distances, tail allowance and reward range within their ranges, as does VarianceSimulated with the discount; OutOfRange reduces all others to such.
- ContinuousCappedAllocation: assumes 0 <= base <= cap, which the allocator's bounds satisfy; with a negative base the doubling loop need not end.
- RunAll: the random draws (within their range) and the deviations estimated from rollouts are parameters, identifiers are distinct, and no oracle dispersion is negative, as the script draws them.
- FlattenInto: where several leaves share a key it keeps one of them, as does Flatten; which one is a matter of insertion order, which a map does not have.
- A weight key that names one of the modelled fields, such as vdra_dispersion_C: weights are read from the other numbers of a node.
- Sampling, scoring and grading in the calibration script, rank correlations, the adaptive horizon and the allocation regret.
- The counters of pilots and tokens in the tree report.
- The nested dictionaries that unflatten builds and that unflatten_list rewrites in place are values here; that a stored empty dictionary is shared with the input is not captured. unflatten_list is a function.
- Sets and tuples in flatten, its options root_keys_to_ignore and replace_separators, separators of more than one character, and keys that are not strings.
- ListRoundTripIff: takes Python's `int` on strings as a parameter that reads every decimal number back.
- MergeInvertsSharding: covers the trainable parameters of ZeRO-3. Frozen parameters are put together in the same way; ZeRO-2, shared parameters, buffers and file handling are not modelled.
- The guidance library, the other analyzers, and all plotting, downloading and GPU code.
