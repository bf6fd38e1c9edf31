# A verified model of four Pyomo components

This project models, in Dafny, four parts of the Pyomo optimisation modelling
system, and proves properties of each:

- **The PySP InterScenario plugin** (`pyomo/pysp/plugins/interscenario.py`). It is a
  Progressive Hedging (PH) extension. It collects the distinct first-stage
  solutions of the scenarios, evaluates each one in every subproblem (fixed solve,
  then a separation problem whose answer is a feasibility cut), computes expected
  objectives, keeps an incumbent and no-good optimality cuts, routes the cut
  library back to the subproblems, and turns the dual information into damped rho
  estimates. The plugin is the class `InterScenarioPlugin.Plugin`. Its pure parts
  live in the modules `InterScenarioRegistry`, `InterScenarioEval`,
  `InterScenarioCuts`, `InterScenarioIncumbent`, `InterScenarioRho` and
  `InterScenarioSchedule`.
- **PyROS utilities** (`pyomo/contrib/pyros/util.py`):
  - `partition_powers` and `sort_partitioned_powers`, and the coefficient counting
    and equation building of polynomial decision rules (`PyrosPowers`);
  - master-problem termination classification, `transform_to_standard_form`,
    `validate_kwarg_inputs` and `get_time_from_solver` (`PyrosUtil`).
- **`pyomo.common.download.FileDownloader`**: `parse_args`, `get_sysinfo` and
  `get_url` (`Download`).
- **MindtPy's master-problem handling** (`pyomo/contrib/mindtpy/mip_solve.py`):
  `solve_master` and the `handle_master_*` functions over the bound and counter
  bookkeeping of `solve_data` (`MipSolve`).

Shared: `Wrappers` (Option and Result) and `SolverTypes` (Pyomo's termination
conditions and solution statuses).

State that the source changes in place is a class: the plugin, the subproblem
model, the argument list and the downloader, the master MIP (an array of variable
values) and MindtPy's `solve_data`. Loops in the source are `while`/`for` loops,
proved against recursive specification functions. Lemmas then establish what
those functions mean.

Solvers, the scenario tree and Pyomo expression objects are not modelled as
code. Each solve is an opaque *outcome* parameter: a function from a candidate
vector to what the solver reports, or a datatype of termination condition,
status and bounds. `platform.system()`, `sys.maxsize` and the order in which
distributed results arrive are parameters too.

Where the code and its documentation disagree, the model follows the code.
- `validate_kwarg_inputs` raises inside its loop. So only the first non-mutable
  parameter is named, not all of them.
- `handle_master_unbounded` drops the re-solve's results object, but the
  objective bound it adds stays on the master and the re-solve loads its
  solution into the master's variables.
- During a bundled run, `_distribute_cuts` reads `_name` from a string and
  raises AttributeError. Here alone the model departs from the code: it routes
  cuts with the corrected ownership test (see Findings and the
  InterScenarioPlugin.Plugin.DistributeCuts line under "Left out").

## Model

| member | source | states |
|---|---|---|
| InterScenarioRegistry.IndexOfVector | pyomo/pysp/plugins/interscenario.py:715-719 | the index found is the first candidate whose vector equals `x`; `None` exactly when no candidate has it |
| InterScenarioRegistry.RegisterKeepsDistinct | pyomo/pysp/plugins/interscenario.py:710-722 | registering one scenario keeps candidate vectors pairwise distinct; the list grows by one exactly when the vector is new |
| InterScenarioRegistry.CollectedDistinct | pyomo/pysp/plugins/interscenario.py:704-722 | the collected unique solutions have pairwise distinct vectors |
| InterScenarioRegistry.CollectedVectorsAreScenarioVectors | pyomo/pysp/plugins/interscenario.py:704-722 | a vector is collected if and only if some scenario has it |
| InterScenarioRegistry.CollectedInFirstAppearanceOrder | pyomo/pysp/plugins/interscenario.py:704-722 | the collected vectors are the scenario vectors with repeats dropped, in order of first appearance |
| InterScenarioRegistry.CollectedOwners | pyomo/pysp/plugins/interscenario.py:715-722 | each collected solution's owner list is exactly the names of the scenarios with that vector, in scenario order |
| InterScenarioRegistry.InOwnersOf | pyomo/pysp/plugins/interscenario.py:715-722 | with distinct names, a scenario is an owner of `x` if and only if its vector is `x` |
| InterScenarioRegistry.NoOwnersOfAbsent | pyomo/pysp/plugins/interscenario.py:715-722 | a vector no scenario has has no owners |
| InterScenarioRegistry.ScenarioOwnedByExactlyOne | pyomo/pysp/plugins/interscenario.py:704-722 | every scenario is listed as an owner of exactly one collected solution |
| InterScenarioEval.EvaluateSubproblem | pyomo/pysp/plugins/interscenario.py:408-502 | one objective, one dual and one cut entry per candidate |
| InterScenarioEval.EvaluateSubproblemStep | pyomo/pysp/plugins/interscenario.py:429-500 | one more loop iteration appends exactly that candidate's objective, duals and cut, and its solver calls |
| InterScenarioEval.EvaluateSubproblemAt | pyomo/pysp/plugins/interscenario.py:429-500 | entry `k` of each result list is candidate `k`'s evaluation |
| InterScenarioEval.ResultListsAgree | pyomo/pysp/plugins/interscenario.py:474-497 | the objective is missing exactly when the duals are, and that is exactly when the cut entry is not the feasible marker |
| InterScenarioEval.FallbackOnlyAfterNonOptimal | pyomo/pysp/plugins/interscenario.py:483-492 | the fallback solver is called if and only if the fixed solve failed and the separation problem came back non-optimal; otherwise its answer is the cut |
| InterScenarioEval.SubproblemModel.constructor | pyomo/pysp/plugins/interscenario.py:408-425 | a fresh subproblem in its standard form with the first-stage values fixed and no solves logged |
| InterScenarioEval.SubproblemModel.SolveSeparationProblem | pyomo/pysp/plugins/interscenario.py:255-346 | the answer is the feasibility cut or marker that the solve outcome calls for; the model is restored to its standard form with its fixed values unchanged; one separation solve is logged |
| InterScenarioEval.SubproblemModel.SolveFixedScenarioSolutions | pyomo/pysp/plugins/interscenario.py:408-502 | the method returns the specification's result lists and logs the specification's solve calls; the model ends fixed at the last candidate; its standard form is kept |
| InterScenarioEval.SubproblemModel.SolveCandidate | pyomo/pysp/plugins/interscenario.py:430-500 | one candidate's evaluation: the fixed solve, then the separation problem with its fallback, as specified |
| InterScenarioCuts.RowMagnitudesAbove | pyomo/pysp/plugins/interscenario.py:779-781 | every magnitude kept from a row exceeds `minDiff` |
| InterScenarioCuts.CutMagnitudesAbove | pyomo/pysp/plugins/interscenario.py:779-781 | every magnitude kept from the library exceeds `minDiff` |
| InterScenarioCuts.InsertAscendingCorrect | pyomo/pysp/plugins/interscenario.py:779 | inserting into a sorted list keeps it sorted and adds exactly that element |
| InterScenarioCuts.SortAscendingCorrect | pyomo/pysp/plugins/interscenario.py:779-781 | `sorted` gives an ascending permutation of its input |
| InterScenarioCuts.Truncate | pyomo/pysp/plugins/interscenario.py:784 | Python's `int()` on a float truncates towards zero |
| InterScenarioCuts.CutoffIndexInRange | pyomo/pysp/plugins/interscenario.py:783-785 | for a cross-cut fraction in [0, 1] the threshold index is a valid index |
| InterScenarioCuts.CutoffIndexExtremes | pyomo/pysp/plugins/interscenario.py:783-785 | fraction 1 picks the smallest magnitude, fraction 0 the largest |
| InterScenarioCuts.CrossCutThresholdDefined | pyomo/pysp/plugins/interscenario.py:780-788 | for a fraction in [0, 1] the threshold exists and is 1 or one of the kept magnitudes |
| InterScenarioCuts.CrossCutThresholdAboveMinDiff | pyomo/pysp/plugins/interscenario.py:780-788 | the threshold exceeds `minDiff`, except that it is 1 when no cut was kept |
| InterScenarioCuts.GetScenariosAsWritten | pyomo/pysp/plugins/interscenario.py:793-798 | with bundles a subproblem yields its scenario names as strings; without bundles it yields its one scenario object |
| InterScenarioCuts.BundledOwnershipFails | pyomo/pysp/plugins/interscenario.py:793-807 | as written, the ownership test on a bundle with scenarios fails: it reads `_name` from a string |
| InterScenarioCuts.OwnsAgreesUnbundled | pyomo/pysp/plugins/interscenario.py:800-807 | without bundles, the test as written agrees with the corrected ownership test |
| InterScenarioCuts.CandidateCutLists | pyomo/pysp/plugins/interscenario.py:800-819 | one cut list per candidate, each being that candidate's routed cuts |
| InterScenarioCuts.InConcat | pyomo/pysp/plugins/interscenario.py:808-819 | a cut is in the concatenation exactly when it is in one of the parts |
| InterScenarioCuts.ProblemCutsStep | pyomo/pysp/plugins/interscenario.py:800-819 | each candidate extends a subproblem's list by exactly its own cuts |
| InterScenarioCuts.InCandidateColumnCuts | pyomo/pysp/plugins/interscenario.py:809-819 | a cut is taken from a candidate's column exactly when some subproblem produced it and it is above the threshold |
| InterScenarioCuts.InCandidateCuts | pyomo/pysp/plugins/interscenario.py:800-819 | a candidate contributes a cut if and only if the cut is above `minDiff` and the subproblem owns the candidate, or the cut is above the cross-cut threshold and the candidate is infeasible and not owned |
| InterScenarioCuts.ProblemCutsRouting | pyomo/pysp/plugins/interscenario.py:800-819 | the same if-and-only-if for the whole list a subproblem receives |
| InterScenarioCuts.DeliveredCutsExceedMinDiff | pyomo/pysp/plugins/interscenario.py:780-819 | every routed cut is above `minDiff` |
| InterScenarioCuts.RoutedCuts | pyomo/pysp/plugins/interscenario.py:799-819 | one list per subproblem, each being its routed cuts |
| InterScenarioCuts.DeliveriesSound | pyomo/pysp/plugins/interscenario.py:799-846 | every delivery targets a subproblem with its routed cuts and all optimality cuts, and is never empty |
| InterScenarioCuts.DeliveriesComplete | pyomo/pysp/plugins/interscenario.py:821-846 | every subproblem with cuts to receive, or any optimality cut at all, gets its delivery |
| InterScenarioCuts.DeliveriesExceedMinDiff | pyomo/pysp/plugins/interscenario.py:778-846 | no delivered feasibility cut is at or below `minDiff` |
| InterScenarioIncumbent.ExpectedObjectiveStep | pyomo/pysp/plugins/interscenario.py:859-863 | each subproblem adds its probability times its partial objective, or makes the sum `None` |
| InterScenarioIncumbent.WeightedTerms | pyomo/pysp/plugins/interscenario.py:859-863 | one weighted term per subproblem |
| InterScenarioIncumbent.ExpectedObjectiveCharacterised | pyomo/pysp/plugins/interscenario.py:855-865 | the objective is `None` if and only if some subproblem reports none; otherwise it is the probability-weighted sum |
| InterScenarioIncumbent.BestFeasibleNone | pyomo/pysp/plugins/interscenario.py:868-873 | there is no best exactly when no objective is feasible |
| InterScenarioIncumbent.BestFeasibleIsFirstMinimum | pyomo/pysp/plugins/interscenario.py:878-880 | the best is a feasible entry whose sense-adjusted objective is minimal, and it is the first such entry |
| InterScenarioIncumbent.NextIncumbentOf | pyomo/pysp/plugins/interscenario.py:882-887 | the incumbent is replaced exactly when there is none or the best is strictly better |
| InterScenarioIncumbent.NextIncumbentCorrect | pyomo/pysp/plugins/interscenario.py:867-887 | with nothing feasible the incumbent stays; a new incumbent is strictly better, is feasible, records its own objective, solution and index, and is the first best |
| InterScenarioIncumbent.IncumbentAfterIsBestSeen | pyomo/pysp/plugins/interscenario.py:867-887 | over any sequence of rounds the incumbent never gets worse and is at least as good as every feasible objective seen |
| InterScenarioIncumbent.FeasibleCount | pyomo/pysp/plugins/interscenario.py:868-869 | at most the number of objectives |
| InterScenarioIncumbent.FeasibleCountZero | pyomo/pysp/plugins/interscenario.py:868-873 | the count is zero if and only if no objective is feasible |
| InterScenarioIncumbent.FeasibleCountPositive | pyomo/pysp/plugins/interscenario.py:868-873 | any feasible entry makes the count positive |
| InterScenarioIncumbent.ClassifyRootVarsCharacterised | pyomo/pysp/plugins/interscenario.py:892-906 | classification gives up exactly when some unfixed variable is continuous; otherwise the binary and integer lists hold exactly the unfixed variables of those domains |
| InterScenarioIncumbent.Restrict | pyomo/pysp/plugins/interscenario.py:912-914 | the cut's map holds exactly the listed ids present in the solution, with the solution's values |
| InterScenarioIncumbent.DominatedPositionsExact | pyomo/pysp/plugins/interscenario.py:908-911 | the positions the cut loop visits are strictly increasing and are exactly the feasible candidates other than the best |
| InterScenarioIncumbent.NoGoodCutsContent | pyomo/pysp/plugins/interscenario.py:908-915 | the k-th no-good cut holds the binary and the integer values of the k-th feasible candidate other than the best |
| InterScenarioIncumbent.IncumbentUpdateCutsContent | pyomo/pysp/plugins/interscenario.py:879-915 | when cuts are appended, the k-th is the cut of the k-th feasible candidate other than the new best |
| InterScenarioIncumbent.NoGoodCutsCount | pyomo/pysp/plugins/interscenario.py:908-915 | one no-good cut per feasible solution other than the best |
| InterScenarioIncumbent.IncumbentUpdateCuts | pyomo/pysp/plugins/interscenario.py:867-915 | cuts are added only with at least two feasible solutions and no continuous variable, and then there are one fewer than the feasible solutions |
| InterScenarioRho.Abs | pyomo/pysp/plugins/interscenario.py:981-982 | non-negative and equal to `r` or `-r` |
| InterScenarioRho.SolutionProbabilities | pyomo/pysp/plugins/interscenario.py:940-944 | each candidate's probability is the sum over its owners |
| InterScenarioRho.OwnerProbabilityNonNegative | pyomo/pysp/plugins/interscenario.py:940-944 | a sum of non-negative probabilities is non-negative |
| InterScenarioRho.MaxMinBounds | pyomo/pysp/plugins/interscenario.py:957-962 | the maximum and minimum bound every candidate's value and are attained |
| InterScenarioRho.XDeviation | pyomo/pysp/plugins/interscenario.py:957-962 | the spread has one entry per root variable |
| InterScenarioRho.XDeviationNonNegative | pyomo/pysp/plugins/interscenario.py:957-962 | every spread is non-negative |
| InterScenarioRho.AverageDual | pyomo/pysp/plugins/interscenario.py:964-976 | one averaged dual per root variable |
| InterScenarioRho.DualMassBounds | pyomo/pysp/plugins/interscenario.py:964-976 | the weighted dual mass lies between the smallest and largest dual times the reporting probability |
| InterScenarioRho.AverageDualBounds | pyomo/pysp/plugins/interscenario.py:964-976 | the probability-weighted average lies between the smallest and largest dual reported |
| InterScenarioRho.AverageDualOfNothing | pyomo/pysp/plugins/interscenario.py:964-976 | with no duals reported the average is zero |
| InterScenarioRho.WeightedSums | pyomo/pysp/plugins/interscenario.py:979-982 | one weighted sum per root variable |
| InterScenarioRho.AddCandidate | pyomo/pysp/plugins/interscenario.py:979-982 | a candidate changes only the sums of variables with a spread |
| InterScenarioRho.WeightedRho | pyomo/pysp/plugins/interscenario.py:977-985 | one estimate per root variable |
| InterScenarioRho.WeightedRhoSign | pyomo/pysp/plugins/interscenario.py:977-985 | the estimates are non-negative; zero for a variable with no spread entry and zero everywhere when all average duals are zero |
| InterScenarioRho.WeightedSumsZero | pyomo/pysp/plugins/interscenario.py:979-982 | sums stay zero without spread or without dual |
| InterScenarioRho.UpdatedRho | pyomo/pysp/plugins/interscenario.py:684-692 | the first rho has the estimate's keys; later ones keep their keys |
| InterScenarioRho.UpdatedRhoBetween | pyomo/pysp/plugins/interscenario.py:684-692 | each damped update lies between the old rho and the scaled estimate, and rho stays non-negative |
| InterScenarioRho.DampedStepBetween | pyomo/pysp/plugins/interscenario.py:692 | a damping factor in [0, 1] moves a value part of the way towards its target |
| InterScenarioSchedule.RowMagnitudesAtMost | pyomo/pysp/plugins/interscenario.py:668-670 | a row contributes at most its length to the cut count |
| InterScenarioSchedule.CutCountAtMostEntries | pyomo/pysp/plugins/interscenario.py:667-671 | the cut count is at most the number of entries |
| InterScenarioSchedule.NoCutsNoRecut | pyomo/pysp/plugins/interscenario.py:667-681 | with at least one candidate (the library holds at least as many entries as subproblems), a non-negative recut threshold and no cut above `minDiff`, the plugin does not force a recut |
| InterScenarioSchedule.NoCutMagnitudes | pyomo/pysp/plugins/interscenario.py:779-781 | with no cut above `minDiff` no magnitude is kept |
| InterScenarioSchedule.RecutForcesRerun | pyomo/pysp/plugins/interscenario.py:590-596 | after the recut rewind the plugin runs at every later iteration |
| InterScenarioPlugin.Problems | pyomo/pysp/plugins/interscenario.py:732-738 | one subproblem view per PH subproblem |
| InterScenarioPlugin.Probabilities | pyomo/pysp/plugins/interscenario.py:732-738 | one probability per PH subproblem |
| InterScenarioPlugin.RoundOf | pyomo/pysp/plugins/interscenario.py:725-775 | one result row per subproblem; the probabilities are the subproblems' |
| InterScenarioPlugin.RoundOfAt | pyomo/pysp/plugins/interscenario.py:725-775 | row `i` of a round is subproblem `i`'s evaluation of every candidate |
| InterScenarioPlugin.Column | pyomo/pysp/plugins/interscenario.py:964-976 | column `k` holds every subproblem's dual for candidate `k` |
| InterScenarioPlugin.AverageDuals | pyomo/pysp/plugins/interscenario.py:964-976 | one averaged dual map per candidate, each averaging its column |
| InterScenarioPlugin.SolveSerially | pyomo/pysp/plugins/interscenario.py:753-757 | each subproblem's row is its specified evaluation; every model keeps its standard form |
| InterScenarioPlugin.SolveDistributed | pyomo/pysp/plugins/interscenario.py:760-773 | whatever order the results arrive in, each row is its subproblem's evaluation and is written exactly once |
| InterScenarioPlugin.ClassifyRootVariables | pyomo/pysp/plugins/interscenario.py:892-906 | the loop computes the classification function |
| InterScenarioPlugin.NoGoodCutsFor | pyomo/pysp/plugins/interscenario.py:908-915 | the loop builds the specified no-good cuts |
| InterScenarioPlugin.FindOwner | pyomo/pysp/plugins/interscenario.py:802-806 | the search finds a scenario if and only if the subproblem owns the candidate |
| InterScenarioPlugin.RouteCuts | pyomo/pysp/plugins/interscenario.py:800-819 | the loop builds the specified cut list of one subproblem |
| InterScenarioPlugin.RouteAll | pyomo/pysp/plugins/interscenario.py:799-819 | the loop builds every subproblem's cut list |
| InterScenarioPlugin.BuildDeliveries | pyomo/pysp/plugins/interscenario.py:799-846 | the loop builds the specified deliveries, skipping empty ones |
| InterScenarioPlugin.SumOwnerProbabilities | pyomo/pysp/plugins/interscenario.py:940-944 | the loop sums each candidate's owner probabilities |
| InterScenarioPlugin.AverageDualOf | pyomo/pysp/plugins/interscenario.py:964-976 | the loop computes candidate `k`'s average dual |
| InterScenarioPlugin.AverageDualsOf | pyomo/pysp/plugins/interscenario.py:964-976 | the loop computes every candidate's average dual |
| InterScenarioPlugin.WeightedRhoOf | pyomo/pysp/plugins/interscenario.py:977-985 | the loop computes the weighted rho estimate |
| InterScenarioPlugin.CollectedVectorsAndOwners | pyomo/pysp/plugins/interscenario.py:704-722 | collecting from a non-empty tree gives candidates that carry every root variable and whose owners all have probabilities |
| InterScenarioPlugin.OwnerNamesAreScenarioNames | pyomo/pysp/plugins/interscenario.py:715-722 | every owner name is a scenario's name |
| InterScenarioPlugin.OwnsMeansSameSolution | pyomo/pysp/plugins/interscenario.py:800-807 | the corrected test: a subproblem owns a collected solution if and only if one of its scenarios has that solution's vector |
| InterScenarioPlugin.RoundDualsKnown | pyomo/pysp/plugins/interscenario.py:474-482 | duals reported in a round only name root variables |
| InterScenarioPlugin.Plugin.constructor | pyomo/pysp/plugins/interscenario.py:510-543 | the tuning constants of `__init__` and the cleared state of `reset` |
| InterScenarioPlugin.Plugin.Reset | pyomo/pysp/plugins/interscenario.py:534-547 | incumbent, rho, spread, metric and both cut lists are cleared and `lastRun` is 0 |
| InterScenarioPlugin.Plugin.PostPhInitialization | pyomo/pysp/plugins/interscenario.py:552-564 | more than two stages is an error; otherwise the objective sense is recorded and every root variable's rho is set to 0 |
| InterScenarioPlugin.Plugin.CollectUniqueScenarioSolutions | pyomo/pysp/plugins/interscenario.py:704-722 | the stored solutions are the collected unique root solutions with their owners |
| InterScenarioPlugin.Plugin.SolveInterscenarioSolutions | pyomo/pysp/plugins/interscenario.py:725-775 | serial or distributed, the round is the specified evaluation of every candidate in every subproblem |
| InterScenarioPlugin.Plugin.ComputeObjective | pyomo/pysp/plugins/interscenario.py:855-865 | one objective per candidate, each its expected objective |
| InterScenarioPlugin.Plugin.UpdateIncumbent | pyomo/pysp/plugins/interscenario.py:867-915 | the incumbent and the appended no-good cuts are those of the incumbent-update specification |
| InterScenarioPlugin.Plugin.DistributeCuts | pyomo/pysp/plugins/interscenario.py:778-852 | a failed threshold lookup changes nothing; otherwise the method returns the specified deliveries and clears both accumulators |
| InterScenarioPlugin.Plugin.ProcessDualInformation | pyomo/pysp/plugins/interscenario.py:918-989 | the spread is fixed on the first call; the estimate is the weighted rho of the round, with one non-negative entry per root variable |
| InterScenarioPlugin.Plugin.EvaluateRound | pyomo/pysp/plugins/interscenario.py:611-671 | steps (1) to (4): the solutions are collected, the round is evaluated, its cuts become the library and the objectives are the expected objectives |
| InterScenarioPlugin.Plugin.UpdateRho | pyomo/pysp/plugins/interscenario.py:684-697 | rho becomes the scaled or damped update of the estimate |
| InterScenarioPlugin.Plugin.RefreshRho | pyomo/pysp/plugins/interscenario.py:684-697 | step (7): the estimate from the duals, then the rho update |
| InterScenarioPlugin.Plugin.InterScenarioRun | pyomo/pysp/plugins/interscenario.py:608-697 | a full run: collection, round, objectives, incumbent; then either the recut rewind with rho untouched or the rho update |
| InterScenarioPlugin.Plugin.ConcludeRun | pyomo/pysp/plugins/interscenario.py:673-697 | steps (5) to (7): the incumbent update, then either the recut rewind or the new rho |
| InterScenarioPlugin.Plugin.PostIterationKSolves | pyomo/pysp/plugins/interscenario.py:583-598 | the plugin runs only on degradation or when the interval has passed, and otherwise changes nothing but the metric; a run collects the solutions, keeps the round's cuts, updates the incumbent and its no-good cuts, then either rewinds `lastRun` for a recut with rho untouched and nothing for PH, or sets `lastRun` to this iteration and hands PH the new rho; the metric is recorded either way |
| InterScenarioPlugin.Plugin.PostIteration0 | pyomo/pysp/plugins/interscenario.py:570-576 | the convergence metric is recorded |
| InterScenarioPlugin.Plugin.PreIterationKSolves | pyomo/pysp/plugins/interscenario.py:578-581 | with no pending cuts nothing is sent; with pending cuts a failed cross-cut threshold lookup is an error that keeps them, and otherwise the routed feasibility cuts plus all optimality cuts are delivered and both accumulators cleared |
| PyrosPowers.BinomAbove | pyomo/contrib/pyros/util.py:1071 | choosing more than there are gives 0 |
| PyrosPowers.BinomSymmetric | pyomo/contrib/pyros/util.py:1071 | C(a+b, a) = C(a+b, b) |
| PyrosPowers.Prepend | pyomo/contrib/pyros/util.py:1118 | each combination gets the element in front |
| PyrosPowers.CombinationsExact | pyomo/contrib/pyros/util.py:1118 | `itertools.combinations` lists exactly the strictly increasing `k`-tuples of the range |
| PyrosPowers.CombinationAt | pyomo/contrib/pyros/util.py:1118 | every listed tuple is such a combination |
| PyrosPowers.CombinationsDistinct | pyomo/contrib/pyros/util.py:1118 | no combination is listed twice |
| PyrosPowers.CombinationsCount | pyomo/contrib/pyros/util.py:1118 | there are C(hi - lo, k) of them |
| PyrosPowers.GapsOfStarts | pyomo/contrib/pyros/util.py:1119-1130 | the gaps of the partial sums give back the powers |
| PyrosPowers.StartsOfGaps | pyomo/contrib/pyros/util.py:1119-1130 | the partial sums of the gaps give back the divider positions |
| PyrosPowers.PartitionPowers | pyomo/contrib/pyros/util.py:1108-1130 | `v = 0` raises (combinations of negative length); otherwise one power tuple per combination of dividers |
| PyrosPowers.PowersOfShape | pyomo/contrib/pyros/util.py:1119-1130 | each divider combination gives `v` non-negative powers summing to `n` |
| PyrosPowers.PowersOfInjective | pyomo/contrib/pyros/util.py:1119-1130 | different divider combinations give different powers |
| PyrosPowers.PartitionPowersShape | pyomo/contrib/pyros/util.py:1108-1130 | every listed tuple is a composition of `n` into `v` non-negative parts |
| PyrosPowers.PartitionPowersComplete | pyomo/contrib/pyros/util.py:1108-1130 | every such composition is listed |
| PyrosPowers.PartitionPowersDistinct | pyomo/contrib/pyros/util.py:1108-1130 | no composition is listed twice |
| PyrosPowers.PartitionPowersExact | pyomo/contrib/pyros/util.py:1108-1130 | the list is exactly the compositions of `n` into `v` parts, without repeats, C(n+v-1, v-1) of them |
| PyrosPowers.LexTrichotomy | pyomo/contrib/pyros/util.py:1134-1136 | tuple comparison is a strict total order |
| PyrosPowers.LexTransitive | pyomo/contrib/pyros/util.py:1134-1136 | tuple comparison is transitive |
| PyrosPowers.SortDescending | pyomo/contrib/pyros/util.py:1135 | `sorted(reverse=True)` is a permutation |
| PyrosPowers.SortDescendingSorted | pyomo/contrib/pyros/util.py:1135 | and its result is in descending tuple order |
| PyrosPowers.MaxOf | pyomo/contrib/pyros/util.py:1136 | `max` is an element and bounds all others |
| PyrosPowers.SortByMax | pyomo/contrib/pyros/util.py:1136 | the stable sort by largest power is a permutation |
| PyrosPowers.SortByMaxOrdered | pyomo/contrib/pyros/util.py:1136 | a descending input sorted stably by maximum is ordered by maximum, ties staying descending |
| PyrosPowers.SortPartitionedPowersCorrect | pyomo/contrib/pyros/util.py:1133-1136 | the sort fails exactly on an empty tuple; otherwise it is a permutation ordered by increasing maximum, ties in descending tuple order |
| PyrosPowers.OrderedUnique | pyomo/contrib/pyros/util.py:1133-1136 | that order is unique: two orderings of the same tuples are equal |
| PyrosPowers.SortedPowersCount | pyomo/contrib/pyros/util.py:1191-1197 | sorting the partition of degree `n` succeeds and keeps its C(n+v-1, v-1) tuples |
| PyrosPowers.AllPowers | pyomo/contrib/pyros/util.py:1191-1197 | one sorted list per degree 1 to `degree` |
| PyrosPowers.FlattenIndex | pyomo/contrib/pyros/util.py:1199-1214 | the `j`th tuple of degree list `i` sits at offset `(sizes before i) + j` of the flattened list |
| PyrosPowers.TotalPowersCount | pyomo/contrib/pyros/util.py:1191-1214 | the flattened list has exactly the number of monomials of degree 1 to `degree` |
| PyrosPowers.HockeyStick | pyomo/contrib/pyros/util.py:1071 | 1 plus the monomials of degree 1 to `d` in `v` variables is C(v+d, d) |
| PyrosPowers.CoefficientCount | pyomo/contrib/pyros/util.py:1071-1214 | the equation uses exactly as many coefficients as the variable count allocates |
| PyrosPowers.DecisionRuleVarCount | pyomo/contrib/pyros/util.py:1060-1104 | degree above 4 raises ValueError; otherwise C(v+degree, degree) coefficients |
| PyrosPowers.DecisionRuleCountsAgree | pyomo/contrib/pyros/util.py:1060-1226 | for degree 1 to 4 the allocated count equals 1 plus the monomials the equation uses |
| PyrosPowers.AffineRule | pyomo/contrib/pyros/util.py:1165-1188 | degree 1: a constant and one coefficient per uncertain parameter; too many coefficients is an IndexError |
| PyrosPowers.BuildAllPowers | pyomo/contrib/pyros/util.py:1191-1197 | `v = 0` raises ValueError; otherwise the loop builds the sorted power lists |
| PyrosPowers.PolynomialRule | pyomo/contrib/pyros/util.py:1199-1226 | too few coefficients is an IndexError and too many a RuntimeError; exactly one per monomial plus the constant builds the rule, in which coefficient `k` multiplies the `k`th monomial |
| PyrosPowers.DecisionRuleEquation | pyomo/contrib/pyros/util.py:1139-1227 | the three degree cases with their error conditions; for degree two or more and at least one parameter the rule is built exactly when there are 1 + TotalPowers coefficients, each multiplying its monomial |
| PyrosUtil.ClassifyMasterTermination | pyomo/contrib/pyros/util.py:1315-1368 | optimal (local only when not solving globally) continues; infeasible is robust infeasible; the backup conditions ask for backups; interrupts, licensing and local optimality under a global solve raise |
| PyrosUtil.FirstNonMutable | pyomo/contrib/pyros/util.py:668-677 | the index found is the first non-mutable parameter; `None` exactly when all are mutable |
| PyrosUtil.ValidateAccepts | pyomo/contrib/pyros/util.py:613-704 | the inputs are accepted if and only if every check passes |
| PyrosUtil.ValidateNamesFirstNonMutable | pyomo/contrib/pyros/util.py:668-677 | the mutability error names exactly the first offending parameter |
| PyrosUtil.NoDegreesOfFreedomUnreachable | pyomo/contrib/pyros/util.py:629-696 | the later degrees-of-freedom error can never be raised |
| PyrosUtil.GetTimeFromSolver | pyomo/contrib/pyros/util.py:362-396 | the solver's own time attribute if present, else the TicToc time, else NaN |
| PyrosUtil.ConstraintBlock.TransformToStandardForm | pyomo/contrib/pyros/util.py:494-543 | the constraint list becomes its standard form |
| PyrosUtil.RewriteConstraint | pyomo/contrib/pyros/util.py:516-543 | one constraint rewritten as `body - upper <= 0`, plus its lower half when it is ranged |
| PyrosUtil.AddedHalvesCount | pyomo/contrib/pyros/util.py:530-543 | one new constraint per ranged constraint |
| PyrosUtil.InAddedHalves | pyomo/contrib/pyros/util.py:530-543 | the new constraints are exactly the lower halves of the ranged ones |
| PyrosUtil.StandardFormShape | pyomo/contrib/pyros/util.py:494-543 | the count grows by the ranged constraints; every result is inactive, an equality or `<= 0`; inactive and equality constraints are kept |
| PyrosUtil.RewrittenMeaning | pyomo/contrib/pyros/util.py:516-543 | a rewritten constraint, with its lower half, holds exactly when the original does |
| PyrosUtil.AddedHalvesHold | pyomo/contrib/pyros/util.py:530-543 | the added halves all hold exactly when each ranged constraint's lower half does |
| PyrosUtil.StandardFormPreservesMeaning | pyomo/contrib/pyros/util.py:494-543 | the standard form holds at a point if and only if the original constraints do |
| Download.FirstIndex | pyomo/common/download.py:66 | `list.index`: the first position holding the token |
| Download.RemoveFirst | pyomo/common/download.py:64 | `list.remove`: exactly one occurrence leaves the list |
| Download.TakeCacertPops | pyomo/common/download.py:65-68 | the two `pop`s at the first `--cacert` take that token and its value, or fail when `--cacert` is last |
| Download.FileDownloader.constructor | pyomo/common/download.py:29-32 | `insecure` and `cacert` as given; no file name |
| Download.FileDownloader.ParseArgs | pyomo/common/download.py:61-74 | the list, the three fields and the error raised are those of the parse specification |
| Download.FileDownloader.GetSysinfo | pyomo/common/download.py:34-48 | the lower-cased name cut at its first separator, a prefix without separators; 64 bits exactly when `maxsize > 2**32` |
| Download.FileDownloader.GetUrl | pyomo/common/download.py:51-58 | a url exactly when the map has the platform, and then the mapped one |
| Download.Lower | pyomo/common/download.py:44 | same length, each character lower-cased |
| Download.SplitHead | pyomo/common/download.py:46 | `split(c)[0]`: a prefix without `c`, stopping at a `c` |
| Download.BeforeSeparator | pyomo/common/download.py:44-46 | the longest prefix without a separator |
| Download.SystemNameShape | pyomo/common/download.py:44-46 | the three cuts give the longest separator-free prefix of the lower-cased name |
| Download.SystemNameIdempotent | pyomo/common/download.py:44-46 | normalising a normalised name changes nothing |
| Download.ParseArgsInsecure | pyomo/common/download.py:62-64 | `insecure` ends up set exactly when it was set or `--insecure` was given |
| Download.TakeCacertOutcome | pyomo/common/download.py:65-68 | the step fails exactly when the only `--cacert` is the last token; otherwise the certificate is the token after the first one |
| Download.ParseArgsMissingCacert | pyomo/common/download.py:65-68 | a failed certificate step leaves `cacert` and the file name unchanged |
| Download.ParseArgsConsumes | pyomo/common/download.py:69-74 | without an error the list ends empty; an unrecognised-argument error carries exactly what is left |
| Download.ParseArgsRender | pyomo/common/download.py:61-74 | parsing the tokens written for some options gives exactly those options back, with no error |
| MipSolve.Max | pyomo/contrib/mindtpy/mip_solve.py:112-113 | `max` of two bounds: an upper bound of both and one of them |
| MipSolve.Min | pyomo/contrib/mindtpy/mip_solve.py:116-117 | `min` of two bounds: a lower bound of both and one of them |
| MipSolve.AppendAscending | pyomo/contrib/mindtpy/mip_solve.py:112-114 | recording a raised LB keeps its progress list ascending |
| MipSolve.AppendDescending | pyomo/contrib/mindtpy/mip_solve.py:116-118 | recording a lowered UB keeps its progress list descending |
| MipSolve.RaiseAllIsMaximum | pyomo/contrib/mindtpy/mip_solve.py:173-175 | after a run of `max` updates LB is the largest of the start and every objective |
| MipSolve.OtherConditionHandler | pyomo/contrib/mindtpy/mip_solve.py:202-236 | infeasible, unbounded and the time limit have handlers; `other` only with a feasible solution; anything else raises |
| MipSolve.InfeasibleTermination | pyomo/contrib/mindtpy/mip_solve.py:268-272 | a set condition stays; otherwise infeasible exactly before the first master solve and feasible after |
| MipSolve.MasterMip.InitialiseIntegers | pyomo/contrib/mindtpy/mip_solve.py:160-164 | exactly the uninitialised integer variables take their lower bound |
| MipSolve.SolveData.constructor | pyomo/contrib/mindtpy/mip_solve.py:29-137 | the bounds and progress lists as MindtPy starts them: one entry each, no solves counted |
| MipSolve.SolveData.ImproveBound | pyomo/contrib/mindtpy/mip_solve.py:171-179 | when minimising LB becomes the max with the objective and is recorded; when maximising UB becomes the min; the bounds never move away from optimality |
| MipSolve.SolveData.SolveMaster | pyomo/contrib/mindtpy/mip_solve.py:29-137 | regular solves are counted; a ValueError gives no results and no change; an optimal single-tree solve without no-good cuts moves the bound to the problem bound; infeasible-or-unbounded is resolved |
| MipSolve.SolveData.HandleMasterOptimal | pyomo/contrib/mindtpy/mip_solve.py:143-183 | integers initialised, values copied to the working model, and the bound moved only when asked, the other bound and its progress list untouched |
| MipSolve.SolveData.HandleMasterInfeasible | pyomo/contrib/mindtpy/mip_solve.py:239-272 | the unchanged bound is recorded and the termination condition filled in |
| MipSolve.SolveData.HandleMasterMaxTimelimit | pyomo/contrib/mindtpy/mip_solve.py:275-310 | values copied and the sense's bound moved to the current objective, the other bound and its progress list untouched |
| MipSolve.MasterMip.BoundAndResolve | pyomo/contrib/mindtpy/mip_solve.py:313-342 | the objective bound is added to the master and kept; a solution the re-solve finds replaces the variable values and the objective value, and with none they stay |
| MipSolve.SolveData.HandleMasterOtherConditions | pyomo/contrib/mindtpy/mip_solve.py:186-236 | an error exactly when no handler applies, changing nothing; the infeasible handler's bound, progress lists and termination, with the working values kept; the unbounded handler's bound and re-solve on the master, with the bookkeeping unchanged; the time-limit and feasible-other handlers' copy and the move of the sense's bound alone |

## Left out

- Solver calls, scenario-tree queries, logging and `print` output are not modelled; solves are outcome parameters.
- InterScenarioIncumbent.Restrict: the KeyError that `_x[vid]` raises for an id the vector lacks is not modelled, because every collected vector holds every unfixed root variable (InterScenarioPlugin.CollectedVectorsAndOwners); ids it lacked would be left out of the cut.
- InterScenarioEval.SubproblemModel.SolveSeparationProblem: the separation problem's construction and the dual extraction (`get_modified_instance`, `get_dual_values`) are not modelled; the cut is the outcome's answer.
- The construction of cut constraints in `add_new_cuts` (pyomo/pysp/plugins/interscenario.py:349-406) is not modelled: it builds Pyomo expressions.
- Exceptions raised inside solver calls, and the solver-exception paths of the plugin, are not modelled.
- InterScenarioPlugin.SolveDistributed: concurrency is not modelled; `wait_any` is a completion-order permutation parameter.
- InterScenarioSchedule.ShouldRecut: the bound-improvement guard `_del_avg is None or _del_avg > recutBoundImprovement` (pyomo/pysp/plugins/interscenario.py:677-678) is not modelled as written, and its outcome is the parameter `boundImproved`. `_del_avg` is always a string ("-----%" or "%+.2f%%", lines 651-656), so `is None` never holds. Under Python 2 a string compares greater than any float, so the guard is constantly true and the source's behaviour is the case `boundImproved == true`. Under Python 3 the comparison raises TypeError whenever the cut-count test before it holds; that error path is not modelled.
- The average-cost report (pyomo/pysp/plugins/interscenario.py:628-659) is not modelled, including its error paths and its state. It raises ZeroDivisionError at line 659 when the probability-weighted scenario cost `_avg` is 0, and at line 656 when `_avg` and the previous average are both 0. It also stores `_avg` in `self.average_solution`, which is used only to build the next `_del_avg`.
- InterScenarioPlugin.Plugin.DistributeCuts: on a bundled scenario tree the source raises AttributeError at pyomo/pysp/plugins/interscenario.py:805. The model routes bundled trees with the corrected ownership test `Owns` (see Findings), so DistributeCuts and PreIterationKSolves return deliveries where the source fails.
- The commented-out and unreachable code in `_process_dual_information` (pyomo/pysp/plugins/interscenario.py:990-1033) is not modelled.
- Dictionary iteration order is not modelled: per-variable loops are single map updates, since their steps are independent.
- InterScenarioPlugin.Plugin.ProcessDualInformation: the `KeyError`s for a dual or probability missing from a map are excluded by `DualsKnown` and `OwnersKnown`, not modelled as errors.
- Only the path with `ALLOW_VARIABLE_SLACK = False` is modelled, as the constant in the source sets it.
- Floating-point rounding is not modelled anywhere in the plugin. These members compute over exact reals: ExpectedObjective, AverageDual and DualMass, WeightedRho, UpdatedRho and DampedStep, XDeviation, the `> cutThreshold_minDiff` filters (CutAbove), the `recutThreshold*(...)` comparison in ShouldRecut, and `int((1-crossCut)*len)` in CutoffIndex. A comparison that lies within rounding of its threshold can come out differently in the source.
- InterScenarioRho.XDeviation: the spread is max minus min over exact reals, as the line above says.
- Model preprocessing and the `relax_discrete` handling of `solve_separation_problem` are not modelled; relaxation is a flag of the outcome.
- The condition `True or ...` at pyomo/pysp/plugins/interscenario.py:483 makes the non-optimal branch at lines 493-500 unreachable; the model has only the two live branches.
- The length `assert` at pyomo/pysp/plugins/interscenario.py:442 is not modelled: the model keys fixed values by variable id.
- PyrosUtil.ValidateAccepts: the `ComponentSet(x) != ComponentSet(x)` checks compare a set with itself and never raise, so they are absent.
- The `unique_component_name` suffixes and the Pyomo component objects of the decision rules are not modelled; rules are lists of terms.
- PyrosPowers.DecisionRuleVarCount: `sp.special.comb` returns a float in the source; the model counts exactly.
- PyrosPowers.DecisionRuleEquation: the degree-0 equation is the abstract `WholeVariable`; the construction of the Pyomo constraint is not modelled.
- PyrosPowers.PolynomialRule: the source raises the RuntimeError after the component is added; the model returns the error without that side effect.
- The decision rules are modelled for one second-stage variable; the loop over variables repeats it unchanged.
- PyrosUtil.RewrittenMeaning: Pyomo expressions are abstract terms evaluated at a point.
- PyrosUtil.GetTimeFromSolver: NaN is the constructor `NaN`, not a float.
- Download.Lower: `str.lower` is modelled on ASCII letters only; other Unicode case mappings are not modelled.
- Download.FileDownloader.GetUrl: a url map entry whose value is `None` is not modelled; such an entry would raise like a missing key.
- `platform.system()` and `sys.maxsize` are parameters of `get_sysinfo`.
- `resolve_filename`, `retrieve_url` and the `get_*_file` functions of pyomo/common/download.py do file and network I/O and are not modelled.
- MipSolve.SolveData.HandleMasterOptimal: `copy_var_list_values` (pyomo.contrib.gdpopt.util is not part of this model) is modelled as a plain copy of the values. The bound moves to `master.objectiveValue`, a given value; the source evaluates the objective expression after the integer variables have been initialised, and the model does not tie that value to the variables.
- MipSolve.MasterMip.BoundAndResolve: the re-solve's outcome is a parameter; that a loaded solution respects the added bound is the solver's promise and is not stated. The persistent-solver `set_instance` call and the warning are not modelled.
- `setup_master` and the solver configuration in `solve_master` (pyomo/contrib/mindtpy/mip_solve.py:62-97, 127-135) build Pyomo objects and are not modelled.

## Findings

| source | as written | input that shows it | evidently intended | confidence | as-written member | corrected member |
|---|---|---|---|---|---|---|
| pyomo/pysp/plugins/interscenario.py:793-807 | with bundles, `get_scenarios` returns a bundle's scenario names (strings), and the loop then reads `scenario._name`, which a string lacks | any scenario tree with bundles and at least one pending cut: the ownership test raises AttributeError | a bundle owns a candidate when one of its scenario names is among the candidate's owners | not executed | InterScenarioCuts.OwnsAsWritten, shown failing by InterScenarioCuts.BundledOwnershipFails | InterScenarioCuts.Owns, proved right by InterScenarioPlugin.OwnsMeansSameSolution and used by InterScenarioPlugin.FindOwner |
