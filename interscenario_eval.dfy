/**
 * Evaluation of the candidate solutions on one subproblem (a scenario or a bundle):
 * the fixed-candidate solve, the feasibility-cut separation problem with its single
 * retry on the fallback solver, and the three parallel result lists.
 *
 * A solve is an opaque outcome: the solver status and termination condition it
 * reports, with the values the plugin reads from the solved model. `Evaluation`
 * gathers the outcomes of the solves that evaluating one candidate may make.
 */
module InterScenarioEval {
  import opened Wrappers
  import opened SolverTypes
  import opened InterScenarioRegistry

  /** Outcome of solving the subproblem with the first-stage variables fixed to a candidate. */
  datatype FixedSolve = FixedSolve(
    status: SolverStatus, condition: TerminationCondition,
    objective: real,             // value of the original objective after loading the solution
    duals: map<VarId, real>)     // what the dual extraction returns for the fixing constraints

  /**
   * Outcome of the separation (minimum squared violation) problem; `magnitude` stands
   * for the square root of its optimal objective, `terms` for the pairs
   * (separation value, fixed value) per first-stage variable.
   */
  datatype SeparationSolve = SeparationSolve(
    status: SolverStatus, condition: TerminationCondition,
    magnitude: real, terms: map<VarId, (real, real)>)

  /** The outcomes one candidate's evaluation may consult. */
  datatype Evaluation = Evaluation(fixed: FixedSolve, primary: SeparationSolve, fallback: SeparationSolve)

  /** One entry of a cut list: a marker string or a cut tuple. */
  datatype CutEntry =
    | FeasibleMarker                                       // ".  ": the fixed solve succeeded
    | Cut(magnitude: real, terms: map<VarId, (real, real)>) // (sqrt(obj), {vid: (sep, par)})
    | InfeasibleMarker                                     // "!!!!": separation infeasible
    | NonOptimalMarker                                     // "????": separation not solved

  /** The three parallel lists one subproblem returns, one entry per candidate. */
  datatype SubproblemResult = SubproblemResult(
    objValues: seq<Option<real>>,
    dualValues: seq<Option<map<VarId, real>>>,
    cutList: seq<CutEntry>)

  /** Which solver a solve call used. */
  datatype SolverKind = PrimarySolver | FallbackSolver

  /** Which objective was active when a solve ran. */
  datatype ActiveObjective = OriginalObjective | SeparationObjective

  /** One solve call on a subproblem model, with the model configuration it ran under. */
  datatype SolveCall = SolveCall(solver: SolverKind, objective: ActiveObjective, relaxed: bool)

  const AcceptableConditions: set<TerminationCondition> := {Optimal, GloballyOptimal, LocallyOptimal}
  const InfeasibleConditions: set<TerminationCondition> := {Infeasible, InvalidProblem}

  /** A solve counts as successful when the status is ok and the condition acceptable. */
  predicate Acceptable(status: SolverStatus, condition: TerminationCondition)
  {
    status == StatusOk && condition in AcceptableConditions
  }

  /** What one separation solve returns: the cut, "!!!!" or "????". */
  function SeparationAnswer(r: SeparationSolve): CutEntry
  {
    if Acceptable(r.status, r.condition) then Cut(r.magnitude, r.terms)
    else if r.condition in InfeasibleConditions then InfeasibleMarker
    else NonOptimalMarker
  }

  /** The cut list entry for a failed fixed solve: the separation, retried once on "????". */
  function SeparationWithRetry(e: Evaluation): CutEntry
  {
    var first := SeparationAnswer(e.primary);
    if first == NonOptimalMarker then SeparationAnswer(e.fallback) else first
  }

  predicate FixedSucceeds(e: Evaluation)
  {
    Acceptable(e.fixed.status, e.fixed.condition)
  }

  /** The objective, duals and cut entry recorded for one candidate. */
  datatype CandidateEntry = CandidateEntry(objective: Option<real>, duals: Option<map<VarId, real>>, cut: CutEntry)

  function EvaluateCandidate(e: Evaluation): CandidateEntry
  {
    if FixedSucceeds(e) then CandidateEntry(Some(e.fixed.objective), Some(e.fixed.duals), FeasibleMarker)
    else CandidateEntry(None, None, SeparationWithRetry(e))
  }

  /** The solve calls evaluating one candidate makes, in order. */
  function SolveCalls(e: Evaluation): seq<SolveCall>
  {
    [SolveCall(PrimarySolver, OriginalObjective, false)] +
    if FixedSucceeds(e) then []
    else
      [SolveCall(PrimarySolver, SeparationObjective, true)] +
      if SeparationAnswer(e.primary) == NonOptimalMarker
      then [SolveCall(FallbackSolver, SeparationObjective, true)] else []
  }

  /** The result lists a subproblem returns when asked to evaluate `cands`. */
  function EvaluateSubproblem(cands: seq<Candidate>, outcome: Vector -> Evaluation): (r: SubproblemResult)
    ensures |r.objValues| == |cands| && |r.dualValues| == |cands| && |r.cutList| == |cands|
    decreases |cands|
  {
    if cands == [] then SubproblemResult([], [], [])
    else
      var prev := EvaluateSubproblem(cands[..|cands| - 1], outcome);
      var entry := EvaluateCandidate(outcome(cands[|cands| - 1].x));
      SubproblemResult(prev.objValues + [entry.objective], prev.dualValues + [entry.duals], prev.cutList + [entry.cut])
  }

  /** All solve calls a subproblem makes when evaluating `cands`. */
  function SubproblemSolveCalls(cands: seq<Candidate>, outcome: Vector -> Evaluation): seq<SolveCall>
    decreases |cands|
  {
    if cands == [] then []
    else SubproblemSolveCalls(cands[..|cands| - 1], outcome) + SolveCalls(outcome(cands[|cands| - 1].x))
  }

  /** Evaluating one more candidate appends its entry and its solve calls. */
  lemma EvaluateSubproblemStep(cands: seq<Candidate>, outcome: Vector -> Evaluation, k: nat)
    requires k < |cands|
    ensures var prev := EvaluateSubproblem(cands[..k], outcome);
            var e := EvaluateCandidate(outcome(cands[k].x));
            EvaluateSubproblem(cands[..k + 1], outcome) ==
              SubproblemResult(prev.objValues + [e.objective], prev.dualValues + [e.duals], prev.cutList + [e.cut])
    ensures SubproblemSolveCalls(cands[..k + 1], outcome) ==
              SubproblemSolveCalls(cands[..k], outcome) + SolveCalls(outcome(cands[k].x))
  {
    assert cands[..k + 1][..k] == cands[..k] && cands[..k + 1][k] == cands[k];
  }

  /** Entry k of the result lists is the evaluation of candidate k. */
  lemma {:induction false} EvaluateSubproblemAt(cands: seq<Candidate>, outcome: Vector -> Evaluation, k: nat)
    requires k < |cands|
    ensures var r := EvaluateSubproblem(cands, outcome);
            var e := EvaluateCandidate(outcome(cands[k].x));
            r.objValues[k] == e.objective && r.dualValues[k] == e.duals && r.cutList[k] == e.cut
    decreases |cands|
  {
    if k < |cands| - 1 {
      EvaluateSubproblemAt(cands[..|cands| - 1], outcome, k);
    }
  }

  /**
   * The three lists agree entry by entry: the objective is missing exactly when the
   * duals are, exactly when the cut entry is not the feasible marker.
   */
  lemma ResultListsAgree(cands: seq<Candidate>, outcome: Vector -> Evaluation, k: nat)
    requires k < |cands|
    ensures var r := EvaluateSubproblem(cands, outcome);
            (r.objValues[k].None? <==> r.dualValues[k].None?) &&
            (r.dualValues[k].None? <==> r.cutList[k] != FeasibleMarker)
  {
    EvaluateSubproblemAt(cands, outcome, k);
    var e := outcome(cands[k].x);
    if !FixedSucceeds(e) {
      assert SeparationWithRetry(e) != FeasibleMarker;
    }
  }

  /**
   * The fallback solver runs exactly when the fixed solve failed and the first
   * separation returned "????"; after "!!!!" or a cut it never runs.
   */
  lemma FallbackOnlyAfterNonOptimal(e: Evaluation)
    ensures (exists i :: 0 <= i < |SolveCalls(e)| && SolveCalls(e)[i].solver == FallbackSolver)
            <==> (!FixedSucceeds(e) && SeparationAnswer(e.primary) == NonOptimalMarker)
    ensures !FixedSucceeds(e) && SeparationAnswer(e.primary) != NonOptimalMarker ==>
            EvaluateCandidate(e).cut == SeparationAnswer(e.primary)
  {
    var calls := SolveCalls(e);
    if !FixedSucceeds(e) && SeparationAnswer(e.primary) == NonOptimalMarker {
      assert calls[2].solver == FallbackSolver;
    }
  }

  /**
   * A subproblem model kept by the plugin (a clone of the scenario or bundle instance):
   * the mutable parameters holding the fixed candidate, and the switches the
   * separation problem flips and restores.
   */
  class SubproblemModel {
    var fixedValues: Vector          // fixed_variable_values
    var relaxed: bool                // core.relax_discrete applied
    var originalObjActive: bool      // original_obj active
    var separationObjActive: bool    // separation_obj active
    var separationFixed: bool        // separation_variables fixed at 0
    ghost var solveLog: seq<SolveCall>

    /** The configuration the model is built in and returned to after every separation. */
    predicate Standard()
      reads this
    {
      !relaxed && originalObjActive && !separationObjActive && separationFixed
    }

    constructor (stage1: Vector)
      ensures Standard() && fixedValues == stage1 && solveLog == []
    {
      fixedValues := stage1;
      relaxed, originalObjActive, separationObjActive, separationFixed := false, true, false, true;
      solveLog := [];
    }

    /**
     * solve_separation_problem on a normal return: relax, switch objectives, free the
     * separation variables, solve with `solver`, then put back exactly what it changed.
     * (The source's `fallback` flag only decides whether a failure is logged.)
     */
    method SolveSeparationProblem(solver: SolverKind, outcome: SeparationSolve) returns (ans: CutEntry)
      requires Standard()
      modifies this
      ensures ans == SeparationAnswer(outcome)
      ensures Standard() && fixedValues == old(fixedValues)
      ensures solveLog == old(solveLog) +
        [SolveCall(solver, SeparationObjective, true)]
    {
      relaxed := true;
      originalObjActive := false;
      separationObjActive := true;
      separationFixed := false;
      solveLog := solveLog + [SolveCall(solver,
                                        if separationObjActive then SeparationObjective else OriginalObjective,
                                        relaxed)];
      if Acceptable(outcome.status, outcome.condition) {
        ans := Cut(outcome.magnitude, outcome.terms);
      } else if outcome.condition in InfeasibleConditions {
        ans := InfeasibleMarker;
      } else {
        ans := NonOptimalMarker;
      }
      originalObjActive := true;
      separationObjActive := false;
      separationFixed := true;
      relaxed := false;
    }

    /**
     * solve_fixed_scenario_solutions: fix the candidate values, solve, and record the
     * objective and duals, or the separation cut, for each candidate in order.
     */
    method SolveFixedScenarioSolutions(cands: seq<Candidate>, outcome: Vector -> Evaluation)
      returns (r: SubproblemResult)
      requires Standard()
      modifies this
      ensures r == EvaluateSubproblem(cands, outcome)
      ensures Standard()
      ensures fixedValues == if cands == [] then old(fixedValues) else cands[|cands| - 1].x
      ensures solveLog == old(solveLog) + SubproblemSolveCalls(cands, outcome)
    {
      r := SubproblemResult([], [], []);
      for k := 0 to |cands|
        invariant Standard()
        invariant r == EvaluateSubproblem(cands[..k], outcome)
        invariant fixedValues == if k == 0 then old(fixedValues) else cands[k - 1].x
        invariant solveLog == old(solveLog) + SubproblemSolveCalls(cands[..k], outcome)
      {
        var entry := SolveCandidate(cands[k], outcome);
        EvaluateSubproblemStep(cands, outcome, k);
        r := SubproblemResult(r.objValues + [entry.objective], r.dualValues + [entry.duals], r.cutList + [entry.cut]);
      }
      assert cands[..|cands|] == cands;
    }

    /**
     * One pass of the loop above: fix candidate `c`, solve, and on failure ask the
     * separation problem, retried with the fallback solver after "????".
     */
    method SolveCandidate(c: Candidate, outcome: Vector -> Evaluation) returns (entry: CandidateEntry)
      requires Standard()
      modifies this
      ensures entry == EvaluateCandidate(outcome(c.x))
      ensures Standard() && fixedValues == c.x
      ensures solveLog == old(solveLog) + SolveCalls(outcome(c.x))
    {
      fixedValues := c.x;
      var e := outcome(fixedValues);
      solveLog := solveLog + [SolveCall(PrimarySolver,
                                        if separationObjActive then SeparationObjective else OriginalObjective,
                                        relaxed)];
      if Acceptable(e.fixed.status, e.fixed.condition) {
        entry := CandidateEntry(Some(e.fixed.objective), Some(e.fixed.duals), FeasibleMarker);
      } else {
        var cut := SolveSeparationProblem(PrimarySolver, e.primary);
        if cut == NonOptimalMarker {
          cut := SolveSeparationProblem(FallbackSolver, e.fallback);
        }
        entry := CandidateEntry(None, None, cut);
      }
    }
  }
}
