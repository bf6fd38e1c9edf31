/**
 * The bound and counter bookkeeping of MindtPy's master problem
 * (pyomo.contrib.mindtpy.mip_solve): `solve_master` counts master solves and, in
 * the single-tree mode without no-good cuts, tightens the bound from the solver's
 * reported problem bound; the `handle_master_*` functions copy the master
 * solution, move the optimistic bound (LB when minimising, UB when maximising)
 * and record it; the infeasible handler records the bound unchanged and fills in
 * the termination condition; `handle_master_other_conditions` dispatches on the
 * termination condition.
 *
 * The MIP solver is an opaque outcome: the termination condition, the solution
 * status, the reported problem bounds and the value of the master objective.
 */
module MipSolve {
  import opened Wrappers
  import opened SolverTypes

  /** A bound, which may be infinite: MindtPy's LB and UB start at minus and plus infinity. */
  datatype ExtReal = NegInf | Finite(r: real) | PosInf

  predicate Le(a: ExtReal, b: ExtReal)
  {
    a.NegInf? || b.PosInf? || (a.Finite? && b.Finite? && a.r <= b.r)
  }

  /** Python's `max` of two bounds. */
  function Max(a: ExtReal, b: ExtReal): (m: ExtReal)
    ensures Le(a, m) && Le(b, m) && (m == a || m == b)
  {
    if Le(a, b) then b else a
  }

  /** Python's `min` of two bounds. */
  function Min(a: ExtReal, b: ExtReal): (m: ExtReal)
    ensures Le(m, a) && Le(m, b) && (m == a || m == b)
  {
    if Le(a, b) then a else b
  }

  /** A sequence of bounds that never goes down. */
  predicate Ascending(s: seq<ExtReal>)
  {
    forall i, j :: 0 <= i < j < |s| ==> Le(s[i], s[j])
  }

  /** A sequence of bounds that never goes up. */
  predicate Descending(s: seq<ExtReal>)
  {
    forall i, j :: 0 <= i < j < |s| ==> Le(s[j], s[i])
  }

  lemma LeReflexive(a: ExtReal)
    ensures Le(a, a)
  {
  }

  lemma LeTrans(a: ExtReal, b: ExtReal, c: ExtReal)
    requires Le(a, b) && Le(b, c)
    ensures Le(a, c)
  {
  }

  /** Appending a bound no smaller than the last keeps a sequence ascending. */
  lemma AppendAscending(s: seq<ExtReal>, x: ExtReal)
    requires Ascending(s) && s != [] && Le(s[|s| - 1], x)
    ensures Ascending(s + [x])
  {
    var t := s + [x];
    forall i, j | 0 <= i < j < |t| ensures Le(t[i], t[j]) {
      if j == |s| {
        if i < |s| - 1 {
          LeTrans(s[i], s[|s| - 1], x);
        }
      }
    }
  }

  /** Appending a bound no larger than the last keeps a sequence descending. */
  lemma AppendDescending(s: seq<ExtReal>, x: ExtReal)
    requires Descending(s) && s != [] && Le(x, s[|s| - 1])
    ensures Descending(s + [x])
  {
    var t := s + [x];
    forall i, j | 0 <= i < j < |t| ensures Le(t[j], t[i]) {
      if j == |s| {
        if i < |s| - 1 {
          LeTrans(x, s[|s| - 1], s[i]);
        }
      }
    }
  }

  /** The bound after a run of `max` updates: at least the start and every objective seen, and one of them. */
  function RaiseAll(lb: ExtReal, objs: seq<ExtReal>): ExtReal
    decreases |objs|
  {
    if objs == [] then lb else Max(objs[|objs| - 1], RaiseAll(lb, objs[..|objs| - 1]))
  }

  lemma {:induction false} RaiseAllIsMaximum(lb: ExtReal, objs: seq<ExtReal>)
    ensures Le(lb, RaiseAll(lb, objs))
    ensures forall k :: 0 <= k < |objs| ==> Le(objs[k], RaiseAll(lb, objs))
    ensures RaiseAll(lb, objs) == lb || exists k :: 0 <= k < |objs| && RaiseAll(lb, objs) == objs[k]
    decreases |objs|
  {
    if objs != [] {
      var init := objs[..|objs| - 1];
      var prev := RaiseAll(lb, init);
      RaiseAllIsMaximum(lb, init);
      var m := RaiseAll(lb, objs);
      assert m == Max(objs[|objs| - 1], prev);
      LeTrans(lb, prev, m);
      forall k | 0 <= k < |objs| ensures Le(objs[k], m) {
        if k < |objs| - 1 {
          assert objs[k] == init[k];
          LeTrans(objs[k], prev, m);
        }
      }
      if m != lb && m != objs[|objs| - 1] {
        var k :| 0 <= k < |init| && prev == init[k];
        assert m == objs[k];
      }
    }
  }

  datatype ObjectiveSense = Minimize | Maximize

  /** The handler `handle_master_other_conditions` chooses. */
  datatype MasterHandler = InfeasibleHandler | UnboundedHandler | MaxTimeLimitHandler | FeasibleOtherHandler

  /**
   * The dispatch of `handle_master_other_conditions`: infeasible, unbounded and
   * the time limit each have a handler; `other` is accepted only with a feasible
   * solution; any other condition raises a ValueError (`None` here).
   */
  function OtherConditionHandler(tc: TerminationCondition, status: SolutionStatus): (h: Option<MasterHandler>)
    ensures h.None? <==> tc !in {Infeasible, Unbounded, MaxTimeLimit} && !(tc == Other && status == SolutionFeasible)
    ensures h == Some(FeasibleOtherHandler) <==> tc == Other && status == SolutionFeasible
  {
    if tc == Infeasible then Some(InfeasibleHandler)
    else if tc == Unbounded then Some(UnboundedHandler)
    else if tc == MaxTimeLimit then Some(MaxTimeLimitHandler)
    else if tc == Other && status == SolutionFeasible then Some(FeasibleOtherHandler)
    else None
  }

  /**
   * The termination condition the infeasible handler leaves in the results: one
   * already set stays; otherwise `infeasible` before any master solve was counted
   * and `feasible` after.
   */
  function InfeasibleTermination(current: Option<TerminationCondition>, mipIter: nat): (r: Option<TerminationCondition>)
    ensures r.Some?
    ensures current.Some? ==> r == current
    ensures current.None? ==> (r.value == Infeasible <==> mipIter == 0) && (r.value == Feasible <==> mipIter != 0)
  {
    if current.Some? then current else if mipIter == 0 then Some(Infeasible) else Some(Feasible)
  }

  /** What the master solve reports: the results object, as far as the bookkeeping reads it. */
  datatype MasterResults = MasterResults(termination: TerminationCondition, solutionStatus: SolutionStatus,
                                         lowerBound: ExtReal, upperBound: ExtReal)

  /** The solve itself: results, or the ValueError that `solve_master` catches. */
  datatype MasterOutcome = SolveRaised | Solved(results: MasterResults)

  /** What the bounded re-solve of the unbounded handler loads into the master: nothing, or a solution. */
  datatype ResolveOutcome = NoSolution | Loaded(values: seq<Option<real>>, objective: real)

  /**
   * The master MIP: its variable list (values, integrality, lower bounds), the
   * master objective's value and, once the unbounded handler has added it, the
   * bound b of the constraint `-b <= objective <= b` (`MindtPy.objective_bound`).
   */
  class MasterMip {
    var values: array<Option<real>>
    const integer: seq<bool>
    const lower: seq<Option<real>>
    var objectiveValue: real
    var objectiveBound: Option<real>

    predicate Shaped()
      reads this
    {
      values.Length == |integer| == |lower|
    }

    constructor (values: seq<Option<real>>, integer: seq<bool>, lower: seq<Option<real>>, objectiveValue: real)
      requires |values| == |integer| == |lower|
      ensures Shaped() && this.values[..] == values && this.integer == integer && this.lower == lower
      ensures this.objectiveValue == objectiveValue && objectiveBound.None? && fresh(this.values)
    {
      this.values := new Option<real>[|values|](i requires 0 <= i < |values| => values[i]);
      this.integer := integer;
      this.lower := lower;
      this.objectiveValue := objectiveValue;
      this.objectiveBound := None;
    }

    /**
     * handle_master_unbounded: add the objective bound, which stays on the model,
     * and solve again; a solution the re-solve finds is loaded into the variables
     * and the objective, and only the results object is dropped.
     */
    method BoundAndResolve(objBound: real, resolve: ResolveOutcome)
      requires Shaped() && (resolve.Loaded? ==> |resolve.values| == values.Length)
      modifies this`objectiveBound, this`objectiveValue, values
      ensures Shaped() && objectiveBound == Some(objBound)
      ensures resolve.NoSolution? ==> unchanged(values) && objectiveValue == old(objectiveValue)
      ensures resolve.Loaded? ==> values[..] == resolve.values && objectiveValue == resolve.objective
    {
      if resolve.Loaded? {
        for i := 0 to values.Length
          invariant forall k :: 0 <= k < i ==> values[k] == resolve.values[k]
        {
          values[i] := resolve.values[i];
        }
        objectiveValue := resolve.objective;
      }
      objectiveBound := Some(objBound);
    }

    /** The first loop of `handle_master_optimal`: every integer variable without a value takes its lower bound. */
    method InitialiseIntegers()
      requires Shaped()
      modifies values
      ensures forall i :: 0 <= i < values.Length ==>
                values[i] == if old(values[i]).None? && integer[i] then lower[i] else old(values[i])
      ensures forall i :: 0 <= i < values.Length && integer[i] && lower[i].Some? ==> values[i].Some?
    {
      for i := 0 to values.Length
        invariant forall k :: 0 <= k < i ==>
                    values[k] == if old(values[k]).None? && integer[k] then lower[k] else old(values[k])
        invariant forall k :: i <= k < values.Length ==> values[k] == old(values[k])
      {
        if values[i].None? && integer[i] {
          values[i] := lower[i];
        }
      }
    }
  }

  /** The part of MindtPy's `solve_data` that the master-problem functions update. */
  class SolveData {
    var lb: ExtReal
    var ub: ExtReal
    var lbProgress: seq<ExtReal>
    var ubProgress: seq<ExtReal>
    var mipIter: nat
    var termination: Option<TerminationCondition>   // solve_data.results.solver.termination_condition
    var workingValues: seq<Option<real>>            // the working model's variable values
    const sense: ObjectiveSense

    /** Each progress list ends with its bound and moves only towards optimality. */
    predicate Valid()
      reads this
    {
      lbProgress != [] && lbProgress[|lbProgress| - 1] == lb && Ascending(lbProgress) &&
      ubProgress != [] && ubProgress[|ubProgress| - 1] == ub && Descending(ubProgress)
    }

    constructor (sense: ObjectiveSense, lb: ExtReal, ub: ExtReal, workingValues: seq<Option<real>>)
      ensures Valid() && this.sense == sense && this.lb == lb && this.ub == ub
      ensures lbProgress == [lb] && ubProgress == [ub] && mipIter == 0 && termination.None?
      ensures this.workingValues == workingValues
    {
      this.sense := sense;
      this.lb := lb;
      this.ub := ub;
      lbProgress := [lb];
      ubProgress := [ub];
      mipIter := 0;
      termination := None;
      this.workingValues := workingValues;
    }

    /**
     * The bound update shared by the handlers: when minimising LB becomes the
     * larger of `obj` and LB and is recorded; when maximising UB becomes the
     * smaller and is recorded.
     */
    method ImproveBound(obj: ExtReal)
      requires Valid()
      modifies this`lb, this`ub, this`lbProgress, this`ubProgress
      ensures Valid()
      ensures sense == Minimize ==> lb == Max(obj, old(lb)) && lbProgress == old(lbProgress) + [lb] &&
                                    ub == old(ub) && ubProgress == old(ubProgress)
      ensures sense == Maximize ==> ub == Min(obj, old(ub)) && ubProgress == old(ubProgress) + [ub] &&
                                    lb == old(lb) && lbProgress == old(lbProgress)
      ensures Le(old(lb), lb) && Le(ub, old(ub))
    {
      if sense == Minimize {
        AppendAscending(lbProgress, Max(obj, lb));
        lb := Max(obj, lb);
        lbProgress := lbProgress + [lb];
      } else {
        AppendDescending(ubProgress, Min(obj, ub));
        ub := Min(obj, ub);
        ubProgress := ubProgress + [ub];
      }
    }

    /**
     * solve_master: count the solve unless it is a feasibility-pump or
     * regularization solve, then solve; a ValueError gives no results. An optimal
     * single-tree solve without no-good cuts moves the bound to the solver's
     * problem bound; `infeasibleOrUnbounded` is answered by the re-solve that tells
     * the two apart, `distinguished`.
     */
    method SolveMaster(feasPump: bool, regularization: bool, singleTree: bool, addNoGoodCuts: bool,
                       outcome: MasterOutcome, distinguished: MasterResults)
      returns (results: Option<MasterResults>)
      requires Valid()
      modifies this`lb, this`ub, this`lbProgress, this`ubProgress, this`mipIter
      ensures Valid()
      ensures mipIter == old(mipIter) + (if !feasPump && !regularization then 1 else 0)
      ensures outcome.SolveRaised? ==> results.None? && unchanged(this`lb, this`ub, this`lbProgress, this`ubProgress)
      ensures outcome.Solved? && outcome.results.termination == InfeasibleOrUnbounded ==> results == Some(distinguished)
      ensures outcome.Solved? && outcome.results.termination != InfeasibleOrUnbounded ==> results == Some(outcome.results)
      ensures var moved := outcome.Solved? && outcome.results.termination == Optimal && singleTree && !addNoGoodCuts;
              !moved ==> unchanged(this`lb, this`ub, this`lbProgress, this`ubProgress)
      ensures var moved := outcome.Solved? && outcome.results.termination == Optimal && singleTree && !addNoGoodCuts;
              moved && sense == Minimize ==> lb == Max(outcome.results.lowerBound, old(lb)) && lbProgress == old(lbProgress) + [lb] &&
                                             ub == old(ub) && ubProgress == old(ubProgress)
      ensures var moved := outcome.Solved? && outcome.results.termination == Optimal && singleTree && !addNoGoodCuts;
              moved && sense == Maximize ==> ub == Min(outcome.results.upperBound, old(ub)) && ubProgress == old(ubProgress) + [ub] &&
                                             lb == old(lb) && lbProgress == old(lbProgress)
      ensures Le(old(lb), lb) && Le(ub, old(ub))
    {
      if !feasPump && !regularization {
        mipIter := mipIter + 1;
      }
      if outcome.SolveRaised? {
        return None;
      }
      var r := outcome.results;
      if r.termination == Optimal {
        if singleTree && !addNoGoodCuts {
          ImproveBound(if sense == Minimize then r.lowerBound else r.upperBound);
        }
      } else if r.termination == InfeasibleOrUnbounded {
        r := distinguished;
      }
      return Some(r);
    }

    /**
     * handle_master_optimal: give uninitialised integer variables their lower
     * bound, copy the master values to the working model and, when asked, move the
     * bound to the master objective.
     */
    method HandleMasterOptimal(master: MasterMip, updateBound: bool)
      requires Valid() && master.Shaped()
      modifies master.values, this`workingValues, this`lb, this`ub, this`lbProgress, this`ubProgress
      ensures Valid()
      ensures forall i :: 0 <= i < master.values.Length ==>
                master.values[i] == if old(master.values[i]).None? && master.integer[i] then master.lower[i]
                                    else old(master.values[i])
      ensures workingValues == master.values[..]
      ensures !updateBound ==> unchanged(this`lb, this`ub, this`lbProgress, this`ubProgress)
      ensures updateBound && sense == Minimize ==> lb == Max(Finite(master.objectiveValue), old(lb)) &&
                                                   lbProgress == old(lbProgress) + [lb] &&
                                                   ub == old(ub) && ubProgress == old(ubProgress)
      ensures updateBound && sense == Maximize ==> ub == Min(Finite(master.objectiveValue), old(ub)) &&
                                                   ubProgress == old(ubProgress) + [ub] &&
                                                   lb == old(lb) && lbProgress == old(lbProgress)
    {
      master.InitialiseIntegers();
      workingValues := master.values[..];
      if updateBound {
        ImproveBound(Finite(master.objectiveValue));
      }
    }

    /**
     * handle_master_infeasible: record the current bound, unchanged, and set the
     * termination condition when none is set yet.
     */
    method HandleMasterInfeasible()
      requires Valid()
      modifies this`lbProgress, this`ubProgress, this`termination
      ensures Valid()
      ensures sense == Minimize ==> lbProgress == old(lbProgress) + [lb] && ubProgress == old(ubProgress)
      ensures sense == Maximize ==> ubProgress == old(ubProgress) + [ub] && lbProgress == old(lbProgress)
      ensures termination == InfeasibleTermination(old(termination), mipIter)
    {
      if sense == Minimize {
        AppendAscending(lbProgress, lb);
        lbProgress := lbProgress + [lb];
      } else {
        AppendDescending(ubProgress, ub);
        ubProgress := ubProgress + [ub];
      }
      if termination.None? {
        if mipIter == 0 {
          termination := Some(Infeasible);
        } else {
          termination := Some(Feasible);
        }
      }
    }

    /** handle_master_max_timelimit: use the solver's current solution and move the bound to its objective. */
    method HandleMasterMaxTimelimit(master: MasterMip)
      requires Valid() && master.Shaped()
      modifies this`workingValues, this`lb, this`ub, this`lbProgress, this`ubProgress
      ensures Valid()
      ensures workingValues == master.values[..]
      ensures sense == Minimize ==> lb == Max(Finite(master.objectiveValue), old(lb)) && lbProgress == old(lbProgress) + [lb] &&
                                    ub == old(ub) && ubProgress == old(ubProgress)
      ensures sense == Maximize ==> ub == Min(Finite(master.objectiveValue), old(ub)) && ubProgress == old(ubProgress) + [ub] &&
                                    lb == old(lb) && lbProgress == old(lbProgress)
      ensures Le(old(lb), lb) && Le(ub, old(ub))
    {
      workingValues := master.values[..];
      ImproveBound(Finite(master.objectiveValue));
    }

    /**
     * handle_master_other_conditions: dispatch on the termination condition. The
     * unbounded handler changes the master only: it bounds the objective with
     * `objBound` and loads what the re-solve, `resolve`, finds. A condition with no
     * handler raises.
     */
    method HandleMasterOtherConditions(master: MasterMip, results: MasterResults, objBound: real, resolve: ResolveOutcome)
      returns (r: Result<(), string>)
      requires Valid() && master.Shaped()
      requires results.termination == Unbounded && resolve.Loaded? ==> |resolve.values| == master.values.Length
      modifies this`workingValues, this`lb, this`ub, this`lbProgress, this`ubProgress, this`termination
      modifies master`objectiveBound, master`objectiveValue, master.values
      ensures Valid() && master.Shaped()
      ensures r.Err? <==> OtherConditionHandler(results.termination, results.solutionStatus).None?
      ensures r.Err? ==> unchanged(this`workingValues, this`lb, this`ub, this`lbProgress, this`ubProgress, this`termination)
      ensures results.termination != Unbounded ==> unchanged(master) && unchanged(master.values)
      ensures results.termination == Infeasible ==>
                lb == old(lb) && ub == old(ub) && termination == InfeasibleTermination(old(termination), mipIter) &&
                workingValues == old(workingValues)
      ensures results.termination == Infeasible && sense == Minimize ==>
                lbProgress == old(lbProgress) + [lb] && ubProgress == old(ubProgress)
      ensures results.termination == Infeasible && sense == Maximize ==>
                ubProgress == old(ubProgress) + [ub] && lbProgress == old(lbProgress)
      ensures results.termination == Unbounded ==>
                unchanged(this`workingValues, this`lb, this`ub, this`lbProgress, this`ubProgress, this`termination) &&
                master.objectiveBound == Some(objBound)
      ensures results.termination == Unbounded && resolve.NoSolution? ==>
                unchanged(master.values) && master.objectiveValue == old(master.objectiveValue)
      ensures results.termination == Unbounded && resolve.Loaded? ==>
                master.values[..] == resolve.values && master.objectiveValue == resolve.objective
      ensures OtherConditionHandler(results.termination, results.solutionStatus) in
                {Some(MaxTimeLimitHandler), Some(FeasibleOtherHandler)} ==>
                workingValues == master.values[..] && termination == old(termination) &&
                (sense == Minimize ==> lb == Max(Finite(master.objectiveValue), old(lb)) && lbProgress == old(lbProgress) + [lb] &&
                                       ub == old(ub) && ubProgress == old(ubProgress)) &&
                (sense == Maximize ==> ub == Min(Finite(master.objectiveValue), old(ub)) && ubProgress == old(ubProgress) + [ub] &&
                                       lb == old(lb) && lbProgress == old(lbProgress))
      ensures Le(old(lb), lb) && Le(ub, old(ub))
    {
      LeReflexive(lb);
      LeReflexive(ub);
      r := Ok(());
      match OtherConditionHandler(results.termination, results.solutionStatus)
      case None =>
        return Err("MindtPy unable to handle MILP master termination condition");
      case Some(InfeasibleHandler) =>
        HandleMasterInfeasible();
      case Some(UnboundedHandler) =>
        master.BoundAndResolve(objBound, resolve);
      case Some(MaxTimeLimitHandler) =>
        HandleMasterMaxTimelimit(master);
      case Some(FeasibleOtherHandler) =>
        workingValues := master.values[..];
        ImproveBound(Finite(master.objectiveValue));
    }
  }
}
