/**
 * The classifiers, validators and the standard-form rewrite of
 * pyomo.contrib.pyros.util: how a master-problem termination condition is
 * classified, which keyword inputs `validate_kwarg_inputs` refuses, where
 * `get_time_from_solver` finds the solve time, and how
 * `transform_to_standard_form` rewrites each active inequality.
 *
 * Model components are abstract: variables and parameters are records, a
 * constraint is a record of its equality flag, bounds, body and activity, and
 * Python's `is` on bound objects compares their reference ids.
 */
module PyrosUtil {
  import opened Wrappers
  import opened SolverTypes

  // ---------------------------------------------------------------------------
  // process_termination_condition_master_problem

  /** The PyROS return code this classification can produce. */
  datatype PyrosCode = RobustInfeasible

  /** `locally_acceptable`, or `globally_acceptable` when the master is solved globally. */
  predicate Acceptable(solveGlobally: bool, tc: TerminationCondition)
  {
    tc.Optimal? || tc.GloballyOptimal? || (!solveGlobally && tc.LocallyOptimal?)
  }

  /** `try_backups`: the conditions after which PyROS tries the backup solvers. */
  predicate TryBackups(tc: TerminationCondition)
  {
    tc.Feasible? || tc.MaxTimeLimit? || tc.MaxIterations? || tc.MaxEvaluations? || tc.MinStepLength? ||
    tc.MinFunctionValue? || tc.Other? || tc.SolverFailure? || tc.InternalSolverError? || tc.Error? ||
    tc.Unbounded? || tc.InfeasibleOrUnbounded? || tc.InvalidProblem? || tc.IntermediateNonInteger? ||
    tc.NoSolution? || tc.Unknown?
  }

  /**
   * process_termination_condition_master_problem: `(try_backups, return code)`, or
   * the NotImplementedError for a condition it does not know. Only the three
   * interrupt and licensing conditions, and `locallyOptimal` in global mode, raise.
   */
  function ClassifyMasterTermination(solveGlobally: bool, tc: TerminationCondition): (r: Result<(bool, Option<PyrosCode>), string>)
    ensures r == Ok((false, None)) <==>
              tc == Optimal || tc == GloballyOptimal || (!solveGlobally && tc == LocallyOptimal)
    ensures r == Ok((false, Some(RobustInfeasible))) <==> tc == Infeasible
    ensures r == Ok((true, None)) <==> TryBackups(tc)
    ensures r.Err? <==> tc.UserInterrupt? || tc.ResourceInterrupt? || tc.LicensingProblem? || (solveGlobally && tc.LocallyOptimal?)
  {
    if Acceptable(solveGlobally, tc) then Ok((false, None))
    else if tc.Infeasible? then Ok((false, Some(RobustInfeasible)))
    else if TryBackups(tc) then Ok((true, None))
    else Err("This solver return termination condition is currently not supported by PyROS.")
  }

  // ---------------------------------------------------------------------------
  // validate_kwarg_inputs

  /** An uncertain parameter: mutable exactly when it is not constant, fixed and not potentially variable. */
  datatype ParamInfo = ParamInfo(name: string, isConstant: bool, isFixed: bool, isPotentiallyVariable: bool)

  predicate Mutable(p: ParamInfo)
  {
    !p.isConstant && p.isFixed && !p.isPotentiallyVariable
  }

  /** The inputs `validate_kwarg_inputs` inspects. Variables are reference ids. */
  datatype KwargInputs = KwargInputs(
    isConcreteModel: bool,
    firstStage: seq<nat>,
    secondStage: seq<nat>,
    uncertainParams: seq<ParamInfo>,
    hasUncertaintySet: bool,
    hasLocalSolver: bool,
    hasGlobalSolver: bool,
    bypassLocal: bool,
    bypassGlobal: bool)

  /** The ValueError raised, by the check that raised it. */
  datatype ValidationError =
    | NotConcreteModel
    | NoStageVariables
    | CommonStageVariables
    | NoUncertaintySet
    | NonMutableParams(names: seq<string>)
    | MissingSolver
    | BothSeparationsBypassed
    | NoDegreesOfFreedom
    | NoUncertainParams

  /** The first parameter of `ps`, from `k`, that is not mutable: the one the loop raises on. */
  function FirstNonMutable(ps: seq<ParamInfo>, k: nat): (r: Option<nat>)
    requires k <= |ps|
    ensures r.None? <==> forall j :: k <= j < |ps| ==> Mutable(ps[j])
    ensures r.Some? ==> k <= r.value < |ps| && !Mutable(ps[r.value]) && forall j :: k <= j < r.value ==> Mutable(ps[j])
    decreases |ps| - k
  {
    if k == |ps| then None else if !Mutable(ps[k]) then Some(k) else FirstNonMutable(ps, k + 1)
  }

  /**
   * validate_kwarg_inputs, check by check in the order of the source. The checks
   * that compare a component set with itself can never raise and are not
   * written out; the degrees-of-freedom check is written out as it stands.
   */
  function ValidateKwargInputs(cfg: KwargInputs): (r: Result<(), ValidationError>)
  {
    if !cfg.isConcreteModel then Err(NotConcreteModel)
    else if cfg.firstStage == [] && cfg.secondStage == [] then Err(NoStageVariables)
    else if exists v :: v in cfg.firstStage && v in cfg.secondStage then Err(CommonStageVariables)
    else if !cfg.hasUncertaintySet then Err(NoUncertaintySet)
    else if FirstNonMutable(cfg.uncertainParams, 0).Some? then
      Err(NonMutableParams([cfg.uncertainParams[FirstNonMutable(cfg.uncertainParams, 0).value].name]))
    else if !cfg.hasLocalSolver || !cfg.hasGlobalSolver then Err(MissingSolver)
    else if cfg.bypassLocal && cfg.bypassGlobal then Err(BothSeparationsBypassed)
    else if |cfg.firstStage| + |cfg.secondStage| == 0 then Err(NoDegreesOfFreedom)
    else if |cfg.uncertainParams| == 0 then Err(NoUncertainParams)
    else Ok(())
  }

  /** The inputs are accepted exactly when every requirement holds. */
  lemma ValidateAccepts(cfg: KwargInputs)
    ensures ValidateKwargInputs(cfg).Ok? <==>
              cfg.isConcreteModel &&
              (cfg.firstStage != [] || cfg.secondStage != []) &&
              (forall v :: v in cfg.firstStage ==> v !in cfg.secondStage) &&
              cfg.hasUncertaintySet &&
              (forall j :: 0 <= j < |cfg.uncertainParams| ==> Mutable(cfg.uncertainParams[j])) &&
              cfg.hasLocalSolver && cfg.hasGlobalSolver &&
              !(cfg.bypassLocal && cfg.bypassGlobal) &&
              cfg.uncertainParams != []
  {
  }

  /** The non-mutable error names exactly one parameter: the first that is not mutable. */
  lemma ValidateNamesFirstNonMutable(cfg: KwargInputs)
    requires ValidateKwargInputs(cfg).Err? && ValidateKwargInputs(cfg).error.NonMutableParams?
    ensures exists k :: 0 <= k < |cfg.uncertainParams| && !Mutable(cfg.uncertainParams[k]) &&
                        (forall j :: 0 <= j < k ==> Mutable(cfg.uncertainParams[j])) &&
                        ValidateKwargInputs(cfg).error.names == [cfg.uncertainParams[k].name]
  {
    var k := FirstNonMutable(cfg.uncertainParams, 0).value;
    assert ValidateKwargInputs(cfg).error.names == [cfg.uncertainParams[k].name];
  }

  /** The degrees-of-freedom check comes after the emptiness check and can never raise. */
  lemma NoDegreesOfFreedomUnreachable(cfg: KwargInputs)
    ensures ValidateKwargInputs(cfg) != Err(NoDegreesOfFreedom)
  {
    if |cfg.firstStage| + |cfg.secondStage| == 0 {
      assert cfg.firstStage == [] && cfg.secondStage == [];
    }
  }

  // ---------------------------------------------------------------------------
  // get_time_from_solver

  const TicTocSolveTimeAttr := "pyros_tic_toc_time"

  /** A solve time, or the NaN returned when the results carry none. */
  datatype SolveTime = Seconds(value: real) | NaN

  predicate StartsWith(s: string, prefix: string)
  {
    |prefix| <= |s| && s[..|prefix|] == prefix
  }

  /** The attribute holding the solver's own time: `user_time` for GAMS, `time` otherwise. */
  function TimeAttrName(solverName: Option<string>): string
  {
    if solverName.Some? && StartsWith(solverName.value, "GAMS ") then "user_time" else "time"
  }

  /**
   * get_time_from_solver: the first attribute of `results.solver`, in order of
   * precedence, that is present and not None. `attrs` holds the attributes that
   * are present with a value.
   */
  method GetTimeFromSolver(solverName: Option<string>, attrs: map<string, real>) returns (t: SolveTime)
    ensures TimeAttrName(solverName) in attrs ==> t == Seconds(attrs[TimeAttrName(solverName)])
    ensures TimeAttrName(solverName) !in attrs && TicTocSolveTimeAttr in attrs ==> t == Seconds(attrs[TicTocSolveTimeAttr])
    ensures TimeAttrName(solverName) !in attrs && TicTocSolveTimeAttr !in attrs ==> t == NaN
  {
    var fromGams := solverName.Some? && StartsWith(solverName.value, "GAMS ");
    var timeAttrName := if fromGams then "user_time" else "time";
    var names := [timeAttrName, TicTocSolveTimeAttr];
    var solveTime: Option<real> := None;
    var k := 0;
    while k < |names|
      invariant 0 <= k <= |names|
      invariant solveTime.None? && forall j :: 0 <= j < k ==> names[j] !in attrs
      decreases |names| - k
    {
      solveTime := if names[k] in attrs then Some(attrs[names[k]]) else None;
      k := k + 1;
      if solveTime.Some? {
        break;
      }
    }
    assert names[0] == TimeAttrName(solverName) && names[1] == TicTocSolveTimeAttr;
    t := if solveTime.None? then NaN else Seconds(solveTime.value);
  }

  // ---------------------------------------------------------------------------
  // transform_to_standard_form

  /** A bound object; `is` compares the ids of references. `Zero` is the constant 0 of a rewritten `<= 0`. */
  datatype Term = Ref(id: nat) | Zero

  /** A constraint body: an object, or the difference of two expressions. */
  datatype Expr = Leaf(t: Term) | Minus(left: Expr, right: Expr)

  /** A constraint `lower <= body <= upper` (equal bounds when `equality`). */
  datatype Constraint = Constraint(name: string, equality: bool, lower: Option<Term>, body: Expr,
                                   upper: Option<Term>, active: bool)

  /** `a - b <= 0`, as `set_value` or `Constraint(expr=...)` stores it. */
  function NonPositive(name: string, e: Expr): Constraint
  {
    Constraint(name, false, None, e, Some(Zero), true)
  }

  /** What `transform_to_standard_form` makes of a constraint it finds. */
  function Rewritten(c: Constraint): Constraint
  {
    if !c.active || c.equality then c
    else if c.lower.Some? && c.upper.Some? then
      if c.lower.value == c.upper.value then
        Constraint(c.name, true, c.lower, c.body, c.lower, true)
      else NonPositive(c.name, Minus(c.body, Leaf(c.upper.value)))
    else if c.lower.Some? then NonPositive(c.name, Minus(Leaf(c.lower.value), c.body))
    else if c.upper.Some? then NonPositive(c.name, Minus(c.body, Leaf(c.upper.value)))
    else c.(active := false)
  }

  /** A range inequality with two distinct bound objects: it is split in two. */
  predicate SplitsInTwo(c: Constraint)
  {
    c.active && !c.equality && c.lower.Some? && c.upper.Some? && c.lower.value != c.upper.value
  }

  /** The `lower - body <= 0` half that a split adds as a new component. */
  function LowerHalf(c: Constraint): Constraint
    requires c.lower.Some?
  {
    NonPositive(c.name + "_lb", Minus(Leaf(c.lower.value), c.body))
  }

  /** The components added for `cs`, in the order the loop adds them. */
  function AddedHalves(cs: seq<Constraint>): seq<Constraint>
    decreases |cs|
  {
    if cs == [] then []
    else AddedHalves(cs[..|cs| - 1]) + (if SplitsInTwo(cs[|cs| - 1]) then [LowerHalf(cs[|cs| - 1])] else [])
  }

  /** The constraints of a model after `transform_to_standard_form`: each one rewritten, then the added halves. */
  function StandardForm(cs: seq<Constraint>): seq<Constraint>
  {
    seq(|cs|, i requires 0 <= i < |cs| => Rewritten(cs[i])) + AddedHalves(cs)
  }

  /** A model's constraint list, edited in place by `transform_to_standard_form`. */
  class ConstraintBlock {
    var constraints: seq<Constraint>

    constructor (constraints: seq<Constraint>)
      ensures this.constraints == constraints
    {
      this.constraints := constraints;
    }

    /**
     * transform_to_standard_form: the list of active constraints is taken first,
     * so constraints added by a split are not visited.
     */
    method TransformToStandardForm()
      modifies this
      ensures constraints == StandardForm(old(constraints))
    {
      ghost var cs := constraints;
      var n := |constraints|;
      for i := 0 to n
        invariant |constraints| >= n
        invariant forall k :: 0 <= k < n ==> constraints[k] == if k < i then Rewritten(cs[k]) else cs[k]
        invariant constraints[n..] == AddedHalves(cs[..i])
      {
        var con, added := RewriteConstraint(constraints[i]);
        assert cs[..i + 1][..i] == cs[..i];
        constraints := constraints[..n][i := con] + constraints[n..] + added;
      }
      assert cs[..n] == cs;
    }
  }

  /** The body of the loop for one constraint: its new value, and the component a split adds. */
  method RewriteConstraint(con: Constraint) returns (r: Constraint, added: seq<Constraint>)
    ensures r == Rewritten(con)
    ensures added == if SplitsInTwo(con) then [LowerHalf(con)] else []
  {
    r, added := con, [];
    if !con.equality && con.active {
      if con.lower.Some? && con.upper.Some? {
        if con.lower.value == con.upper.value {
          r := Constraint(con.name, true, con.lower, con.body, con.lower, true);
        } else {
          added := [LowerHalf(con)];
          r := NonPositive(con.name, Minus(con.body, Leaf(con.upper.value)));
        }
      } else if con.lower.Some? {
        r := NonPositive(con.name, Minus(Leaf(con.lower.value), con.body));
      } else if con.upper.Some? {
        r := NonPositive(con.name, Minus(con.body, Leaf(con.upper.value)));
      } else {
        r := con.(active := false);
      }
    }
  }

  /** The rewrite keeps equalities and inactive constraints and adds one component per split. */
  lemma {:induction false} AddedHalvesCount(cs: seq<Constraint>)
    ensures |AddedHalves(cs)| == |set i | 0 <= i < |cs| && SplitsInTwo(cs[i])|
    decreases |cs|
  {
    if cs != [] {
      var init := cs[..|cs| - 1];
      AddedHalvesCount(init);
      var before := set i | 0 <= i < |init| && SplitsInTwo(init[i]);
      var now := set i | 0 <= i < |cs| && SplitsInTwo(cs[i]);
      if SplitsInTwo(cs[|cs| - 1]) {
        assert now == before + {|cs| - 1};
      } else {
        assert now == before;
      }
    }
  }

  /** Every added component is the lower half of a split constraint, and every split adds its lower half. */
  lemma {:induction false} InAddedHalves(cs: seq<Constraint>, d: Constraint)
    ensures d in AddedHalves(cs) <==> exists i :: 0 <= i < |cs| && SplitsInTwo(cs[i]) && d == LowerHalf(cs[i])
    decreases |cs|
  {
    if cs != [] {
      var init := cs[..|cs| - 1];
      InAddedHalves(init, d);
      if d in AddedHalves(cs) && d !in AddedHalves(init) {
        assert SplitsInTwo(cs[|cs| - 1]) && d == LowerHalf(cs[|cs| - 1]);
      }
      if exists i :: 0 <= i < |cs| && SplitsInTwo(cs[i]) && d == LowerHalf(cs[i]) {
        var i :| 0 <= i < |cs| && SplitsInTwo(cs[i]) && d == LowerHalf(cs[i]);
        if i < |init| {
          assert init[i] == cs[i];
        }
      }
    }
  }

  /** In standard form: every active inequality reads `body <= 0`. */
  predicate InStandardForm(c: Constraint)
  {
    c.active && !c.equality ==> c.lower.None? && c.upper == Some(Zero)
  }

  /**
   * After the rewrite every active inequality reads `body <= 0`; an equality or
   * an inactive constraint is left exactly as it was; the original count grows
   * by one per split.
   */
  lemma StandardFormShape(cs: seq<Constraint>)
    ensures |StandardForm(cs)| == |cs| + |set i | 0 <= i < |cs| && SplitsInTwo(cs[i])|
    ensures forall c :: c in StandardForm(cs) ==> InStandardForm(c)
    ensures forall i :: 0 <= i < |cs| && (!cs[i].active || cs[i].equality) ==> StandardForm(cs)[i] == cs[i]
  {
    AddedHalvesCount(cs);
    forall c | c in StandardForm(cs) ensures InStandardForm(c) {
      var r := seq(|cs|, i requires 0 <= i < |cs| => Rewritten(cs[i]));
      if c in r {
        var i :| 0 <= i < |r| && r[i] == c;
      } else {
        assert c in AddedHalves(cs);
        InAddedHalves(cs, c);
      }
    }
  }

  // The meaning of a constraint, given the value of every reference and of 0.

  function TermValue(t: Term, env: nat -> real): real
  {
    match t
    case Ref(id) => env(id)
    case Zero => 0.0
  }

  function ExprValue(e: Expr, env: nat -> real): real
  {
    match e
    case Leaf(t) => TermValue(t, env)
    case Minus(l, r) => ExprValue(l, env) - ExprValue(r, env)
  }

  /** An active constraint holds when its body lies within its bounds; an inactive one always holds. */
  predicate Holds(c: Constraint, env: nat -> real)
  {
    c.active ==>
      (c.lower.Some? ==> TermValue(c.lower.value, env) <= ExprValue(c.body, env)) &&
      (c.upper.Some? ==> ExprValue(c.body, env) <= TermValue(c.upper.value, env))
  }

  predicate AllHold(cs: seq<Constraint>, env: nat -> real)
  {
    forall i :: 0 <= i < |cs| ==> Holds(cs[i], env)
  }

  /** A split constraint holds exactly when its rewritten upper half and its added lower half both hold. */
  lemma RewrittenMeaning(c: Constraint, env: nat -> real)
    ensures SplitsInTwo(c) ==> (Holds(c, env) <==> Holds(Rewritten(c), env) && Holds(LowerHalf(c), env))
    ensures !SplitsInTwo(c) ==> (Holds(c, env) <==> Holds(Rewritten(c), env))
  {
    var b := ExprValue(c.body, env);
    if c.active && !c.equality {
      if c.lower.Some? {
        assert ExprValue(Minus(Leaf(c.lower.value), c.body), env) == TermValue(c.lower.value, env) - b;
      }
      if c.upper.Some? {
        assert ExprValue(Minus(c.body, Leaf(c.upper.value)), env) == b - TermValue(c.upper.value, env);
      }
    }
  }

  lemma {:induction false} AddedHalvesHold(cs: seq<Constraint>, env: nat -> real)
    ensures AllHold(AddedHalves(cs), env) <==>
              forall i :: 0 <= i < |cs| && SplitsInTwo(cs[i]) ==> Holds(LowerHalf(cs[i]), env)
  {
    forall d | d in AddedHalves(cs) {
      InAddedHalves(cs, d);
    }
    if forall i :: 0 <= i < |cs| && SplitsInTwo(cs[i]) ==> Holds(LowerHalf(cs[i]), env) {
      forall k | 0 <= k < |AddedHalves(cs)| ensures Holds(AddedHalves(cs)[k], env) {
        InAddedHalves(cs, AddedHalves(cs)[k]);
      }
    }
    if AllHold(AddedHalves(cs), env) {
      forall i | 0 <= i < |cs| && SplitsInTwo(cs[i]) ensures Holds(LowerHalf(cs[i]), env) {
        InAddedHalves(cs, LowerHalf(cs[i]));
        var k :| 0 <= k < |AddedHalves(cs)| && AddedHalves(cs)[k] == LowerHalf(cs[i]);
      }
    }
  }

  lemma AllHoldAppend(a: seq<Constraint>, b: seq<Constraint>, env: nat -> real)
    ensures AllHold(a + b, env) <==> AllHold(a, env) && AllHold(b, env)
  {
    if AllHold(a + b, env) {
      forall k | 0 <= k < |a| ensures Holds(a[k], env) {
        assert (a + b)[k] == a[k];
      }
      forall k | 0 <= k < |b| ensures Holds(b[k], env) {
        assert (a + b)[|a| + k] == b[k];
      }
    }
  }

  /** The rewrite does not change which points satisfy the model's constraints. */
  lemma StandardFormPreservesMeaning(cs: seq<Constraint>, env: nat -> real)
    ensures AllHold(StandardForm(cs), env) <==> AllHold(cs, env)
  {
    var r := seq(|cs|, i requires 0 <= i < |cs| => Rewritten(cs[i]));
    var added := AddedHalves(cs);
    AllHoldAppend(r, added, env);
    AddedHalvesHold(cs, env);
    if AllHold(cs, env) {
      forall i | 0 <= i < |cs| ensures Holds(r[i], env) && (SplitsInTwo(cs[i]) ==> Holds(LowerHalf(cs[i]), env)) {
        RewrittenMeaning(cs[i], env);
      }
    }
    if AllHold(r, env) && AllHold(added, env) {
      forall i | 0 <= i < |cs| ensures Holds(cs[i], env) {
        assert Holds(r[i], env);
        assert SplitsInTwo(cs[i]) ==> Holds(LowerHalf(cs[i]), env);
        RewrittenMeaning(cs[i], env);
      }
    }
  }
}
