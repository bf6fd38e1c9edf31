/**
 * The InterScenario progressive-hedging extension: the plugin object, its state, and
 * the steps of one plugin run (collect the candidates, evaluate every candidate in
 * every subproblem, aggregate objectives, incumbent, cuts and rho), plus the hooks
 * PH calls around its iterations.
 *
 * PH itself is an input: `PhView` is what the plugin reads of it in one call, the
 * subproblem models are objects the plugin solves, and what it hands back to PH (the
 * rho values to set, the cuts to add) is returned.
 */
module InterScenarioPlugin {
  import opened Wrappers
  import opened InterScenarioRegistry
  import opened InterScenarioEval
  import opened InterScenarioCuts
  import opened InterScenarioIncumbent
  import opened InterScenarioRho
  import opened InterScenarioSchedule

  /** A subproblem PH solves (a bundle when the tree has bundles, else a scenario). */
  datatype PhSubproblem = PhSubproblem(problem: Subproblem, probability: real, outcome: Vector -> Evaluation)

  /** What the plugin reads of PH in one call. */
  datatype PhView = PhView(
    iteration: int,
    rootScenarios: seq<ScenarioSolution>,       // the root node's scenarios with their first-stage values
    subproblems: seq<PhSubproblem>,
    scenarioProbability: map<ScenarioName, real>,
    rootVars: seq<RootVar>,                     // the root node's variables in iteration order
    xbarKeys: set<VarId>)                       // the root node's xbar variables

  /** The three result lists of one evaluation round (one slot per subproblem) and the probabilities. */
  datatype RoundResults = RoundResults(
    objValues: seq<seq<Option<real>>>,
    dualValues: seq<seq<Option<map<VarId, real>>>>,
    cuts: seq<seq<CutEntry>>,
    probability: seq<real>)

  function Problems(subs: seq<PhSubproblem>): (ps: seq<Subproblem>)
    ensures |ps| == |subs| && forall i :: 0 <= i < |subs| ==> ps[i] == subs[i].problem
  {
    seq(|subs|, i requires 0 <= i < |subs| => subs[i].problem)
  }

  function Probabilities(subs: seq<PhSubproblem>): (ps: seq<real>)
    ensures |ps| == |subs| && forall i :: 0 <= i < |subs| ==> ps[i] == subs[i].probability
  {
    seq(|subs|, i requires 0 <= i < |subs| => subs[i].probability)
  }

  /** The results of evaluating `cands` in every subproblem, slot `i` for subproblem `i`. */
  function RoundOf(cands: seq<Candidate>, subs: seq<PhSubproblem>): (r: RoundResults)
    ensures |r.objValues| == |subs| && |r.dualValues| == |subs| && |r.cuts| == |subs| && r.probability == Probabilities(subs)
  {
    RoundResults(
      seq(|subs|, i requires 0 <= i < |subs| => EvaluateSubproblem(cands, subs[i].outcome).objValues),
      seq(|subs|, i requires 0 <= i < |subs| => EvaluateSubproblem(cands, subs[i].outcome).dualValues),
      seq(|subs|, i requires 0 <= i < |subs| => EvaluateSubproblem(cands, subs[i].outcome).cutList),
      Probabilities(subs))
  }

  /** Slot `i` of a round holds subproblem `i`'s evaluation of every candidate, one entry per candidate. */
  lemma RoundOfAt(cands: seq<Candidate>, subs: seq<PhSubproblem>, i: nat)
    requires i < |subs|
    ensures var r := RoundOf(cands, subs);
            SubproblemResult(r.objValues[i], r.dualValues[i], r.cuts[i]) == EvaluateSubproblem(cands, subs[i].outcome) &&
            |r.objValues[i]| == |cands| && |r.dualValues[i]| == |cands| && |r.cuts[i]| == |cands|
  {
  }

  /** Every handle index below `n` occurs exactly once: the order in which the workers complete. */
  predicate IsPermutation(order: seq<nat>, n: nat)
  {
    |order| == n &&
    (forall k :: 0 <= k < n ==> order[k] < n) &&
    (forall i :: 0 <= i < n ==> i in order) &&
    (forall k, l :: 0 <= k < l < n ==> order[k] != order[l])
  }

  /** The duals every subproblem returned for candidate `k`. */
  function Column(dualValues: seq<seq<Option<map<VarId, real>>>>, k: nat): (col: DualColumn)
    requires forall i :: 0 <= i < |dualValues| ==> k < |dualValues[i]|
    ensures |col| == |dualValues| && forall i :: 0 <= i < |dualValues| ==> col[i] == dualValues[i][k]
  {
    seq(|dualValues|, i requires 0 <= i < |dualValues| => dualValues[i][k])
  }

  /** `avg_dual` of every candidate. */
  function AverageDuals(dualValues: seq<seq<Option<map<VarId, real>>>>, probability: seq<real>, keys: set<VarId>, n: nat)
    : (avgs: seq<map<VarId, real>>)
    requires |dualValues| == |probability| && forall i :: 0 <= i < |dualValues| ==> n <= |dualValues[i]|
    ensures |avgs| == n && forall k :: 0 <= k < n ==> avgs[k] == AverageDual(Column(dualValues, k), probability, keys)
  {
    seq(n, k requires 0 <= k < n => AverageDual(Column(dualValues, k), probability, keys))
  }

  /** Every dual map returned in the round is about root variables only. */
  predicate DualsKnown(dualValues: seq<seq<Option<map<VarId, real>>>>, keys: set<VarId>)
  {
    forall i, k :: 0 <= i < |dualValues| && 0 <= k < |dualValues[i]| && dualValues[i][k].Some? ==>
      dualValues[i][k].value.Keys <= keys
  }

  /** The serial branch: the subproblems evaluate the candidates one after the other. */
  method SolveSerially(cands: seq<Candidate>, subs: seq<PhSubproblem>, models: seq<SubproblemModel>)
    returns (results: seq<SubproblemResult>)
    requires |models| == |subs| && forall i :: 0 <= i < |models| ==> models[i].Standard()
    modifies models
    ensures forall i :: 0 <= i < |models| ==> models[i].Standard()
    ensures |results| == |subs| && forall i :: 0 <= i < |subs| ==> results[i] == EvaluateSubproblem(cands, subs[i].outcome)
  {
    results := [];
    for i := 0 to |subs|
      invariant forall j :: 0 <= j < |models| ==> models[j].Standard()
      invariant |results| == i && forall j :: 0 <= j < i ==> results[j] == EvaluateSubproblem(cands, subs[j].outcome)
    {
      var r := models[i].SolveFixedScenarioSolutions(cands, subs[i].outcome);
      results := results + [r];
    }
  }

  /**
   * The distributed branch: all subproblems are queued, the result slots are pre-sized,
   * and each worker's results go into its handle's slot as it completes, in the order
   * `completionOrder`. Every slot is written exactly once.
   */
  method SolveDistributed(cands: seq<Candidate>, subs: seq<PhSubproblem>, models: seq<SubproblemModel>,
                          completionOrder: seq<nat>)
    returns (results: seq<SubproblemResult>, ghost writes: seq<nat>)
    requires |models| == |subs| && forall i :: 0 <= i < |models| ==> models[i].Standard()
    requires IsPermutation(completionOrder, |subs|)
    modifies models
    ensures forall i :: 0 <= i < |models| ==> models[i].Standard()
    ensures |results| == |subs| && forall i :: 0 <= i < |subs| ==> results[i] == EvaluateSubproblem(cands, subs[i].outcome)
    ensures |writes| == |subs| && forall i :: 0 <= i < |subs| ==> writes[i] == 1
  {
    var n := |subs|;
    var slots: seq<Option<SubproblemResult>> := seq(n, _ => None);
    writes := seq(n, _ => 0);
    var done := 0;
    while done < n
      invariant 0 <= done <= n && |slots| == n && |writes| == n
      invariant forall j :: 0 <= j < |models| ==> models[j].Standard()
      invariant forall i :: 0 <= i < n ==>
                  (slots[i].Some? <==> i in completionOrder[..done]) &&
                  writes[i] == (if i in completionOrder[..done] then 1 else 0)
      invariant forall i :: 0 <= i < n && slots[i].Some? ==> slots[i].value == EvaluateSubproblem(cands, subs[i].outcome)
    {
      var id := completionOrder[done];
      assert id !in completionOrder[..done] by {
        forall k | 0 <= k < done ensures completionOrder[..done][k] != id {
          assert completionOrder[k] != completionOrder[done];
        }
      }
      var r := models[id].SolveFixedScenarioSolutions(cands, subs[id].outcome);
      slots := slots[id := Some(r)];
      writes := writes[id := writes[id] + 1];
      assert completionOrder[..done + 1] == completionOrder[..done] + [id];
      done := done + 1;
    }
    assert completionOrder[..n] == completionOrder;
    results := seq(n, i requires 0 <= i < n => slots[i].value);
  }

  /**
   * The unfixed root variables split into binary and integer ones; `None` as soon as
   * one of them is continuous (no optimality cuts are possible then).
   */
  method ClassifyRootVariables(rootVars: seq<RootVar>) returns (dv: Option<DiscreteVars>)
    ensures dv == ClassifyRootVars(rootVars)
  {
    var binary: seq<VarId> := [];
    var integer: seq<VarId> := [];
    for i := 0 to |rootVars|
      invariant ClassifyRootVars(rootVars[..i]) == Some(DiscreteVars(binary, integer))
    {
      assert rootVars[..i + 1][..i] == rootVars[..i];
      var rv := rootVars[i];
      if !rv.fixed {
        if rv.domain == BinaryDomain {
          binary := binary + [rv.id];
        } else if rv.domain == IntegerDomain {
          integer := integer + [rv.id];
        } else {
          ClassifyRootVarsCharacterised(rootVars[..i + 1]);
          ClassifyRootVarsCharacterised(rootVars);
          assert rootVars[..i + 1][i] == rootVars[i];
          return None;
        }
      }
    }
    assert rootVars[..|rootVars|] == rootVars;
    dv := Some(DiscreteVars(binary, integer));
  }

  /** A no-good cut for every feasible candidate other than the best, in candidate order. */
  method NoGoodCutsFor(objs: seq<Option<real>>, cands: seq<Candidate>, bestId: nat, dv: DiscreteVars)
    returns (cuts: seq<OptimalityCut>)
    requires |objs| == |cands|
    ensures cuts == NoGoodCuts(objs, cands, bestId, dv, |objs|)
  {
    cuts := [];
    for id := 0 to |objs|
      invariant cuts == NoGoodCuts(objs, cands, bestId, dv, id)
    {
      if objs[id].Some? && id != bestId {
        var x := cands[id].x;
        cuts := cuts + [OptimalityCut(Restrict(x, dv.binary), Restrict(x, dv.integer))];
      }
    }
  }

  /** The ownership test: whether one of the subproblem's scenarios reported the candidate. */
  method FindOwner(p: Subproblem, c: Candidate) returns (found: bool)
    ensures found <==> Owns(p, c)
  {
    found := false;
    var j := 0;
    while j < |p.scenarioNames|
      invariant 0 <= j <= |p.scenarioNames|
      invariant forall k :: 0 <= k < j ==> p.scenarioNames[k] !in c.owners
    {
      if p.scenarioNames[j] in c.owners {
        return true;
      }
      j := j + 1;
    }
  }

  /**
   * The cuts one subproblem receives: for every candidate it owns, the column's cuts
   * above the minimum difference; for every candidate no subproblem found feasible,
   * those above the cross-cut threshold.
   */
  method RouteCuts(p: Subproblem, cands: seq<Candidate>, feasibleObjectives: seq<Option<real>>,
                   library: seq<seq<CutEntry>>, minDiff: real, crossThreshold: real)
    returns (cuts: seq<CutEntry>)
    requires |feasibleObjectives| == |cands| && WellShaped(library, |cands|)
    ensures cuts == ProblemCuts(p, cands, feasibleObjectives, library, minDiff, crossThreshold, |cands|)
  {
    cuts := [];
    for id := 0 to |cands|
      invariant cuts == ProblemCuts(p, cands, feasibleObjectives, library, minDiff, crossThreshold, id)
    {
      ProblemCutsStep(p, cands, feasibleObjectives, library, minDiff, crossThreshold, id);
      var owned := FindOwner(p, cands[id]);
      if owned {
        cuts := cuts + CandidateColumnCuts(library, id, minDiff);
      } else if feasibleObjectives[id].None? {
        cuts := cuts + CandidateColumnCuts(library, id, crossThreshold);
      }
    }
  }

  /** The cuts routed to every subproblem, in subproblem order. */
  method RouteAll(problems: seq<Subproblem>, cands: seq<Candidate>, feasibleObjectives: seq<Option<real>>,
                  library: seq<seq<CutEntry>>, minDiff: real, crossThreshold: real)
    returns (routed: seq<seq<CutEntry>>)
    requires |feasibleObjectives| == |cands| && WellShaped(library, |cands|)
    ensures routed == RoutedCuts(problems, cands, feasibleObjectives, library, minDiff, crossThreshold)
  {
    routed := [];
    for pi := 0 to |problems|
      invariant |routed| == pi
      invariant forall i :: 0 <= i < pi ==>
                  routed[i] == ProblemCuts(problems[i], cands, feasibleObjectives, library, minDiff, crossThreshold, |cands|)
    {
      var cuts := RouteCuts(problems[pi], cands, feasibleObjectives, library, minDiff, crossThreshold);
      routed := routed + [cuts];
    }
  }

  /** The deliveries to every subproblem, skipping those with nothing to receive. */
  method BuildDeliveries(problems: seq<Subproblem>, routed: seq<seq<CutEntry>>, optimalityCuts: seq<OptimalityCut>)
    returns (deliveries: seq<CutDelivery>)
    requires |routed| == |problems|
    ensures deliveries == Deliveries(problems, routed, optimalityCuts, |problems|)
  {
    deliveries := [];
    for pi := 0 to |problems|
      invariant deliveries == Deliveries(problems, routed, optimalityCuts, pi)
    {
      if routed[pi] != [] || optimalityCuts != [] {
        deliveries := deliveries + [CutDelivery(problems[pi].name, routed[pi], optimalityCuts)];
      }
    }
  }

  /** `soln_prob`: the probability of every candidate, the sum over its owners. */
  method SumOwnerProbabilities(cands: seq<Candidate>, probability: map<ScenarioName, real>) returns (solnProb: seq<real>)
    requires OwnersKnown(cands, probability)
    ensures solnProb == SolutionProbabilities(cands, probability)
  {
    solnProb := [];
    for k := 0 to |cands|
      invariant |solnProb| == k
      invariant forall j :: 0 <= j < k ==> solnProb[j] == OwnerProbability(cands[j].owners, probability)
    {
      var owners := cands[k].owners;
      var total := 0.0;
      for i := 0 to |owners|
        invariant total == OwnerProbability(owners[..i], probability)
      {
        assert owners[..i + 1][..i] == owners[..i];
        total := total + probability[owners[i]];
      }
      assert owners[..|owners|] == owners;
      solnProb := solnProb + [total];
    }
  }

  /**
   * `avg_dual` of candidate `k`: the probability-weighted duals of the subproblems that
   * returned duals for it, divided by their total probability unless that is zero.
   */
  method AverageDualOf(dualValues: seq<seq<Option<map<VarId, real>>>>, probability: seq<real>, k: nat, keys: set<VarId>)
    returns (avg: map<VarId, real>)
    requires |dualValues| == |probability| && forall i :: 0 <= i < |dualValues| ==> k < |dualValues[i]|
    requires DualsKnown(dualValues, keys)
    ensures avg == AverageDual(Column(dualValues, k), probability, keys)
  {
    ghost var col := Column(dualValues, k);
    avg := map v | v in keys :: 0.0;
    var pTotal := 0.0;
    for i := 0 to |probability|
      invariant pTotal == PresentProbability(col, probability, i)
      invariant avg.Keys == keys
      invariant forall v :: v in keys ==> avg[v] == DualMass(col, probability, v, i)
    {
      var d := dualValues[i][k];
      if d.Some? {
        var duals, p := d.value, probability[i];
        assert duals.Keys <= keys;
        avg := map v | v in avg :: if v in duals then avg[v] + duals[v] * p else avg[v];
        pTotal := pTotal + p;
      }
    }
    if pTotal != 0.0 {
      avg := map v | v in avg :: avg[v] / pTotal;
    }
  }

  /** `avg_dual` of every candidate, in candidate order. */
  method AverageDualsOf(dualValues: seq<seq<Option<map<VarId, real>>>>, probability: seq<real>, keys: set<VarId>, n: nat)
    returns (avgs: seq<map<VarId, real>>)
    requires |dualValues| == |probability| && forall i :: 0 <= i < |dualValues| ==> n <= |dualValues[i]|
    requires DualsKnown(dualValues, keys)
    ensures avgs == AverageDuals(dualValues, probability, keys, n)
  {
    avgs := [];
    for k := 0 to n
      invariant |avgs| == k
      invariant forall j :: 0 <= j < k ==> avgs[j] == AverageDual(Column(dualValues, j), probability, keys)
    {
      var avg := AverageDualOf(dualValues, probability, k, keys);
      avgs := avgs + [avg];
    }
  }

  /**
   * `weighted_rho`: the absolute value, per root variable, of the probability-weighted
   * average duals divided by the variable's spread plus one.
   */
  method WeightedRhoOf(solnProb: seq<real>, avgs: seq<map<VarId, real>>, xDev: map<VarId, real>, keys: set<VarId>)
    returns (estimate: map<VarId, real>)
    requires |avgs| == |solnProb| && ValidDeviation(xDev, keys)
    requires forall k :: 0 <= k < |avgs| ==> avgs[k].Keys == keys
    ensures estimate == WeightedRho(solnProb, avgs, xDev, keys)
  {
    var weighted: map<VarId, real> := map v | v in keys :: 0.0;
    for k := 0 to |solnProb|
      invariant weighted == WeightedSums(solnProb, avgs, xDev, keys, k)
    {
      weighted := AddCandidate(weighted, solnProb[k], avgs[k], xDev);
    }
    estimate := map v | v in keys :: Abs(weighted[v]);
  }

  class Plugin {
    // Tuning constants, set once when the plugin is created.
    const epsilon: real
    const convergenceRelativeDegradation: real
    const convergenceAbsoluteDegradation: real
    const iterationInterval: int
    const rhoScale: real
    const rhoDamping: real
    const cutThresholdMinDiff: real
    const cutThresholdCrossCut: real
    const recutThreshold: real
    const recutBoundImprovement: real

    var incumbent: Option<Incumbent>
    var rho: Option<map<VarId, real>>
    var xDeviation: Option<map<VarId, real>>
    var lastConvergenceMetric: Option<real>
    var feasibilityCuts: seq<seq<CutEntry>>       // the cut lists of the last round, per subproblem
    var optimalityCuts: seq<OptimalityCut>
    var lastRun: int
    var uniqueScenarioSolutions: seq<Candidate>
    var feasibleObjectives: seq<Option<real>>
    var senseToMin: Sense

    /** The state between two PH hooks. */
    predicate Valid()
      reads this
    {
      WellShaped(feasibilityCuts, |uniqueScenarioSolutions|) &&
      |feasibleObjectives| == |uniqueScenarioSolutions| &&
      rhoScale >= 0.0 && 0.0 <= rhoDamping <= 1.0 &&
      (xDeviation.Some? ==> forall v :: v in xDeviation.value ==> xDeviation.value[v] >= 0.0) &&
      (rho.Some? ==> forall v :: v in rho.value ==> rho.value[v] >= 0.0)
    }

    /** The plugin as created, already in the state `Reset` leaves. */
    constructor ()
      ensures Valid()
      ensures epsilon == 0.0 && convergenceRelativeDegradation == 0.33 && convergenceAbsoluteDegradation == 0.001
      ensures iterationInterval == 10 && rhoScale == 0.75 && rhoDamping == 0.2
      ensures cutThresholdMinDiff == 0.10 && cutThresholdCrossCut == 1.0
      ensures recutThreshold == 0.33 && recutBoundImprovement == 0.005
      ensures incumbent == None && rho == None && xDeviation == None && lastConvergenceMetric == None
      ensures feasibilityCuts == [] && optimalityCuts == [] && lastRun == 0
      ensures uniqueScenarioSolutions == [] && feasibleObjectives == [] && senseToMin == Minimize
    {
      epsilon := 0.0;
      convergenceRelativeDegradation := 0.33;
      convergenceAbsoluteDegradation := 0.001;
      iterationInterval := 10;
      rhoScale := 0.75;
      rhoDamping := 0.2;
      cutThresholdMinDiff := 0.10;
      cutThresholdCrossCut := 1.0;
      recutThreshold := 0.33;
      recutBoundImprovement := 0.005;
      incumbent, rho, xDeviation, lastConvergenceMetric := None, None, None, None;
      feasibilityCuts, optimalityCuts, lastRun := [], [], 0;
      uniqueScenarioSolutions, feasibleObjectives, senseToMin := [], [], Minimize;
    }

    /** reset: forget incumbent, rho, spreads, convergence metric, both cut accumulators and the last run. */
    method Reset()
      requires Valid()
      modifies this
      ensures Valid()
      ensures incumbent == None && rho == None && xDeviation == None && lastConvergenceMetric == None
      ensures feasibilityCuts == [] && optimalityCuts == [] && lastRun == 0
      ensures uniqueScenarioSolutions == old(uniqueScenarioSolutions) && feasibleObjectives == old(feasibleObjectives)
      ensures senseToMin == old(senseToMin)
    {
      incumbent := None;
      rho := None;
      xDeviation := None;
      lastConvergenceMetric := None;
      feasibilityCuts := [];
      optimalityCuts := [];
      lastRun := 0;
    }

    /**
     * post_ph_initialization: only two-stage trees are accepted; records the objective
     * sense and returns the rho PH must set (zero for every root variable).
     */
    method PostPhInitialization(numStages: nat, minimize: bool, xbarKeys: set<VarId>)
      returns (r: Result<map<VarId, real>, string>)
      requires Valid()
      modifies this`senseToMin
      ensures Valid()
      ensures numStages > 2 ==> r.Err? && senseToMin == old(senseToMin)
      ensures numStages <= 2 ==> r == Ok(map v | v in xbarKeys :: 0.0) && senseToMin == if minimize then Minimize else Maximize
    {
      if numStages > 2 {
        return Err("InterScenario plugin only works with 2-stage problems");
      }
      senseToMin := if minimize then Minimize else Maximize;
      r := Ok(map v | v in xbarKeys :: 0.0);
    }

    /** _collect_unique_scenario_solutions */
    method CollectUniqueScenarioSolutions(scenarios: seq<ScenarioSolution>)
      modifies this`uniqueScenarioSolutions
      ensures uniqueScenarioSolutions == Collected(scenarios)
    {
      uniqueScenarioSolutions := [];
      for i := 0 to |scenarios|
        invariant uniqueScenarioSolutions == Collected(scenarios[..i])
      {
        var s := scenarios[i];
        assert scenarios[..i + 1][..i] == scenarios[..i];
        var u := uniqueScenarioSolutions;
        var j := 0;
        while j < |u| && u[j].x != s.x
          invariant 0 <= j <= |u|
          invariant forall k :: 0 <= k < j ==> u[k].x != s.x
        {
          j := j + 1;
        }
        if j < |u| {
          assert IndexOfVector(u, s.x) == Some(j);
          uniqueScenarioSolutions := u[j := u[j].(owners := u[j].owners + [s.name])];
        } else {
          assert IndexOfVector(u, s.x) == None;
          uniqueScenarioSolutions := u + [Candidate(s.x, [s.name])];
        }
      }
      assert scenarios[..|scenarios|] == scenarios;
    }

    /**
     * _solve_interscenario_solutions: every subproblem evaluates every candidate.
     * Serially the results are appended in subproblem order; in the distributed branch
     * the slots are pre-sized and filled by handle index as the workers complete, in
     * the order `completionOrder`. Either way slot `i` holds subproblem `i`'s results,
     * and in the distributed branch every slot is written exactly once.
     */
    method SolveInterscenarioSolutions(subs: seq<PhSubproblem>, models: seq<SubproblemModel>,
                                       distributed: bool, completionOrder: seq<nat>)
      returns (res: RoundResults, ghost writes: seq<nat>)
      requires |models| == |subs| && forall i :: 0 <= i < |models| ==> models[i].Standard()
      requires distributed ==> IsPermutation(completionOrder, |subs|)
      modifies models
      ensures res == RoundOf(uniqueScenarioSolutions, subs)
      ensures forall i :: 0 <= i < |models| ==> models[i].Standard()
      ensures distributed ==> |writes| == |subs| && forall i :: 0 <= i < |subs| ==> writes[i] == 1
    {
      var cands := uniqueScenarioSolutions;
      var n := |subs|;
      var results: seq<SubproblemResult>;
      if distributed {
        results, writes := SolveDistributed(cands, subs, models, completionOrder);
      } else {
        results := SolveSerially(cands, subs, models);
        writes := [];
      }
      res := RoundResults(seq(n, i requires 0 <= i < n => results[i].objValues),
                          seq(n, i requires 0 <= i < n => results[i].dualValues),
                          seq(n, i requires 0 <= i < n => results[i].cutList),
                          Probabilities(subs));
      ghost var round := RoundOf(cands, subs);
      forall i | 0 <= i < n
        ensures res.objValues[i] == round.objValues[i] && res.dualValues[i] == round.dualValues[i] && res.cuts[i] == round.cuts[i]
      {
        RoundOfAt(cands, subs, i);
      }
    }

    /**
     * _compute_objective: for every candidate the probability-weighted sum of the
     * subproblem objectives, abandoned at the first missing one.
     */
    method ComputeObjective(partials: seq<seq<Option<real>>>, probability: seq<real>) returns (objs: seq<Option<real>>)
      requires |partials| == |probability|
      requires forall i :: 0 <= i < |partials| ==> |partials[i]| == |uniqueScenarioSolutions|
      ensures |objs| == |uniqueScenarioSolutions|
      ensures forall k :: 0 <= k < |objs| ==> objs[k] == ExpectedObjective(partials, probability, k, |probability|)
    {
      objs := [];
      for k := 0 to |uniqueScenarioSolutions|
        invariant |objs| == k
        invariant forall j :: 0 <= j < k ==> objs[j] == ExpectedObjective(partials, probability, j, |probability|)
      {
        var obj: Option<real> := Some(0.0);
        for i := 0 to |probability|
          invariant obj.Some? && obj == ExpectedObjective(partials, probability, k, i)
        {
          if partials[i][k].None? {
            ExpectedObjectiveCharacterised(partials, probability, k, |probability|);
            obj := None;
            break;
          }
          ExpectedObjectiveStep(partials, probability, k, i);
          obj := Some(obj.value + probability[i] * partials[i][k].value);
        }
        assert obj == ExpectedObjective(partials, probability, k, |probability|);
        objs := objs + [obj];
      }
    }

    /**
     * _update_incumbent: take the best feasible candidate as incumbent on strict
     * improvement, then (with two or more feasible candidates and only discrete
     * unfixed root variables) append a no-good cut for every other feasible candidate.
     */
    method UpdateIncumbent(rootVars: seq<RootVar>)
      requires |feasibleObjectives| == |uniqueScenarioSolutions|
      modifies this`incumbent, this`optimalityCuts
      ensures var out := IncumbentUpdate(old(incumbent), feasibleObjectives, uniqueScenarioSolutions, senseToMin, rootVars);
              incumbent == out.incumbent && optimalityCuts == old(optimalityCuts) + out.newCuts
    {
      var objs, cands, sense := feasibleObjectives, uniqueScenarioSolutions, senseToMin;
      ghost var before := incumbent;
      var best := BestFeasible(objs, sense);
      if best.None? {
        return;
      }
      var b := best.value;
      BestFeasibleIsFirstMinimum(objs, sense);
      assert b.id < |cands|;
      NextIncumbentOf(before, objs, cands, sense, b);
      if incumbent.None? || Adjust(sense, incumbent.value.objective) > b.adjusted {
        incumbent := Some(Incumbent(Adjust(sense, b.adjusted), cands[b.id], b.id));
        assert incumbent == NextIncumbent(before, objs, cands, sense);
      } else {
        assert incumbent == NextIncumbent(before, objs, cands, sense);
      }
      if FeasibleCount(objs) <= 1 {
        assert IncumbentUpdate(before, objs, cands, sense, rootVars) == IncumbentOutcome(incumbent, []);
        return;
      }
      var classified := ClassifyRootVariables(rootVars);
      if classified.None? {
        assert IncumbentUpdate(before, objs, cands, sense, rootVars) == IncumbentOutcome(incumbent, []);
        return;
      }
      var dv := classified.value;
      var cuts := NoGoodCutsFor(objs, cands, b.id, dv);
      optimalityCuts := optimalityCuts + cuts;
      assert IncumbentUpdate(before, objs, cands, sense, rootVars) ==
             IncumbentOutcome(incumbent, NoGoodCuts(objs, cands, b.id, dv, |objs|));
    }

    /**
     * _distribute_cuts: route the library to the subproblems and clear both
     * accumulators. The threshold lookup fails (an IndexError, before anything
     * changes) only for a cross-cut fraction above 1.
     */
    method DistributeCuts(problems: seq<Subproblem>) returns (r: Result<seq<CutDelivery>, string>)
      requires WellShaped(feasibilityCuts, |uniqueScenarioSolutions|)
      requires |feasibleObjectives| == |uniqueScenarioSolutions|
      modifies this`feasibilityCuts, this`optimalityCuts
      ensures var t := CrossCutThreshold(old(feasibilityCuts), cutThresholdMinDiff, cutThresholdCrossCut);
              t.None? ==> r.Err? && feasibilityCuts == old(feasibilityCuts) && optimalityCuts == old(optimalityCuts)
      ensures var t := CrossCutThreshold(old(feasibilityCuts), cutThresholdMinDiff, cutThresholdCrossCut);
              t.Some? ==>
                feasibilityCuts == [] && optimalityCuts == [] &&
                r == Ok(Deliveries(problems,
                                   RoutedCuts(problems, uniqueScenarioSolutions, feasibleObjectives, old(feasibilityCuts),
                                              cutThresholdMinDiff, t.value),
                                   old(optimalityCuts), |problems|))
    {
      var threshold := CrossCutThreshold(feasibilityCuts, cutThresholdMinDiff, cutThresholdCrossCut);
      if threshold.None? {
        return Err("IndexError: list index out of range");
      }
      var routed := RouteAll(problems, uniqueScenarioSolutions, feasibleObjectives, feasibilityCuts,
                             cutThresholdMinDiff, threshold.value);
      var deliveries := BuildDeliveries(problems, routed, optimalityCuts);
      feasibilityCuts := [];
      if optimalityCuts != [] {
        optimalityCuts := [];
      }
      r := Ok(deliveries);
    }

    /**
     * _process_dual_information: the rho estimate from the round's duals. The spread
     * of every root variable is computed on the first call only and kept afterwards.
     * (Each loop over a dict's items is one map update here: its per-key steps are
     * independent.)
     */
    method ProcessDualInformation(dualValues: seq<seq<Option<map<VarId, real>>>>, probability: seq<real>,
                                  scenarioProbability: map<ScenarioName, real>, xbarKeys: set<VarId>)
      returns (estimate: map<VarId, real>)
      requires |dualValues| == |probability|
      requires forall i :: 0 <= i < |dualValues| ==> |dualValues[i]| == |uniqueScenarioSolutions|
      requires DualsKnown(dualValues, xbarKeys)
      requires OwnersKnown(uniqueScenarioSolutions, scenarioProbability)
      requires xDeviation.None? ==> uniqueScenarioSolutions != [] && forall v :: v in xbarKeys ==> HasVar(uniqueScenarioSolutions, v)
      requires xDeviation.Some? ==> ValidDeviation(xDeviation.value, xbarKeys)
      modifies this`xDeviation
      ensures xDeviation == if old(xDeviation).None? then Some(XDeviation(uniqueScenarioSolutions, xbarKeys)) else old(xDeviation)
      ensures ValidDeviation(xDeviation.value, xbarKeys)
      ensures estimate == WeightedRho(SolutionProbabilities(uniqueScenarioSolutions, scenarioProbability),
                                      AverageDuals(dualValues, probability, xbarKeys, |uniqueScenarioSolutions|),
                                      xDeviation.value, xbarKeys)
      ensures estimate.Keys == xbarKeys && forall v :: v in estimate ==> estimate[v] >= 0.0
    {
      var cands := uniqueScenarioSolutions;
      var n := |cands|;
      var solnProb := SumOwnerProbabilities(cands, scenarioProbability);
      if xDeviation.None? {
        xDeviation := Some(XDeviation(cands, xbarKeys));
        XDeviationNonNegative(cands, xbarKeys);
      }
      var avgs := AverageDualsOf(dualValues, probability, xbarKeys, n);
      estimate := WeightedRhoOf(solnProb, avgs, xDeviation.value, xbarKeys);
      WeightedRhoSign(solnProb, avgs, xDeviation.value, xbarKeys);
    }

    /**
     * Steps (1) to (4) of a run: collect the candidates, evaluate them in every
     * subproblem, aggregate the objectives and keep the round's cut lists.
     */
    method EvaluateRound(ph: PhView, models: seq<SubproblemModel>, distributed: bool, completionOrder: seq<nat>)
      returns (res: RoundResults)
      requires |models| == |ph.subproblems| && forall i :: 0 <= i < |models| ==> models[i].Standard()
      requires distributed ==> IsPermutation(completionOrder, |ph.subproblems|)
      modifies this`uniqueScenarioSolutions, this`feasibleObjectives, this`feasibilityCuts, models
      ensures forall i :: 0 <= i < |models| ==> models[i].Standard()
      ensures uniqueScenarioSolutions == Collected(ph.rootScenarios)
      ensures res == RoundOf(uniqueScenarioSolutions, ph.subproblems)
      ensures feasibilityCuts == res.cuts && WellShaped(feasibilityCuts, |uniqueScenarioSolutions|)
      ensures |feasibleObjectives| == |uniqueScenarioSolutions|
      ensures forall k :: 0 <= k < |feasibleObjectives| ==>
                feasibleObjectives[k] == ExpectedObjective(res.objValues, res.probability, k, |ph.subproblems|)
      ensures forall i :: 0 <= i < |res.dualValues| ==> |res.dualValues[i]| == |uniqueScenarioSolutions|
    {
      CollectUniqueScenarioSolutions(ph.rootScenarios);
      ghost var writes;
      res, writes := SolveInterscenarioSolutions(ph.subproblems, models, distributed, completionOrder);
      forall i | 0 <= i < |ph.subproblems|
        ensures |res.objValues[i]| == |uniqueScenarioSolutions| && |res.cuts[i]| == |uniqueScenarioSolutions|
        ensures |res.dualValues[i]| == |uniqueScenarioSolutions|
      {
        RoundOfAt(uniqueScenarioSolutions, ph.subproblems, i);
      }
      feasibleObjectives := ComputeObjective(res.objValues, res.probability);
      feasibilityCuts := res.cuts;
    }

    /**
     * Step (7) of a run: the first estimate sets rho to the scaled estimate, later
     * ones move rho by the damping fraction towards it.
     */
    method UpdateRho(estimate: map<VarId, real>)
      requires Valid()
      requires rho.Some? ==> estimate.Keys <= rho.value.Keys
      requires forall v :: v in estimate ==> estimate[v] >= 0.0
      modifies this`rho
      ensures Valid()
      ensures rho == Some(UpdatedRho(old(rho), estimate, rhoScale, rhoDamping))
    {
      UpdatedRhoBetween(rho, estimate, rhoScale, rhoDamping);
      rho := Some(UpdatedRho(rho, estimate, rhoScale, rhoDamping));
    }

    /** Step (7) of a run: the rho estimate from the round's duals, folded into rho. */
    method RefreshRho(ph: PhView, res: RoundResults) returns (estimate: map<VarId, real>)
      requires Valid()
      requires |res.dualValues| == |res.probability|
      requires forall i :: 0 <= i < |res.dualValues| ==> |res.dualValues[i]| == |uniqueScenarioSolutions|
      requires DualsKnown(res.dualValues, ph.xbarKeys)
      requires OwnersKnown(uniqueScenarioSolutions, ph.scenarioProbability)
      requires uniqueScenarioSolutions != [] && forall v :: v in ph.xbarKeys ==> HasVar(uniqueScenarioSolutions, v)
      requires xDeviation.Some? ==> xDeviation.value.Keys <= ph.xbarKeys
      requires rho.Some? ==> ph.xbarKeys <= rho.value.Keys
      modifies this`xDeviation, this`rho
      ensures Valid() && rho.Some?
      ensures xDeviation == if old(xDeviation).None? then Some(XDeviation(uniqueScenarioSolutions, ph.xbarKeys)) else old(xDeviation)
      ensures estimate == WeightedRho(SolutionProbabilities(uniqueScenarioSolutions, ph.scenarioProbability),
                                      AverageDuals(res.dualValues, res.probability, ph.xbarKeys, |uniqueScenarioSolutions|),
                                      xDeviation.value, ph.xbarKeys)
      ensures forall v :: v in estimate ==> estimate[v] >= 0.0
      ensures rho == Some(UpdatedRho(old(rho), estimate, rhoScale, rhoDamping))
    {
      estimate := ProcessDualInformation(res.dualValues, res.probability, ph.scenarioProbability, ph.xbarKeys);
      UpdateRho(estimate);
    }

    /**
     * One run of the plugin (_interscenario_plugin): collect, evaluate, aggregate;
     * then either rewind `lastRun` for a recut (returning `None`, rho untouched) or
     * update rho and return the values PH must set.
     */
    method InterScenarioRun(ph: PhView, models: seq<SubproblemModel>, distributed: bool, completionOrder: seq<nat>,
                            boundImproved: bool)
      returns (rhoForPh: Option<map<VarId, real>>, ghost round: RoundResults)
      requires Valid()
      requires |models| == |ph.subproblems| && forall i :: 0 <= i < |models| ==> models[i].Standard()
      requires distributed ==> IsPermutation(completionOrder, |ph.subproblems|)
      requires ph.rootScenarios != [] && forall v, i :: v in ph.xbarKeys && 0 <= i < |ph.rootScenarios| ==> v in ph.rootScenarios[i].x
      requires forall i :: 0 <= i < |ph.rootScenarios| ==> ph.rootScenarios[i].name in ph.scenarioProbability
      requires forall i :: 0 <= i < |ph.subproblems| ==> ph.subproblems[i].probability >= 0.0
      requires forall i, x :: 0 <= i < |ph.subproblems| ==> (ph.subproblems[i].outcome(x).fixed.duals.Keys <= ph.xbarKeys)
      requires xDeviation.Some? ==> xDeviation.value.Keys <= ph.xbarKeys
      requires rho.Some? ==> ph.xbarKeys <= rho.value.Keys
      modifies this`uniqueScenarioSolutions, this`feasibleObjectives, this`feasibilityCuts, this`incumbent,
               this`optimalityCuts, this`lastRun, this`xDeviation, this`rho, models
      ensures Valid()
      ensures forall i :: 0 <= i < |models| ==> models[i].Standard()
      ensures uniqueScenarioSolutions == Collected(ph.rootScenarios)
      ensures round == RoundOf(uniqueScenarioSolutions, ph.subproblems)
      ensures feasibilityCuts == round.cuts
      ensures forall k :: 0 <= k < |feasibleObjectives| ==>
                feasibleObjectives[k] == ExpectedObjective(round.objValues, round.probability, k, |ph.subproblems|)
      ensures var out := IncumbentUpdate(old(incumbent), feasibleObjectives, uniqueScenarioSolutions, senseToMin, ph.rootVars);
              incumbent == out.incumbent && optimalityCuts == old(optimalityCuts) + out.newCuts
      ensures ShouldRecut(feasibilityCuts, cutThresholdMinDiff, recutThreshold, boundImproved) ==>
                rhoForPh.None? && lastRun == ph.iteration - iterationInterval && rho == old(rho)
      ensures !ShouldRecut(feasibilityCuts, cutThresholdMinDiff, recutThreshold, boundImproved) ==>
                lastRun == old(lastRun) && rho.Some? && rhoForPh == rho
    {
      var res := EvaluateRound(ph, models, distributed, completionOrder);
      round := res;
      CollectedVectorsAndOwners(ph.rootScenarios, ph.xbarKeys, ph.scenarioProbability);
      RoundDualsKnown(uniqueScenarioSolutions, ph.subproblems, ph.xbarKeys);
      rhoForPh := ConcludeRun(ph, res, boundImproved);
    }

    /**
     * Steps (5) to (7) of a run, once the round is evaluated: the incumbent and its
     * no-good cuts, then either the recut rewind or the rho update.
     */
    method ConcludeRun(ph: PhView, res: RoundResults, boundImproved: bool) returns (rhoForPh: Option<map<VarId, real>>)
      requires Valid()
      requires |res.dualValues| == |res.probability|
      requires forall i :: 0 <= i < |res.dualValues| ==> |res.dualValues[i]| == |uniqueScenarioSolutions|
      requires DualsKnown(res.dualValues, ph.xbarKeys)
      requires OwnersKnown(uniqueScenarioSolutions, ph.scenarioProbability)
      requires uniqueScenarioSolutions != [] && forall v :: v in ph.xbarKeys ==> HasVar(uniqueScenarioSolutions, v)
      requires xDeviation.Some? ==> xDeviation.value.Keys <= ph.xbarKeys
      requires rho.Some? ==> ph.xbarKeys <= rho.value.Keys
      modifies this`incumbent, this`optimalityCuts, this`lastRun, this`xDeviation, this`rho
      ensures Valid()
      ensures var out := IncumbentUpdate(old(incumbent), feasibleObjectives, uniqueScenarioSolutions, senseToMin, ph.rootVars);
              incumbent == out.incumbent && optimalityCuts == old(optimalityCuts) + out.newCuts
      ensures ShouldRecut(feasibilityCuts, cutThresholdMinDiff, recutThreshold, boundImproved) ==>
                rhoForPh.None? && lastRun == ph.iteration - iterationInterval && rho == old(rho)
      ensures !ShouldRecut(feasibilityCuts, cutThresholdMinDiff, recutThreshold, boundImproved) ==>
                lastRun == old(lastRun) && rho.Some? && rhoForPh == rho
    {
      UpdateIncumbent(ph.rootVars);
      if ShouldRecut(feasibilityCuts, cutThresholdMinDiff, recutThreshold, boundImproved) {
        lastRun := ph.iteration - iterationInterval;
        return None;
      }
      var estimate := RefreshRho(ph, res);
      rhoForPh := rho;
    }

    /**
     * post_iteration_k_solves: run when the convergence metric degraded by both
     * margins or `iterationInterval` iterations have passed since the last run; the
     * metric is recorded either way. `curr` is the convergence metric after this
     * iteration's solves.
     */
    method PostIterationKSolves(ph: PhView, curr: real, models: seq<SubproblemModel>, distributed: bool,
                                completionOrder: seq<nat>, boundImproved: bool)
      returns (rhoForPh: Option<map<VarId, real>>)
      requires Valid() && lastConvergenceMetric.Some?
      requires |models| == |ph.subproblems| && forall i :: 0 <= i < |models| ==> models[i].Standard()
      requires distributed ==> IsPermutation(completionOrder, |ph.subproblems|)
      requires ph.rootScenarios != [] && forall v, i :: v in ph.xbarKeys && 0 <= i < |ph.rootScenarios| ==> v in ph.rootScenarios[i].x
      requires forall i :: 0 <= i < |ph.rootScenarios| ==> ph.rootScenarios[i].name in ph.scenarioProbability
      requires forall i :: 0 <= i < |ph.subproblems| ==> ph.subproblems[i].probability >= 0.0
      requires forall i, x :: 0 <= i < |ph.subproblems| ==> (ph.subproblems[i].outcome(x).fixed.duals.Keys <= ph.xbarKeys)
      requires xDeviation.Some? ==> xDeviation.value.Keys <= ph.xbarKeys
      requires rho.Some? ==> ph.xbarKeys <= rho.value.Keys
      modifies this`uniqueScenarioSolutions, this`feasibleObjectives, this`feasibilityCuts, this`incumbent,
               this`optimalityCuts, this`lastRun, this`xDeviation, this`rho, this`lastConvergenceMetric, models
      ensures Valid()
      ensures lastConvergenceMetric == Some(curr)
      ensures var fire := ShouldRun(ph.iteration, old(lastRun), iterationInterval, curr, old(lastConvergenceMetric).value,
                                    convergenceRelativeDegradation, convergenceAbsoluteDegradation);
              !fire ==> rhoForPh.None? && lastRun == old(lastRun) && rho == old(rho) && incumbent == old(incumbent) &&
                        uniqueScenarioSolutions == old(uniqueScenarioSolutions) && feasibilityCuts == old(feasibilityCuts) &&
                        optimalityCuts == old(optimalityCuts) && xDeviation == old(xDeviation) &&
                        feasibleObjectives == old(feasibleObjectives)
      ensures var fire := ShouldRun(ph.iteration, old(lastRun), iterationInterval, curr, old(lastConvergenceMetric).value,
                                    convergenceRelativeDegradation, convergenceAbsoluteDegradation);
              fire ==> uniqueScenarioSolutions == Collected(ph.rootScenarios) &&
                       feasibilityCuts == RoundOf(uniqueScenarioSolutions, ph.subproblems).cuts &&
                       var out := IncumbentUpdate(old(incumbent), feasibleObjectives, uniqueScenarioSolutions, senseToMin, ph.rootVars);
                       incumbent == out.incumbent && optimalityCuts == old(optimalityCuts) + out.newCuts
      ensures var fire := ShouldRun(ph.iteration, old(lastRun), iterationInterval, curr, old(lastConvergenceMetric).value,
                                    convergenceRelativeDegradation, convergenceAbsoluteDegradation);
              fire && ShouldRecut(feasibilityCuts, cutThresholdMinDiff, recutThreshold, boundImproved) ==>
                rhoForPh.None? && lastRun == ph.iteration - iterationInterval && rho == old(rho)
      ensures var fire := ShouldRun(ph.iteration, old(lastRun), iterationInterval, curr, old(lastConvergenceMetric).value,
                                    convergenceRelativeDegradation, convergenceAbsoluteDegradation);
              fire && !ShouldRecut(feasibilityCuts, cutThresholdMinDiff, recutThreshold, boundImproved) ==>
                lastRun == ph.iteration && rho.Some? && rhoForPh == rho
    {
      var last := lastConvergenceMetric.value;
      rhoForPh := None;
      if ShouldRun(ph.iteration, lastRun, iterationInterval, curr, last,
                   convergenceRelativeDegradation, convergenceAbsoluteDegradation) {
        lastRun := ph.iteration;
        ghost var round;
        rhoForPh, round := InterScenarioRun(ph, models, distributed, completionOrder, boundImproved);
      }
      lastConvergenceMetric := Some(curr);
    }

    /** post_iteration_0: record the convergence metric after iteration 0. */
    method PostIteration0(curr: real)
      modifies this`lastConvergenceMetric
      ensures lastConvergenceMetric == Some(curr)
    {
      lastConvergenceMetric := Some(curr);
    }

    /** pre_iteration_k_solves: distribute the accumulated cuts, if there are any. */
    method PreIterationKSolves(problems: seq<Subproblem>) returns (r: Result<seq<CutDelivery>, string>)
      requires Valid()
      modifies this`feasibilityCuts, this`optimalityCuts
      ensures Valid()
      ensures old(feasibilityCuts) == [] && old(optimalityCuts) == [] ==>
                r == Ok([]) && feasibilityCuts == [] && optimalityCuts == []
      ensures r.Ok? ==> feasibilityCuts == [] && optimalityCuts == []
      ensures r.Err? ==> feasibilityCuts == old(feasibilityCuts) && optimalityCuts == old(optimalityCuts)
      ensures var t := CrossCutThreshold(old(feasibilityCuts), cutThresholdMinDiff, cutThresholdCrossCut);
              (old(feasibilityCuts) != [] || old(optimalityCuts) != []) ==>
                (t.None? ==> r.Err?) &&
                (t.Some? ==> r == Ok(Deliveries(problems,
                                                RoutedCuts(problems, uniqueScenarioSolutions, feasibleObjectives,
                                                           old(feasibilityCuts), cutThresholdMinDiff, t.value),
                                                old(optimalityCuts), |problems|)))
    {
      if feasibilityCuts != [] || optimalityCuts != [] {
        r := DistributeCuts(problems);
      } else {
        r := Ok([]);
      }
    }
  }

  /** The registry built from the root scenarios keeps every xbar variable and every owner's probability. */
  lemma CollectedVectorsAndOwners(sc: seq<ScenarioSolution>, keys: set<VarId>, probability: map<ScenarioName, real>)
    requires sc != [] && forall v, i :: v in keys && 0 <= i < |sc| ==> v in sc[i].x
    requires forall i :: 0 <= i < |sc| ==> sc[i].name in probability
    ensures Collected(sc) != []
    ensures forall v :: v in keys ==> HasVar(Collected(sc), v)
    ensures OwnersKnown(Collected(sc), probability)
  {
    var cands := Collected(sc);
    CollectedVectorsAreScenarioVectors(sc, sc[0].x);
    assert ScenarioVectors(sc)[0] == sc[0].x;
    forall v, k | v in keys && 0 <= k < |cands| ensures v in cands[k].x {
      assert CandidateVectors(cands)[k] == cands[k].x;
      CollectedVectorsAreScenarioVectors(sc, cands[k].x);
      var i :| 0 <= i < |sc| && ScenarioVectors(sc)[i] == cands[k].x;
    }
    forall k, i | 0 <= k < |cands| && 0 <= i < |cands[k].owners| ensures cands[k].owners[i] in probability {
      CollectedOwners(sc, k);
      OwnerNamesAreScenarioNames(sc, cands[k].x, cands[k].owners[i]);
    }
  }

  lemma {:induction false} OwnerNamesAreScenarioNames(sc: seq<ScenarioSolution>, x: Vector, name: ScenarioName)
    requires name in OwnersOf(sc, x)
    ensures exists i :: 0 <= i < |sc| && sc[i].name == name
    decreases |sc|
  {
    var init := sc[..|sc| - 1];
    if name in OwnersOf(init, x) {
      OwnerNamesAreScenarioNames(init, x, name);
      var i :| 0 <= i < |init| && init[i].name == name;
      assert sc[i].name == name;
    }
  }

  /**
   * The corrected ownership test means what routing needs: a subproblem owns a
   * collected solution exactly when one of its scenarios has that solution's vector.
   */
  lemma OwnsMeansSameSolution(p: Subproblem, sc: seq<ScenarioSolution>, k: nat)
    requires k < |Collected(sc)| && DistinctNames(sc)
    ensures Owns(p, Collected(sc)[k]) <==>
              exists i :: 0 <= i < |sc| && sc[i].name in p.scenarioNames && sc[i].x == Collected(sc)[k].x
  {
    var c := Collected(sc)[k];
    CollectedOwners(sc, k);
    if Owns(p, c) {
      var j :| 0 <= j < |p.scenarioNames| && p.scenarioNames[j] in c.owners;
      OwnerNamesAreScenarioNames(sc, c.x, p.scenarioNames[j]);
      var i :| 0 <= i < |sc| && sc[i].name == p.scenarioNames[j];
      InOwnersOf(sc, c.x, i);
    }
    if i :| 0 <= i < |sc| && sc[i].name in p.scenarioNames && sc[i].x == c.x {
      InOwnersOf(sc, c.x, i);
      var j :| 0 <= j < |p.scenarioNames| && p.scenarioNames[j] == sc[i].name;
      assert p.scenarioNames[j] in c.owners;
    }
  }

  /** The duals of a round are about xbar variables when every fixed solve's duals are. */
  lemma RoundDualsKnown(cands: seq<Candidate>, subs: seq<PhSubproblem>, keys: set<VarId>)
    requires forall i, x :: 0 <= i < |subs| ==> (subs[i].outcome(x).fixed.duals.Keys <= keys)
    ensures DualsKnown(RoundOf(cands, subs).dualValues, keys)
  {
    var duals: seq<seq<Option<map<VarId, real>>>> := RoundOf(cands, subs).dualValues;
    forall i, k | 0 <= i < |duals| && 0 <= k < |duals[i]| && duals[i][k].Some?
      ensures duals[i][k].value.Keys <= keys
    {
      RoundOfAt(cands, subs, i);
      EvaluateSubproblemAt(cands, subs[i].outcome, k);
    }
  }
}
