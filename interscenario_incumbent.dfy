/**
 * The expected objective of every candidate, the incumbent it feeds and the no-good
 * (optimality) cuts emitted against the dominated candidates.
 *
 * Objectives are compared in sense-adjusted terms (`Adjust`): multiplied by 1 for a
 * minimisation and by -1 for a maximisation, so that smaller is always better.
 */
module InterScenarioIncumbent {
  import opened Wrappers
  import opened InterScenarioRegistry

  /** Plain sum of a sequence of reals, from the left. */
  function Sum(s: seq<real>): real
    decreases |s|
  {
    if s == [] then 0.0 else Sum(s[..|s| - 1]) + s[|s| - 1]
  }

  /** Every subproblem reported an objective for candidate `soln`. */
  predicate AllReported(partials: seq<seq<Option<real>>>, soln: nat)
  {
    forall i :: 0 <= i < |partials| ==> soln < |partials[i]| && partials[i][soln].Some?
  }

  /**
   * The expected objective of candidate `soln` over the first `n` subproblems: the
   * probability-weighted sum of their partial objectives, or `None` as soon as one
   * of them is missing.
   */
  function ExpectedObjective(partials: seq<seq<Option<real>>>, probability: seq<real>, soln: nat, n: nat): Option<real>
    requires n <= |partials| && n <= |probability|
    requires forall i :: 0 <= i < |partials| ==> soln < |partials[i]|
    decreases n
  {
    if n == 0 then Some(0.0)
    else match ExpectedObjective(partials, probability, soln, n - 1)
      case None => None
      case Some(acc) =>
        match partials[n - 1][soln]
        case None => None
        case Some(o) => Some(acc + probability[n - 1] * o)
  }

  /** One step of the sum: a missing objective makes the expected objective missing. */
  lemma ExpectedObjectiveStep(partials: seq<seq<Option<real>>>, probability: seq<real>, soln: nat, n: nat)
    requires n < |partials| && n < |probability|
    requires forall i :: 0 <= i < |partials| ==> soln < |partials[i]|
    ensures ExpectedObjective(partials, probability, soln, n + 1) ==
            match ExpectedObjective(partials, probability, soln, n)
            case None => None
            case Some(acc) => if partials[n][soln].None? then None else Some(acc + probability[n] * partials[n][soln].value)
  {
  }

  /** The weighted terms `probability[i] * partial[i][soln]` of a fully reported candidate. */
  function WeightedTerms(partials: seq<seq<Option<real>>>, probability: seq<real>, soln: nat, n: nat): (t: seq<real>)
    requires n <= |partials| && n <= |probability| && AllReported(partials, soln)
    ensures |t| == n
  {
    seq(n, i requires 0 <= i < n => probability[i] * partials[i][soln].value)
  }

  /**
   * The expected objective is `None` exactly when some subproblem has no objective
   * for the candidate, and otherwise the probability-weighted sum of the partials.
   */
  lemma {:induction false} ExpectedObjectiveCharacterised(partials: seq<seq<Option<real>>>, probability: seq<real>,
                                                          soln: nat, n: nat)
    requires n <= |partials| && n <= |probability|
    requires forall i :: 0 <= i < |partials| ==> soln < |partials[i]|
    ensures ExpectedObjective(partials, probability, soln, n).None? <==>
            exists i :: 0 <= i < n && partials[i][soln].None?
    ensures AllReported(partials, soln) ==>
            ExpectedObjective(partials, probability, soln, n) == Some(Sum(WeightedTerms(partials, probability, soln, n)))
    decreases n
  {
    if n > 0 {
      ExpectedObjectiveCharacterised(partials, probability, soln, n - 1);
      if AllReported(partials, soln) {
        var t := WeightedTerms(partials, probability, soln, n);
        assert t[..n - 1] == WeightedTerms(partials, probability, soln, n - 1);
        assert Sum(t) == Sum(t[..n - 1]) + probability[n - 1] * partials[n - 1][soln].value;
      }
    }
  }

  /** The kept incumbent: its objective, the candidate and the candidate's index in that round. */
  datatype Incumbent = Incumbent(objective: real, solution: Candidate, index: nat)

  /** The best feasible candidate of a round and its sense-adjusted objective. */
  datatype Best = Best(id: nat, adjusted: real)

  /** The objective sense; `_sense_to_min` is 1 for `Minimize` and -1 for `Maximize`. */
  datatype Sense = Minimize | Maximize

  /** An objective multiplied by `_sense_to_min`: smaller is better whatever the sense. */
  function Adjust(sense: Sense, v: real): real
  {
    if sense == Minimize then v else -v
  }

  /**
   * `min` over the feasible candidates keyed by the sense-adjusted objective: the
   * first minimum wins, since a later one replaces it only when strictly smaller.
   */
  function BestFeasible(objs: seq<Option<real>>, sense: Sense): Option<Best>
    decreases |objs|
  {
    if objs == [] then None
    else Consider(BestFeasible(objs[..|objs| - 1], sense), objs[|objs| - 1], |objs| - 1, sense)
  }

  /** One step of the scan: candidate `id` replaces the best so far only when strictly better. */
  function Consider(prev: Option<Best>, obj: Option<real>, id: nat, sense: Sense): Option<Best>
  {
    if obj.None? then prev
    else if prev.None? || Adjust(sense, obj.value) < prev.value.adjusted then Some(Best(id, Adjust(sense, obj.value)))
    else prev
  }

  /** `BestFeasible` is `None` iff no candidate is feasible. */
  lemma {:induction false} BestFeasibleNone(objs: seq<Option<real>>, sense: Sense)
    ensures BestFeasible(objs, sense).None? <==> forall j :: 0 <= j < |objs| ==> objs[j].None?
    decreases |objs|
  {
    if objs != [] {
      var init := objs[..|objs| - 1];
      BestFeasibleNone(init, sense);
      assert forall j :: 0 <= j < |init| ==> init[j] == objs[j];
    }
  }

  /**
   * A found best is a feasible candidate whose adjusted objective is minimal, and
   * every feasible candidate before it is strictly worse (ties go to the lowest index).
   */
  lemma {:induction false} BestFeasibleIsFirstMinimum(objs: seq<Option<real>>, sense: Sense)
    requires BestFeasible(objs, sense).Some?
    ensures var b := BestFeasible(objs, sense).value;
            b.id < |objs| && objs[b.id].Some? && b.adjusted == Adjust(sense, objs[b.id].value) &&
            (forall j :: 0 <= j < |objs| && objs[j].Some? ==> b.adjusted <= Adjust(sense, objs[j].value)) &&
            (forall j :: 0 <= j < b.id && objs[j].Some? ==> b.adjusted < Adjust(sense, objs[j].value))
    decreases |objs|
  {
    var init, last := objs[..|objs| - 1], objs[|objs| - 1];
    var prev := BestFeasible(init, sense);
    assert BestFeasible(objs, sense) == Consider(prev, last, |objs| - 1, sense);
    assert forall j :: 0 <= j < |init| ==> init[j] == objs[j];
    if prev.None? {
      BestFeasibleNone(init, sense);
      assert forall j :: 0 <= j < |init| ==> objs[j].None?;
    } else {
      BestFeasibleIsFirstMinimum(init, sense);
      var p := prev.value;
      if last.Some? && Adjust(sense, last.value) < p.adjusted {
        var a := Adjust(sense, last.value);
        assert BestFeasible(objs, sense) == Some(Best(|objs| - 1, a));
        forall j | 0 <= j < |objs| - 1 && objs[j].Some?
          ensures a < Adjust(sense, objs[j].value)
        {
          assert init[j].Some? && p.adjusted <= Adjust(sense, init[j].value);
        }
      } else {
        assert BestFeasible(objs, sense) == prev;
        assert last.Some? ==> p.adjusted <= Adjust(sense, last.value);
      }
    }
  }

  /**
   * One incumbent update: the round's best replaces the incumbent when there is no
   * incumbent yet or the incumbent is strictly worse; the stored objective is the
   * adjusted value multiplied back by the sense.
   */
  function NextIncumbent(inc: Option<Incumbent>, objs: seq<Option<real>>, cands: seq<Candidate>, sense: Sense): Option<Incumbent>
    requires |objs| == |cands|
  {
    match BestFeasible(objs, sense)
    case None => inc
    case Some(b) =>
      if b.id < |cands| && (inc.None? || Adjust(sense, inc.value.objective) > b.adjusted) then
        Some(Incumbent(Adjust(sense, b.adjusted), cands[b.id], b.id))
      else inc
  }

  /** The incumbent update once the round's best `b` is known. */
  lemma NextIncumbentOf(inc: Option<Incumbent>, objs: seq<Option<real>>, cands: seq<Candidate>, sense: Sense, b: Best)
    requires |objs| == |cands| && BestFeasible(objs, sense) == Some(b) && b.id < |cands|
    ensures NextIncumbent(inc, objs, cands, sense) ==
              if inc.None? || Adjust(sense, inc.value.objective) > b.adjusted then Some(Incumbent(Adjust(sense, b.adjusted), cands[b.id], b.id))
              else inc
  {
    var r := NextIncumbent(inc, objs, cands, sense);
    if inc.None? || Adjust(sense, inc.value.objective) > b.adjusted {
      assert r.Some? && r.value.objective == Adjust(sense, b.adjusted);
      assert r.value.solution == cands[b.id] && r.value.index == b.id;
    }
  }

  /**
   * The incumbent rule. A round without feasible candidates changes nothing; a
   * change happens only on strict improvement and brings in the round's lowest-index
   * best candidate with its own objective; the adjusted incumbent value never
   * increases; and a kept incumbent is no worse than any feasible candidate of the round.
   */
  lemma {:induction false} NextIncumbentCorrect(inc: Option<Incumbent>, objs: seq<Option<real>>, cands: seq<Candidate>, sense: Sense)
    requires |objs| == |cands|
    ensures (forall j :: 0 <= j < |objs| ==> objs[j].None?) ==> NextIncumbent(inc, objs, cands, sense) == inc
    ensures var r := NextIncumbent(inc, objs, cands, sense);
            r != inc ==>
              r.Some? && (inc.None? || Adjust(sense, r.value.objective) < Adjust(sense, inc.value.objective)) &&
              r.value.index < |objs| && objs[r.value.index] == Some(r.value.objective) &&
              r.value.solution == cands[r.value.index] &&
              (forall j :: 0 <= j < r.value.index && objs[j].Some? ==> Adjust(sense, r.value.objective) < Adjust(sense, objs[j].value))
    ensures var r := NextIncumbent(inc, objs, cands, sense);
            inc.Some? ==> r.Some? && Adjust(sense, r.value.objective) <= Adjust(sense, inc.value.objective)
    ensures var r := NextIncumbent(inc, objs, cands, sense);
            (exists j :: 0 <= j < |objs| && objs[j].Some?) ==>
              r.Some? && forall j :: 0 <= j < |objs| && objs[j].Some? ==> Adjust(sense, r.value.objective) <= Adjust(sense, objs[j].value)
  {
    BestFeasibleNone(objs, sense);
    match BestFeasible(objs, sense)
    case None =>
    case Some(b) =>
      BestFeasibleIsFirstMinimum(objs, sense);
  }

  /** The objectives and candidates of one plugin round. */
  datatype Round = Round(objs: seq<Option<real>>, cands: seq<Candidate>)

  predicate WellFormedRounds(rounds: seq<Round>)
  {
    forall k :: 0 <= k < |rounds| ==> |rounds[k].objs| == |rounds[k].cands|
  }

  /** The incumbent after a sequence of rounds. */
  function IncumbentAfter(inc: Option<Incumbent>, rounds: seq<Round>, sense: Sense): Option<Incumbent>
    requires WellFormedRounds(rounds)
    decreases |rounds|
  {
    if rounds == [] then inc
    else
      var last := rounds[|rounds| - 1];
      NextIncumbent(IncumbentAfter(inc, rounds[..|rounds| - 1], sense), last.objs, last.cands, sense)
  }

  /**
   * Over any sequence of rounds the incumbent is no worse than its starting value
   * and than every feasible objective any round produced.
   */
  lemma {:induction false} IncumbentAfterIsBestSeen(inc: Option<Incumbent>, rounds: seq<Round>, sense: Sense)
    requires WellFormedRounds(rounds)
    ensures var r := IncumbentAfter(inc, rounds, sense);
            inc.Some? ==> r.Some? && Adjust(sense, r.value.objective) <= Adjust(sense, inc.value.objective)
    ensures var r := IncumbentAfter(inc, rounds, sense);
            forall k, j :: 0 <= k < |rounds| && 0 <= j < |rounds[k].objs| && rounds[k].objs[j].Some? ==>
              r.Some? && Adjust(sense, r.value.objective) <= Adjust(sense, rounds[k].objs[j].value)
    decreases |rounds|
  {
    if rounds != [] {
      var init, last := rounds[..|rounds| - 1], rounds[|rounds| - 1];
      assert WellFormedRounds(init) by {
        assert forall k :: 0 <= k < |init| ==> init[k] == rounds[k];
      }
      var prev := IncumbentAfter(inc, init, sense);
      IncumbentAfterIsBestSeen(inc, init, sense);
      NextIncumbentCorrect(prev, last.objs, last.cands, sense);
      var r := IncumbentAfter(inc, rounds, sense);
      forall k, j | 0 <= k < |rounds| && 0 <= j < |rounds[k].objs| && rounds[k].objs[j].Some?
        ensures r.Some? && Adjust(sense, r.value.objective) <= Adjust(sense, rounds[k].objs[j].value)
      {
        if k < |init| {
          assert init[k] == rounds[k];
        } else {
          assert exists j' :: 0 <= j' < |last.objs| && last.objs[j'].Some?;
        }
      }
    }
  }

  /** Number of feasible candidates. */
  function FeasibleCount(objs: seq<Option<real>>): (n: nat)
    ensures n <= |objs|
    decreases |objs|
  {
    if objs == [] then 0
    else FeasibleCount(objs[..|objs| - 1]) + (if objs[|objs| - 1].Some? then 1 else 0)
  }

  lemma {:induction false} FeasibleCountZero(objs: seq<Option<real>>)
    ensures FeasibleCount(objs) == 0 <==> forall j :: 0 <= j < |objs| ==> objs[j].None?
    decreases |objs|
  {
    if objs != [] {
      FeasibleCountZero(objs[..|objs| - 1]);
      assert forall j :: 0 <= j < |objs| - 1 ==> objs[..|objs| - 1][j] == objs[j];
    }
  }

  /** Domains of the first-stage variables, as far as no-good cuts care. */
  datatype Domain = BinaryDomain | IntegerDomain | ContinuousDomain

  datatype RootVar = RootVar(id: VarId, domain: Domain, fixed: bool)

  /** The unfixed discrete root variables, split by domain, in root-node order. */
  datatype DiscreteVars = DiscreteVars(binary: seq<VarId>, integer: seq<VarId>)

  /** Classify the unfixed root variables; `None` when one of them is continuous. */
  function ClassifyRootVars(vars: seq<RootVar>): Option<DiscreteVars>
    decreases |vars|
  {
    if vars == [] then Some(DiscreteVars([], []))
    else
      var last := vars[|vars| - 1];
      match ClassifyRootVars(vars[..|vars| - 1])
      case None => None
      case Some(dv) =>
        if last.fixed then Some(dv)
        else if last.domain == BinaryDomain then Some(dv.(binary := dv.binary + [last.id]))
        else if last.domain == IntegerDomain then Some(dv.(integer := dv.integer + [last.id]))
        else None
  }

  /**
   * The classification fails exactly when an unfixed variable is continuous, and
   * otherwise lists exactly the unfixed binary and the unfixed integer variables.
   */
  lemma {:induction false} ClassifyRootVarsCharacterised(vars: seq<RootVar>)
    ensures ClassifyRootVars(vars).None? <==>
            exists i :: 0 <= i < |vars| && !vars[i].fixed && vars[i].domain == ContinuousDomain
    ensures ClassifyRootVars(vars).Some? ==>
              (forall id :: id in ClassifyRootVars(vars).value.binary <==>
                 exists i :: 0 <= i < |vars| && vars[i].id == id && !vars[i].fixed && vars[i].domain == BinaryDomain) &&
              (forall id :: id in ClassifyRootVars(vars).value.integer <==>
                 exists i :: 0 <= i < |vars| && vars[i].id == id && !vars[i].fixed && vars[i].domain == IntegerDomain)
    decreases |vars|
  {
    if vars != [] {
      var init := vars[..|vars| - 1];
      ClassifyRootVarsCharacterised(init);
      assert forall i :: 0 <= i < |init| ==> init[i] == vars[i];
    }
  }

  /** A no-good cut: the binary and the integer part of a dominated candidate's vector. */
  datatype OptimalityCut = OptimalityCut(binary: map<VarId, real>, integer: map<VarId, real>)

  /** `dict((vid, x[vid]) for vid in ids)`, over the ids the vector holds. */
  function Restrict(x: Vector, ids: seq<VarId>): (m: map<VarId, real>)
    ensures forall vid :: vid in m <==> vid in ids && vid in x
    ensures forall vid :: vid in m ==> m[vid] == x[vid]
  {
    map vid | vid in ids && vid in x :: x[vid]
  }

  /** One cut per feasible candidate other than `bestId` among the first `n`, in candidate order. */
  function NoGoodCuts(objs: seq<Option<real>>, cands: seq<Candidate>, bestId: nat, dv: DiscreteVars, n: nat): seq<OptimalityCut>
    requires n <= |objs| == |cands|
    decreases n
  {
    if n == 0 then []
    else
      NoGoodCuts(objs, cands, bestId, dv, n - 1) +
      (if objs[n - 1].Some? && n - 1 != bestId
       then [CutOf(cands[n - 1], dv)]
       else [])
  }

  /** The no-good cut of one candidate: its values on the binary and on the integer variables. */
  function CutOf(c: Candidate, dv: DiscreteVars): OptimalityCut
  {
    OptimalityCut(Restrict(c.x, dv.binary), Restrict(c.x, dv.integer))
  }

  /** The positions below `n` of the feasible candidates other than `bestId`, in candidate order. */
  function DominatedPositions(objs: seq<Option<real>>, bestId: nat, n: nat): (s: seq<nat>)
    requires n <= |objs|
    ensures forall k :: 0 <= k < |s| ==> s[k] < n
    decreases n
  {
    if n == 0 then []
    else DominatedPositions(objs, bestId, n - 1) + (if objs[n - 1].Some? && n - 1 != bestId then [n - 1] else [])
  }

  predicate StrictlyIncreasing(s: seq<nat>)
  {
    forall k, l :: 0 <= k < l < |s| ==> s[k] < s[l]
  }

  /** The positions are strictly increasing and are exactly the feasible candidates other than the best. */
  lemma {:induction false} DominatedPositionsExact(objs: seq<Option<real>>, bestId: nat, n: nat)
    requires n <= |objs|
    ensures StrictlyIncreasing(DominatedPositions(objs, bestId, n))
    ensures forall j: nat :: j in DominatedPositions(objs, bestId, n) <==> j < n && objs[j].Some? && j != bestId
    decreases n
  {
    if n > 0 {
      DominatedPositionsExact(objs, bestId, n - 1);
      var prev := DominatedPositions(objs, bestId, n - 1);
      var s := DominatedPositions(objs, bestId, n);
      forall k, l | 0 <= k < l < |s| ensures s[k] < s[l] {
        if l >= |prev| {
          assert s[k] == prev[k] && s[l] == n - 1;
        } else {
          assert s[k] == prev[k] && s[l] == prev[l];
        }
      }
    }
  }

  /** The k-th no-good cut is the cut of the k-th feasible candidate other than the best. */
  lemma {:induction false} NoGoodCutsContent(objs: seq<Option<real>>, cands: seq<Candidate>, bestId: nat, dv: DiscreteVars, n: nat)
    requires n <= |objs| == |cands|
    ensures var cuts := NoGoodCuts(objs, cands, bestId, dv, n);
            var pos := DominatedPositions(objs, bestId, n);
            |cuts| == |pos| && forall k :: 0 <= k < |cuts| ==> cuts[k] == CutOf(cands[pos[k]], dv)
    decreases n
  {
    if n > 0 {
      NoGoodCutsContent(objs, cands, bestId, dv, n - 1);
    }
  }

  /** There is one no-good cut per feasible candidate, less one for the best when it is among them. */
  lemma {:induction false} NoGoodCutsCount(objs: seq<Option<real>>, cands: seq<Candidate>, bestId: nat, dv: DiscreteVars, n: nat)
    requires n <= |objs| == |cands|
    ensures |NoGoodCuts(objs, cands, bestId, dv, n)| ==
            FeasibleCount(objs[..n]) - (if bestId < n && objs[bestId].Some? then 1 else 0)
    decreases n
  {
    if n > 0 {
      NoGoodCutsCount(objs, cands, bestId, dv, n - 1);
      assert objs[..n][..n - 1] == objs[..n - 1];
      if bestId < n - 1 && objs[bestId].Some? {
        FeasibleCountPositive(objs[..n - 1], bestId);
      }
    }
  }

  lemma {:induction false} FeasibleCountPositive(objs: seq<Option<real>>, j: nat)
    requires j < |objs| && objs[j].Some?
    ensures FeasibleCount(objs) >= 1
  {
    FeasibleCountZero(objs);
  }

  /** What `_update_incumbent` leaves behind: the new incumbent and the cuts it appends. */
  datatype IncumbentOutcome = IncumbentOutcome(incumbent: Option<Incumbent>, newCuts: seq<OptimalityCut>)

  function IncumbentUpdate(inc: Option<Incumbent>, objs: seq<Option<real>>, cands: seq<Candidate>,
                           sense: Sense, vars: seq<RootVar>): IncumbentOutcome
    requires |objs| == |cands|
  {
    match BestFeasible(objs, sense)
    case None => IncumbentOutcome(inc, [])
    case Some(b) =>
      var next := NextIncumbent(inc, objs, cands, sense);
      if FeasibleCount(objs) <= 1 then IncumbentOutcome(next, [])
      else match ClassifyRootVars(vars)
        case None => IncumbentOutcome(next, [])
        case Some(dv) => IncumbentOutcome(next, NoGoodCuts(objs, cands, b.id, dv, |objs|))
  }

  /**
   * Cuts are appended exactly when two or more candidates are feasible and no
   * unfixed root variable is continuous, and then one per feasible non-best candidate.
   */
  lemma IncumbentUpdateCuts(inc: Option<Incumbent>, objs: seq<Option<real>>, cands: seq<Candidate>,
                            sense: Sense, vars: seq<RootVar>)
    requires |objs| == |cands|
    ensures var out := IncumbentUpdate(inc, objs, cands, sense, vars);
            out.incumbent == NextIncumbent(inc, objs, cands, sense) &&
            (if FeasibleCount(objs) >= 2 && ClassifyRootVars(vars).Some?
             then |out.newCuts| == FeasibleCount(objs) - 1
             else out.newCuts == [])
  {
    BestFeasibleNone(objs, sense);
    FeasibleCountZero(objs);
    match BestFeasible(objs, sense)
    case None =>
    case Some(b) =>
      BestFeasibleIsFirstMinimum(objs, sense);
      assert objs[..|objs|] == objs;
      if ClassifyRootVars(vars).Some? {
        NoGoodCutsCount(objs, cands, b.id, ClassifyRootVars(vars).value, |objs|);
      }
  }

  /**
   * When `_update_incumbent` appends cuts, the k-th is the cut of the k-th
   * feasible candidate other than the best one.
   */
  lemma IncumbentUpdateCutsContent(inc: Option<Incumbent>, objs: seq<Option<real>>, cands: seq<Candidate>,
                                   sense: Sense, vars: seq<RootVar>)
    requires |objs| == |cands| && BestFeasible(objs, sense).Some?
    requires FeasibleCount(objs) >= 2 && ClassifyRootVars(vars).Some?
    ensures var out := IncumbentUpdate(inc, objs, cands, sense, vars);
            var pos := DominatedPositions(objs, BestFeasible(objs, sense).value.id, |objs|);
            |out.newCuts| == |pos| &&
            forall k :: 0 <= k < |pos| ==> out.newCuts[k] == CutOf(cands[pos[k]], ClassifyRootVars(vars).value)
  {
    NoGoodCutsContent(objs, cands, BestFeasible(objs, sense).value.id, ClassifyRootVars(vars).value, |objs|);
  }
}
