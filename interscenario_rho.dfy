/**
 * The rho estimator of the InterScenario plugin: the penalty weight of every
 * first-stage variable, estimated from the duals of the fixing constraints that the
 * subproblems returned for every candidate, and the damped update that moves the
 * plugin's rho towards the estimate.
 */
module InterScenarioRho {
  import opened Wrappers
  import opened InterScenarioRegistry

  function Abs(r: real): (a: real)
    ensures a >= 0.0 && (a == r || a == -r)
  {
    if r < 0.0 then -r else r
  }

  /** Total probability of the named scenarios. */
  function OwnerProbability(owners: seq<ScenarioName>, probability: map<ScenarioName, real>): real
    requires forall i :: 0 <= i < |owners| ==> owners[i] in probability
    decreases |owners|
  {
    if owners == [] then 0.0
    else OwnerProbability(owners[..|owners| - 1], probability) + probability[owners[|owners| - 1]]
  }

  predicate OwnersKnown(cands: seq<Candidate>, probability: map<ScenarioName, real>)
  {
    forall k, i :: 0 <= k < |cands| && 0 <= i < |cands[k].owners| ==> cands[k].owners[i] in probability
  }

  /** `soln_prob`: the probability of the scenarios owning each candidate. */
  function SolutionProbabilities(cands: seq<Candidate>, probability: map<ScenarioName, real>): (sp: seq<real>)
    requires OwnersKnown(cands, probability)
    ensures |sp| == |cands|
    ensures forall k :: 0 <= k < |cands| ==> sp[k] == OwnerProbability(cands[k].owners, probability)
  {
    seq(|cands|, k requires 0 <= k < |cands| => OwnerProbability(cands[k].owners, probability))
  }

  lemma {:induction false} OwnerProbabilityNonNegative(owners: seq<ScenarioName>, probability: map<ScenarioName, real>)
    requires forall i :: 0 <= i < |owners| ==> owners[i] in probability && probability[owners[i]] >= 0.0
    ensures OwnerProbability(owners, probability) >= 0.0
    decreases |owners|
  {
    if owners != [] {
      OwnerProbabilityNonNegative(owners[..|owners| - 1], probability);
    }
  }

  /** Every candidate vector holds variable `v`. */
  predicate HasVar(cands: seq<Candidate>, v: VarId)
  {
    forall k :: 0 <= k < |cands| ==> v in cands[k].x
  }

  function MaxValue(cands: seq<Candidate>, v: VarId): real
    requires cands != [] && HasVar(cands, v)
    decreases |cands|
  {
    var last := cands[|cands| - 1].x[v];
    if |cands| == 1 then last
    else
      var m := MaxValue(cands[..|cands| - 1], v);
      if last > m then last else m
  }

  function MinValue(cands: seq<Candidate>, v: VarId): real
    requires cands != [] && HasVar(cands, v)
    decreases |cands|
  {
    var last := cands[|cands| - 1].x[v];
    if |cands| == 1 then last
    else
      var m := MinValue(cands[..|cands| - 1], v);
      if last < m then last else m
  }

  /** The maximum and the minimum are attained and bound every candidate's value. */
  lemma {:induction false} MaxMinBounds(cands: seq<Candidate>, v: VarId)
    requires cands != [] && HasVar(cands, v)
    ensures forall k :: 0 <= k < |cands| ==> MinValue(cands, v) <= cands[k].x[v] <= MaxValue(cands, v)
    ensures exists k :: 0 <= k < |cands| && cands[k].x[v] == MaxValue(cands, v)
    ensures exists k :: 0 <= k < |cands| && cands[k].x[v] == MinValue(cands, v)
    decreases |cands|
  {
    if |cands| > 1 {
      var init := cands[..|cands| - 1];
      assert HasVar(init, v) by {
        assert forall k :: 0 <= k < |init| ==> init[k] == cands[k];
      }
      MaxMinBounds(init, v);
      assert forall k :: 0 <= k < |init| ==> init[k] == cands[k];
      var kMax :| 0 <= kMax < |init| && init[kMax].x[v] == MaxValue(init, v);
      var kMin :| 0 <= kMin < |init| && init[kMin].x[v] == MinValue(init, v);
      assert cands[kMax].x[v] == MaxValue(init, v);
      assert cands[kMin].x[v] == MinValue(init, v);
    } else {
      assert cands[0].x[v] == MaxValue(cands, v);
    }
  }

  /** `x_deviation`: the spread max - min of every root variable over the candidates. */
  function XDeviation(cands: seq<Candidate>, keys: set<VarId>): (d: map<VarId, real>)
    requires cands != [] && forall v :: v in keys ==> HasVar(cands, v)
    ensures d.Keys == keys
  {
    map v | v in keys :: MaxValue(cands, v) - MinValue(cands, v)
  }

  /** The spread is never negative, so the divisor `x_dev + 1` is at least 1. */
  lemma XDeviationNonNegative(cands: seq<Candidate>, keys: set<VarId>)
    requires cands != [] && forall v :: v in keys ==> HasVar(cands, v)
    ensures forall v :: v in keys ==> XDeviation(cands, keys)[v] >= 0.0
    ensures forall v :: v in keys ==> XDeviation(cands, keys)[v] + 1.0 >= 1.0
  {
    forall v | v in keys ensures XDeviation(cands, keys)[v] >= 0.0 {
      MaxMinBounds(cands, v);
    }
  }

  /** A candidate's column of dual maps, one per subproblem (`None` where the fixed solve failed). */
  type DualColumn = seq<Option<map<VarId, real>>>

  /** The probability of the subproblems that returned duals, over the first `n`. */
  function PresentProbability(duals: DualColumn, probability: seq<real>, n: nat): real
    requires n <= |duals| && n <= |probability|
    decreases n
  {
    if n == 0 then 0.0
    else PresentProbability(duals, probability, n - 1) + (if duals[n - 1].Some? then probability[n - 1] else 0.0)
  }

  /** `sum(d * p)` for variable `v` over the subproblems that returned duals holding `v`. */
  function DualMass(duals: DualColumn, probability: seq<real>, v: VarId, n: nat): real
    requires n <= |duals| && n <= |probability|
    decreases n
  {
    if n == 0 then 0.0
    else
      DualMass(duals, probability, v, n - 1) +
      (if duals[n - 1].Some? && v in duals[n - 1].value then duals[n - 1].value[v] * probability[n - 1] else 0.0)
  }

  /** Every returned dual map talks only about root variables (otherwise the source raises a KeyError). */
  predicate DualsWithin(duals: DualColumn, keys: set<VarId>)
  {
    forall i :: 0 <= i < |duals| && duals[i].Some? ==> duals[i].value.Keys <= keys
  }

  /**
   * `avg_dual`: the probability-weighted mean dual of every root variable over the
   * subproblems that returned duals; subproblems without duals are skipped, and the
   * sums are left undivided when no subproblem returned any.
   */
  function AverageDual(duals: DualColumn, probability: seq<real>, keys: set<VarId>): (avg: map<VarId, real>)
    requires |duals| == |probability|
    ensures avg.Keys == keys
  {
    var pTotal := PresentProbability(duals, probability, |duals|);
    map v | v in keys ::
      if pTotal != 0.0 then DualMass(duals, probability, v, |duals|) / pTotal
      else DualMass(duals, probability, v, |duals|)
  }

  lemma {:induction false} DualMassBounds(duals: DualColumn, probability: seq<real>, v: VarId, lo: real, hi: real, n: nat)
    requires n <= |duals| && n <= |probability|
    requires forall i :: 0 <= i < n ==> probability[i] >= 0.0
    requires forall i :: 0 <= i < n && duals[i].Some? ==> v in duals[i].value && lo <= duals[i].value[v] <= hi
    ensures lo * PresentProbability(duals, probability, n) <= DualMass(duals, probability, v, n)
                                                          <= hi * PresentProbability(duals, probability, n)
    decreases n
  {
    if n > 0 {
      DualMassBounds(duals, probability, v, lo, hi, n - 1);
      DualMassStepBounds(duals, probability, v, lo, hi, n);
    }
  }

  /** The inductive step of `DualMassBounds`: subproblem `n - 1` keeps the bounds. */
  lemma DualMassStepBounds(duals: DualColumn, probability: seq<real>, v: VarId, lo: real, hi: real, n: nat)
    requires 0 < n <= |duals| && n <= |probability|
    requires probability[n - 1] >= 0.0
    requires duals[n - 1].Some? ==> v in duals[n - 1].value && lo <= duals[n - 1].value[v] <= hi
    requires lo * PresentProbability(duals, probability, n - 1) <= DualMass(duals, probability, v, n - 1)
                                                                <= hi * PresentProbability(duals, probability, n - 1)
    ensures lo * PresentProbability(duals, probability, n) <= DualMass(duals, probability, v, n)
                                                          <= hi * PresentProbability(duals, probability, n)
  {
    var present := duals[n - 1].Some?;
    var d := if present then duals[n - 1].value[v] else 0.0;
    StepBounds(lo, hi, PresentProbability(duals, probability, n - 1), DualMass(duals, probability, v, n - 1),
               PresentProbability(duals, probability, n), DualMass(duals, probability, v, n),
               d, probability[n - 1], present);
  }

  /** The arithmetic of one step: a present dual within [lo, hi] keeps the mass within bounds. */
  lemma StepBounds(lo: real, hi: real, prevP: real, prevM: real, nextP: real, nextM: real, d: real, p: real, present: bool)
    requires lo * prevP <= prevM <= hi * prevP && p >= 0.0
    requires present ==> lo <= d <= hi
    requires nextP == prevP + (if present then p else 0.0)
    requires nextM == prevM + (if present then d * p else 0.0)
    ensures lo * nextP <= nextM <= hi * nextP
  {
    if present {
      MulMonotone(lo, d, p);
      MulMonotone(d, hi, p);
      Distribute(lo, prevP, p);
      Distribute(hi, prevP, p);
    }
  }

  lemma MulMonotone(a: real, b: real, p: real)
    requires a <= b && p >= 0.0
    ensures a * p <= b * p
  {
    assert (b - a) * p >= 0.0;
  }

  lemma Distribute(a: real, x: real, y: real)
    ensures a * (x + y) == a * x + a * y
  {
  }

  /** `a * p <= m <= b * p` with `p > 0` gives `a <= m / p <= b`. */
  lemma DivideBounds(a: real, m: real, b: real, p: real)
    requires p > 0.0 && a * p <= m <= b * p
    ensures a <= m / p <= b
  {
    var q := m / p;
    assert q * p == m;
    if q < a {
      MulStrict(q, a, p);
    }
    if b < q {
      MulStrict(b, q, p);
    }
  }

  lemma MulStrict(a: real, b: real, p: real)
    requires a < b && p > 0.0
    ensures a * p < b * p
  {
    assert (b - a) * p > 0.0;
  }

  /**
   * The average is a convex combination: with non-negative probabilities, when
   * some subproblem returned duals and all returned duals of `v` lie in [lo, hi],
   * so does the average. Subproblems without duals do not take part.
   */
  lemma AverageDualBounds(duals: DualColumn, probability: seq<real>, keys: set<VarId>, v: VarId, lo: real, hi: real)
    requires |duals| == |probability| && v in keys
    requires forall i :: 0 <= i < |probability| ==> probability[i] >= 0.0
    requires PresentProbability(duals, probability, |duals|) > 0.0
    requires forall i :: 0 <= i < |duals| && duals[i].Some? ==> v in duals[i].value && lo <= duals[i].value[v] <= hi
    ensures lo <= AverageDual(duals, probability, keys)[v] <= hi
  {
    var pTotal := PresentProbability(duals, probability, |duals|);
    var mass := DualMass(duals, probability, v, |duals|);
    DualMassBounds(duals, probability, v, lo, hi, |duals|);
    assert AverageDual(duals, probability, keys)[v] == mass / pTotal;
    DivideBounds(lo, mass, hi, pTotal);
  }

  /** Without any returned duals, every average is zero. */
  lemma AverageDualOfNothing(duals: DualColumn, probability: seq<real>, keys: set<VarId>)
    requires |duals| == |probability|
    requires forall i :: 0 <= i < |duals| ==> duals[i].None?
    ensures forall v :: v in keys ==> AverageDual(duals, probability, keys)[v] == 0.0
  {
    forall v | v in keys ensures AverageDual(duals, probability, keys)[v] == 0.0 {
      NoDualMass(duals, probability, v, |duals|);
    }
  }

  lemma {:induction false} NoDualMass(duals: DualColumn, probability: seq<real>, v: VarId, n: nat)
    requires n <= |duals| && n <= |probability|
    requires forall i :: 0 <= i < |duals| ==> duals[i].None?
    ensures DualMass(duals, probability, v, n) == 0.0 && PresentProbability(duals, probability, n) == 0.0
    decreases n
  {
    if n > 0 {
      NoDualMass(duals, probability, v, n - 1);
    }
  }

  /** One candidate's contribution to a variable's estimate: its probability times its average dual, over the spread plus one. */
  function RhoTerm(solnProb: real, avgDual: real, dev: real): real
    requires dev >= 0.0
  {
    solnProb * avgDual / (dev + 1.0)
  }

  /** `x_deviation` is a spread over the root variables (its keys are among them, its values non-negative). */
  predicate ValidDeviation(xDev: map<VarId, real>, keys: set<VarId>)
  {
    xDev.Keys <= keys && forall v :: v in xDev ==> xDev[v] >= 0.0
  }

  /**
   * `weighted_rho` after the first `n` candidates: for every variable with a spread,
   * the sum of `soln_prob[k] * avg_dual_k[v] / (x_dev[v] + 1)`; zero for the others.
   */
  function WeightedSums(solnProb: seq<real>, avgDuals: seq<map<VarId, real>>, xDev: map<VarId, real>, keys: set<VarId>, n: nat)
    : (w: map<VarId, real>)
    requires n <= |solnProb| && n <= |avgDuals| && ValidDeviation(xDev, keys)
    requires forall k :: 0 <= k < n ==> avgDuals[k].Keys == keys
    ensures w.Keys == keys
    decreases n
  {
    if n == 0 then map v | v in keys :: 0.0
    else AddCandidate(WeightedSums(solnProb, avgDuals, xDev, keys, n - 1), solnProb[n - 1], avgDuals[n - 1], xDev)
  }

  /** One candidate's step of `weighted_rho`: its term added for every variable with a spread. */
  function AddCandidate(weighted: map<VarId, real>, solnProb: real, avgDual: map<VarId, real>, xDev: map<VarId, real>)
    : (w: map<VarId, real>)
    requires xDev.Keys <= weighted.Keys && xDev.Keys <= avgDual.Keys && forall v :: v in xDev ==> xDev[v] >= 0.0
    ensures w.Keys == weighted.Keys
    ensures forall v :: v in w && v !in xDev ==> w[v] == weighted[v]
  {
    map v | v in weighted :: if v in xDev then weighted[v] + RhoTerm(solnProb, avgDual[v], xDev[v]) else weighted[v]
  }

  /**
   * `weighted_rho`: for every root variable, the absolute value of the
   * probability-weighted average duals, each damped by the variable's spread.
   */
  function WeightedRho(solnProb: seq<real>, avgDuals: seq<map<VarId, real>>, xDev: map<VarId, real>, keys: set<VarId>): (rho: map<VarId, real>)
    requires |solnProb| == |avgDuals| && ValidDeviation(xDev, keys)
    requires forall k :: 0 <= k < |avgDuals| ==> avgDuals[k].Keys == keys
    ensures rho.Keys == keys
  {
    var w := WeightedSums(solnProb, avgDuals, xDev, keys, |solnProb|);
    map v | v in keys :: Abs(w[v])
  }

  /**
   * Every rho estimate is non-negative; it is zero for a variable without a spread,
   * and for every variable when every average dual is zero.
   */
  lemma WeightedRhoSign(solnProb: seq<real>, avgDuals: seq<map<VarId, real>>, xDev: map<VarId, real>, keys: set<VarId>)
    requires |solnProb| == |avgDuals| && ValidDeviation(xDev, keys)
    requires forall k :: 0 <= k < |avgDuals| ==> avgDuals[k].Keys == keys
    ensures forall v :: v in keys ==> WeightedRho(solnProb, avgDuals, xDev, keys)[v] >= 0.0
    ensures forall v :: v in keys && v !in xDev ==> WeightedRho(solnProb, avgDuals, xDev, keys)[v] == 0.0
    ensures (forall k, v :: 0 <= k < |avgDuals| && v in avgDuals[k] ==> avgDuals[k][v] == 0.0) ==>
            forall v :: v in keys ==> WeightedRho(solnProb, avgDuals, xDev, keys)[v] == 0.0
  {
    var zeros := forall k, v :: 0 <= k < |avgDuals| && v in avgDuals[k] ==> avgDuals[k][v] == 0.0;
    WeightedSumsZero(solnProb, avgDuals, xDev, keys, |solnProb|, zeros);
  }

  /** Sums stay zero for a variable without a spread, and for every variable when all average duals are zero. */
  lemma {:induction false} WeightedSumsZero(solnProb: seq<real>, avgDuals: seq<map<VarId, real>>, xDev: map<VarId, real>,
                                            keys: set<VarId>, n: nat, zeros: bool)
    requires n <= |solnProb| && n <= |avgDuals| && ValidDeviation(xDev, keys)
    requires forall k :: 0 <= k < n ==> avgDuals[k].Keys == keys
    requires zeros ==> forall k, v :: 0 <= k < n && v in avgDuals[k] ==> avgDuals[k][v] == 0.0
    ensures forall v :: v in keys && (zeros || v !in xDev) ==> WeightedSums(solnProb, avgDuals, xDev, keys, n)[v] == 0.0
    decreases n
  {
    if n > 0 {
      WeightedSumsZero(solnProb, avgDuals, xDev, keys, n - 1, zeros);
      forall v | v in keys && (zeros || v !in xDev)
        ensures WeightedSums(solnProb, avgDuals, xDev, keys, n)[v] == 0.0
      {
        if v in xDev {
          assert avgDuals[n - 1][v] == 0.0;
          assert RhoTerm(solnProb[n - 1], 0.0, xDev[v]) == 0.0;
        }
      }
    }
  }

  /**
   * The rho update: the first estimate sets rho to `scale * r`; later ones move
   * every estimated variable's rho by the fraction `damping` towards `scale * r`.
   */
  function UpdatedRho(rho: Option<map<VarId, real>>, estimate: map<VarId, real>, scale: real, damping: real): (r: map<VarId, real>)
    requires rho.Some? ==> estimate.Keys <= rho.value.Keys
    ensures rho.None? ==> r.Keys == estimate.Keys
    ensures rho.Some? ==> r.Keys == rho.value.Keys
  {
    match rho
    case None => map v | v in estimate :: scale * estimate[v]
    case Some(prev) =>
      map v | v in prev :: if v in estimate then DampedStep(prev[v], scale * estimate[v], damping) else prev[v]
  }

  /** `old + damping * (target - old)`: the fraction `d` of the way from `o` to `t`. */
  function DampedStep(o: real, t: real, d: real): real
  {
    o + d * (t - o)
  }

  /**
   * With scale >= 0 and damping in [0, 1] the updated rho lies between the old rho
   * and the scaled estimate; hence it stays non-negative when both are.
   */
  lemma UpdatedRhoBetween(rho: Option<map<VarId, real>>, estimate: map<VarId, real>, scale: real, damping: real)
    requires rho.Some? ==> estimate.Keys <= rho.value.Keys
    requires scale >= 0.0 && 0.0 <= damping <= 1.0
    requires forall v :: v in estimate ==> estimate[v] >= 0.0
    ensures rho.Some? ==> forall v :: v in estimate ==>
              var r, o, t := UpdatedRho(rho, estimate, scale, damping)[v], rho.value[v], scale * estimate[v];
              (o <= r <= t) || (t <= r <= o)
    ensures (rho.Some? ==> forall v :: v in rho.value ==> rho.value[v] >= 0.0) ==>
            forall v :: v in UpdatedRho(rho, estimate, scale, damping) ==> UpdatedRho(rho, estimate, scale, damping)[v] >= 0.0
  {
    var r := UpdatedRho(rho, estimate, scale, damping);
    forall v | v in estimate ensures scale * estimate[v] >= 0.0 {
      MulMonotone(0.0, scale, estimate[v]);
    }
    if rho.Some? {
      forall v | v in estimate
        ensures var o, t := rho.value[v], scale * estimate[v]; (o <= r[v] <= t) || (t <= r[v] <= o)
      {
        assert r[v] == DampedStep(rho.value[v], scale * estimate[v], damping);
        DampedStepBetween(rho.value[v], scale * estimate[v], damping);
      }
    }
  }

  /** `o + d * (t - o)` with `d` in [0, 1] lies between `o` and `t`. */
  lemma DampedStepBetween(o: real, t: real, d: real)
    requires 0.0 <= d <= 1.0
    ensures (o <= DampedStep(o, t, d) <= t) || (t <= DampedStep(o, t, d) <= o)
  {
    var s := d * (t - o);
    assert DampedStep(o, t, d) == o + s;
    if o <= t {
      ScaleBetween(d, t - o);
    } else {
      ScaleBetween(d, o - t);
      MulNegate(d, o - t);
      assert -(o - t) == t - o;
    }
  }

  lemma ScaleBetween(d: real, g: real)
    requires 0.0 <= d <= 1.0 && g >= 0.0
    ensures 0.0 <= d * g <= g
  {
    MulMonotone(0.0, d, g);
    MulMonotone(d, 1.0, g);
  }

  lemma MulNegate(d: real, g: real)
    ensures d * (-g) == -(d * g)
  {
  }
}
