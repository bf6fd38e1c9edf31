/**
 * The candidate registry of the InterScenario plugin: the first-stage vectors that
 * the scenarios report, deduplicated by exact equality, each with the names of the
 * scenarios that reported it, in order of first appearance.
 *
 * `Collected` is the registry after all scenarios have been registered in order;
 * the plugin's collection method is proved to compute it, and the lemmas below
 * characterise it independently of how it is built.
 */
module InterScenarioRegistry {
  import opened Wrappers

  type ScenarioName = string
  type VarId = int

  /** A first-stage decision vector: variable id to value, compared by exact equality. */
  type Vector = map<VarId, real>

  /** What the root node holds for one scenario: its name and its first-stage solution. */
  datatype ScenarioSolution = ScenarioSolution(name: ScenarioName, x: Vector)

  /** A candidate solution: a distinct first-stage vector and the scenarios that reported it. */
  datatype Candidate = Candidate(x: Vector, owners: seq<ScenarioName>)

  /** The first candidate whose vector equals `x`, if any. */
  function IndexOfVector(cands: seq<Candidate>, x: Vector): (r: Option<nat>)
    ensures r.Some? ==> r.value < |cands| && cands[r.value].x == x
    ensures r.Some? ==> forall j :: 0 <= j < r.value ==> cands[j].x != x
    ensures r.None? ==> forall j :: 0 <= j < |cands| ==> cands[j].x != x
  {
    if cands == [] then None
    else if cands[0].x == x then Some(0)
    else match IndexOfVector(cands[1..], x)
      case None => None
      case Some(j) => Some(j + 1)
  }

  /** One registration step: join the matching candidate, or open a new one at the end. */
  function Register(cands: seq<Candidate>, s: ScenarioSolution): seq<Candidate>
  {
    match IndexOfVector(cands, s.x)
    case Some(j) => cands[j := cands[j].(owners := cands[j].owners + [s.name])]
    case None => cands + [Candidate(s.x, [s.name])]
  }

  /** The registry after registering the scenarios of `sc` in order. */
  function Collected(sc: seq<ScenarioSolution>): seq<Candidate>
    decreases |sc|
  {
    if sc == [] then [] else Register(Collected(sc[..|sc| - 1]), sc[|sc| - 1])
  }

  /** The first-stage vectors of the scenarios, in scenario order. */
  function ScenarioVectors(sc: seq<ScenarioSolution>): (xs: seq<Vector>)
    ensures |xs| == |sc| && forall i :: 0 <= i < |sc| ==> xs[i] == sc[i].x
  {
    seq(|sc|, i requires 0 <= i < |sc| => sc[i].x)
  }

  /** The vectors of the candidates, in registry order. */
  function CandidateVectors(cands: seq<Candidate>): (xs: seq<Vector>)
    ensures |xs| == |cands| && forall k :: 0 <= k < |cands| ==> xs[k] == cands[k].x
  {
    seq(|cands|, k requires 0 <= k < |cands| => cands[k].x)
  }

  /** Reference definition: keep the first occurrence of every value, in order. */
  function FirstOccurrences(xs: seq<Vector>): seq<Vector>
    decreases |xs|
  {
    if xs == [] then []
    else
      var init := xs[..|xs| - 1];
      FirstOccurrences(init) + (if xs[|xs| - 1] in init then [] else [xs[|xs| - 1]])
  }

  /** Reference definition: the names of the scenarios reporting exactly `x`, in scenario order. */
  function OwnersOf(sc: seq<ScenarioSolution>, x: Vector): seq<ScenarioName>
    decreases |sc|
  {
    if sc == [] then []
    else
      OwnersOf(sc[..|sc| - 1], x) + (if sc[|sc| - 1].x == x then [sc[|sc| - 1].name] else [])
  }

  /** Registry vectors are pairwise distinct under exact equality. */
  predicate DistinctVectors(cands: seq<Candidate>)
  {
    forall i, j :: 0 <= i < j < |cands| ==> cands[i].x != cands[j].x
  }

  /** No two scenarios share a name (scenario names are unique in a scenario tree). */
  predicate DistinctNames(sc: seq<ScenarioSolution>)
  {
    forall i, j :: 0 <= i < j < |sc| ==> sc[i].name != sc[j].name
  }

  lemma {:induction false} RegisterKeepsDistinct(cands: seq<Candidate>, s: ScenarioSolution)
    requires DistinctVectors(cands)
    ensures DistinctVectors(Register(cands, s))
    ensures |Register(cands, s)| == if s.x in CandidateVectors(cands) then |cands| else |cands| + 1
  {
    match IndexOfVector(cands, s.x)
    case Some(j) =>
      assert s.x in CandidateVectors(cands) by { assert CandidateVectors(cands)[j] == s.x; }
    case None =>
      assert s.x !in CandidateVectors(cands);
  }

  /** The registry holds pairwise distinct vectors. */
  lemma {:induction false} CollectedDistinct(sc: seq<ScenarioSolution>)
    ensures DistinctVectors(Collected(sc))
    decreases |sc|
  {
    if sc != [] {
      CollectedDistinct(sc[..|sc| - 1]);
      RegisterKeepsDistinct(Collected(sc[..|sc| - 1]), sc[|sc| - 1]);
    }
  }

  /** A vector is in the registry exactly when some scenario reported it. */
  lemma {:induction false} CollectedVectorsAreScenarioVectors(sc: seq<ScenarioSolution>, x: Vector)
    ensures x in CandidateVectors(Collected(sc)) <==> x in ScenarioVectors(sc)
    decreases |sc|
  {
    if sc != [] {
      var init, s := sc[..|sc| - 1], sc[|sc| - 1];
      var prev := Collected(init);
      CollectedVectorsAreScenarioVectors(init, x);
      assert ScenarioVectors(sc) == ScenarioVectors(init) + [s.x];
      match IndexOfVector(prev, s.x)
      case Some(j) =>
        assert CandidateVectors(Collected(sc)) == CandidateVectors(prev);
        if x == s.x {
          assert CandidateVectors(prev)[j] == x;
        }
      case None =>
        assert CandidateVectors(Collected(sc)) == CandidateVectors(prev) + [s.x];
    }
  }

  /** The registry lists the distinct vectors in order of first appearance. */
  lemma {:induction false} CollectedInFirstAppearanceOrder(sc: seq<ScenarioSolution>)
    ensures CandidateVectors(Collected(sc)) == FirstOccurrences(ScenarioVectors(sc))
    decreases |sc|
  {
    if sc != [] {
      var init, s := sc[..|sc| - 1], sc[|sc| - 1];
      var prev := Collected(init);
      var xs := ScenarioVectors(sc);
      assert xs[..|xs| - 1] == ScenarioVectors(init);
      assert xs[|xs| - 1] == s.x;
      CollectedInFirstAppearanceOrder(init);
      CollectedVectorsAreScenarioVectors(init, s.x);
      match IndexOfVector(prev, s.x)
      case Some(j) =>
        assert CandidateVectors(prev)[j] == s.x;
        assert CandidateVectors(Collected(sc)) == CandidateVectors(prev);
      case None =>
        assert CandidateVectors(Collected(sc)) == CandidateVectors(prev) + [s.x];
    }
  }

  /** Every candidate's owner list is exactly the scenarios reporting its vector, in order. */
  lemma {:induction false} CollectedOwners(sc: seq<ScenarioSolution>, k: nat)
    requires k < |Collected(sc)|
    ensures Collected(sc)[k].owners == OwnersOf(sc, Collected(sc)[k].x)
    decreases |sc|
  {
    var init, s := sc[..|sc| - 1], sc[|sc| - 1];
    var prev := Collected(init);
    match IndexOfVector(prev, s.x)
    case Some(j) =>
      CollectedOwners(init, k);
      CollectedDistinct(init);
      assert k != j ==> prev[k].x != s.x;
    case None =>
      if k < |prev| {
        CollectedOwners(init, k);
      } else {
        CollectedVectorsAreScenarioVectors(init, s.x);
        NoOwnersOfAbsent(init, s.x);
      }
  }

  lemma {:induction false} NoOwnersOfAbsent(sc: seq<ScenarioSolution>, x: Vector)
    requires x !in ScenarioVectors(sc)
    ensures OwnersOf(sc, x) == []
    decreases |sc|
  {
    if sc != [] {
      var init := sc[..|sc| - 1];
      assert ScenarioVectors(sc) == ScenarioVectors(init) + [sc[|sc| - 1].x];
      NoOwnersOfAbsent(init, x);
    }
  }

  lemma {:induction false} InOwnersOf(sc: seq<ScenarioSolution>, x: Vector, i: nat)
    requires i < |sc| && DistinctNames(sc)
    ensures sc[i].name in OwnersOf(sc, x) <==> sc[i].x == x
    decreases |sc|
  {
    var init, last := sc[..|sc| - 1], sc[|sc| - 1];
    if i < |sc| - 1 {
      InOwnersOf(init, x, i);
      assert sc[i].name != last.name;
    } else {
      NotInOwnersOf(init, x, last.name);
    }
  }

  lemma {:induction false} NotInOwnersOf(sc: seq<ScenarioSolution>, x: Vector, name: ScenarioName)
    requires forall i :: 0 <= i < |sc| ==> sc[i].name != name
    ensures name !in OwnersOf(sc, x)
    decreases |sc|
  {
    if sc != [] {
      NotInOwnersOf(sc[..|sc| - 1], x, name);
    }
  }

  /**
   * With distinct scenario names, every scenario appears in the owner list of
   * exactly one candidate: the one holding its vector.
   */
  lemma ScenarioOwnedByExactlyOne(sc: seq<ScenarioSolution>, i: nat)
    requires i < |sc| && DistinctNames(sc)
    ensures exists k :: 0 <= k < |Collected(sc)| && sc[i].name in Collected(sc)[k].owners
    ensures forall k, l ::
              (0 <= k < |Collected(sc)| && 0 <= l < |Collected(sc)| &&
               sc[i].name in Collected(sc)[k].owners && sc[i].name in Collected(sc)[l].owners) ==> k == l
  {
    var cands := Collected(sc);
    CollectedDistinct(sc);
    CollectedVectorsAreScenarioVectors(sc, sc[i].x);
    assert ScenarioVectors(sc)[i] == sc[i].x;
    var k :| 0 <= k < |cands| && CandidateVectors(cands)[k] == sc[i].x;
    CollectedOwners(sc, k);
    InOwnersOf(sc, cands[k].x, i);
    forall k1, l1 | 0 <= k1 < |cands| && 0 <= l1 < |cands| &&
        sc[i].name in cands[k1].owners && sc[i].name in cands[l1].owners
      ensures k1 == l1
    {
      CollectedOwners(sc, k1);
      InOwnersOf(sc, cands[k1].x, i);
      CollectedOwners(sc, l1);
      InOwnersOf(sc, cands[l1].x, i);
    }
  }
}
