/**
 * The feasibility-cut library of the InterScenario plugin: which of the cuts found in
 * the last evaluation round every subproblem receives.
 *
 * The library is the list of cut lists the subproblems returned (one row per
 * subproblem, one entry per candidate). A subproblem that owns a candidate receives
 * every cut of that candidate above the minimum difference; a subproblem that does
 * not own it receives the candidate's cuts above the cross-cut threshold, and only
 * when the candidate is not globally feasible.
 */
module InterScenarioCuts {
  import opened Wrappers
  import opened InterScenarioRegistry
  import opened InterScenarioEval
  import opened InterScenarioIncumbent

  /** A subproblem of the scenario tree: a scenario, or a bundle of scenarios. */
  datatype Subproblem = Subproblem(name: string, scenarioNames: seq<ScenarioName>)

  /** Every row of the library holds one entry per candidate. */
  predicate WellShaped(library: seq<seq<CutEntry>>, numCandidates: nat)
  {
    forall s :: 0 <= s < |library| ==> |library[s]| == numCandidates
  }

  predicate CutAbove(c: CutEntry, threshold: real)
  {
    c.Cut? && c.magnitude > threshold
  }

  /** The magnitudes of all cuts above `minDiff`, row by row (before sorting). */
  function CutMagnitudes(library: seq<seq<CutEntry>>, minDiff: real): seq<real>
    decreases |library|
  {
    if library == [] then []
    else CutMagnitudes(library[..|library| - 1], minDiff) + RowMagnitudes(library[|library| - 1], minDiff)
  }

  function RowMagnitudes(row: seq<CutEntry>, minDiff: real): seq<real>
    decreases |row|
  {
    if row == [] then []
    else
      RowMagnitudes(row[..|row| - 1], minDiff) +
      (if CutAbove(row[|row| - 1], minDiff) then [row[|row| - 1].magnitude] else [])
  }

  lemma {:induction false} RowMagnitudesAbove(row: seq<CutEntry>, minDiff: real)
    ensures forall m :: m in RowMagnitudes(row, minDiff) ==> m > minDiff
    decreases |row|
  {
    if row != [] {
      RowMagnitudesAbove(row[..|row| - 1], minDiff);
    }
  }

  /** Every magnitude in the library exceeds the minimum difference. */
  lemma {:induction false} CutMagnitudesAbove(library: seq<seq<CutEntry>>, minDiff: real)
    ensures forall m :: m in CutMagnitudes(library, minDiff) ==> m > minDiff
    decreases |library|
  {
    if library != [] {
      CutMagnitudesAbove(library[..|library| - 1], minDiff);
      RowMagnitudesAbove(library[|library| - 1], minDiff);
    }
  }

  predicate SortedAscending(s: seq<real>)
  {
    forall i, j :: 0 <= i < j < |s| ==> s[i] <= s[j]
  }

  function InsertAscending(x: real, s: seq<real>): seq<real>
    decreases |s|
  {
    if s == [] then [x]
    else if x <= s[0] then [x] + s
    else [s[0]] + InsertAscending(x, s[1..])
  }

  /** Python's `sorted` on a list of floats, as an insertion sort. */
  function SortAscending(s: seq<real>): seq<real>
    decreases |s|
  {
    if s == [] then [] else InsertAscending(s[0], SortAscending(s[1..]))
  }

  /** A value no larger than the head of a sorted sequence can be put in front of it. */
  lemma PrependSorted(x: real, s: seq<real>)
    requires SortedAscending(s) && (s == [] || x <= s[0])
    ensures SortedAscending([x] + s)
  {
    var r := [x] + s;
    forall i, j | 0 <= i < j < |r| ensures r[i] <= r[j] {
      if i == 0 {
        assert r[j] == s[j - 1] && s[0] <= s[j - 1];
      } else {
        assert r[i] == s[i - 1] && r[j] == s[j - 1];
      }
    }
  }

  lemma TailSorted(s: seq<real>)
    requires SortedAscending(s) && s != []
    ensures SortedAscending(s[1..])
  {
    var tail := s[1..];
    forall i, j | 0 <= i < j < |tail| ensures tail[i] <= tail[j] {
      assert tail[i] == s[i + 1] && tail[j] == s[j + 1];
    }
  }

  lemma {:induction false} InsertAscendingCorrect(x: real, s: seq<real>)
    requires SortedAscending(s)
    ensures SortedAscending(InsertAscending(x, s))
    ensures multiset(InsertAscending(x, s)) == multiset(s) + multiset{x}
    decreases |s|
  {
    if s == [] || x <= s[0] {
      PrependSorted(x, s);
    } else {
      TailSorted(s);
      InsertAscendingCorrect(x, s[1..]);
      InsertBehindHead(x, s);
    }
  }

  /** The step of the insertion behind the head, given its result on the tail. */
  lemma InsertBehindHead(x: real, s: seq<real>)
    requires SortedAscending(s) && s != [] && s[0] < x
    requires SortedAscending(InsertAscending(x, s[1..]))
    requires multiset(InsertAscending(x, s[1..])) == multiset(s[1..]) + multiset{x}
    ensures SortedAscending(InsertAscending(x, s))
    ensures multiset(InsertAscending(x, s)) == multiset(s) + multiset{x}
  {
    var t := InsertAscending(x, s[1..]);
    assert InsertAscending(x, s) == [s[0]] + t;
    HeadBelowInsert(x, s, t);
    PrependSorted(s[0], t);
    PrependMultiset(s[0], s[1..], t, x);
    assert s == [s[0]] + s[1..];
  }

  /** Every element of `t`, which holds `x` and the tail of `s`, is at least the head of `s`. */
  lemma HeadBelowInsert(x: real, s: seq<real>, t: seq<real>)
    requires SortedAscending(s) && s != [] && s[0] < x
    requires t != [] && multiset(t) == multiset(s[1..]) + multiset{x}
    ensures s[0] <= t[0]
  {
    assert t[0] in multiset(t);
    if t[0] in multiset(s[1..]) {
      var k :| 0 <= k < |s[1..]| && s[1..][k] == t[0];
      assert s[k + 1] == t[0];
    }
  }

  lemma PrependMultiset(h: real, tail: seq<real>, t: seq<real>, x: real)
    requires multiset(t) == multiset(tail) + multiset{x}
    ensures multiset([h] + t) == multiset([h] + tail) + multiset{x}
  {
    assert multiset([h] + t) == multiset([h]) + multiset(t);
    assert multiset([h] + tail) == multiset([h]) + multiset(tail);
  }

  /** The sorted library is a sorted permutation of the magnitudes. */
  lemma {:induction false} SortAscendingCorrect(s: seq<real>)
    ensures SortedAscending(SortAscending(s))
    ensures multiset(SortAscending(s)) == multiset(s)
    decreases |s|
  {
    if s != [] {
      SortAscendingCorrect(s[1..]);
      SortAscendingSortedStep(s, SortAscending(s[1..]));
      SortAscendingMultisetStep(s, SortAscending(s[1..]));
    }
  }

  /** The induction step of the sort's ordering, given its result on the tail. */
  lemma SortAscendingSortedStep(s: seq<real>, rest: seq<real>)
    requires s != [] && rest == SortAscending(s[1..])
    requires SortedAscending(rest) && multiset(rest) == multiset(s[1..])
    ensures SortedAscending(SortAscending(s))
  {
    var r := InsertAscending(s[0], rest);
    InsertAscendingCorrect(s[0], rest);
    assert SortAscending(s) == r;
  }

  /** The induction step of the sort's permutation, given its result on the tail. */
  lemma SortAscendingMultisetStep(s: seq<real>, rest: seq<real>)
    requires s != [] && rest == SortAscending(s[1..])
    requires SortedAscending(rest) && multiset(rest) == multiset(s[1..])
    ensures multiset(SortAscending(s)) == multiset(s)
  {
    var r := InsertAscending(s[0], rest);
    InsertAscendingCorrect(s[0], rest);
    assert SortAscending(s) == r;
    assert s == [s[0]] + s[1..];
    assert multiset(r) == multiset(s);
  }

  /** Python's `int()` on a float: truncation toward zero. */
  function Truncate(r: real): (n: int)
    ensures r >= 0.0 ==> n as real <= r < n as real + 1.0
    ensures r < 0.0 ==> n as real - 1.0 < r <= n as real
  {
    if r >= 0.0 then r.Floor else -((-r).Floor)
  }

  /** The index `min(int((1 - crossCut) * len), len - 1)` into the sorted library. */
  function CutoffIndex(crossCut: real, len: nat): int
  {
    var t := Truncate((1.0 - crossCut) * len as real);
    if t < len - 1 then t else len - 1
  }

  /** Python indexing of a list: negative indices count from the end; out of range is an IndexError. */
  function PyIndex(s: seq<real>, i: int): Option<real>
  {
    if 0 <= i < |s| then Some(s[i])
    else if -|s| <= i < 0 then Some(s[|s| + i])
    else None
  }

  /**
   * The cross-cut threshold: the magnitude at the cutoff index of the sorted library,
   * or 1 for an empty library; `None` stands for the IndexError a negative index
   * past the start raises (possible only when crossCut > 1).
   */
  function CrossCutThreshold(library: seq<seq<CutEntry>>, minDiff: real, crossCut: real): Option<real>
  {
    var cutObj := SortAscending(CutMagnitudes(library, minDiff));
    if cutObj == [] then Some(1.0) else PyIndex(cutObj, CutoffIndex(crossCut, |cutObj|))
  }

  /** For a fraction in [0, 1] the cutoff index lies inside the sorted library. */
  lemma CutoffIndexInRange(crossCut: real, len: nat)
    requires 0.0 <= crossCut <= 1.0 && len > 0
    ensures 0 <= CutoffIndex(crossCut, len) < len
  {
    var r := (1.0 - crossCut) * len as real;
    assert 0.0 <= 1.0 - crossCut;
    assert 0.0 <= r;
  }

  /** crossCut = 1 puts the cutoff at the weakest cut; crossCut = 0 at the strongest. */
  lemma CutoffIndexExtremes(len: nat)
    requires len > 0
    ensures CutoffIndex(1.0, len) == 0
    ensures CutoffIndex(0.0, len) == len - 1
  {
    assert (1.0 - 1.0) * len as real == 0.0;
    assert (1.0 - 0.0) * len as real == len as real;
  }

  /** A fraction in [0, 1] never makes the threshold lookup fail, and the threshold is in the library. */
  lemma {:induction false} CrossCutThresholdDefined(library: seq<seq<CutEntry>>, minDiff: real, crossCut: real)
    requires 0.0 <= crossCut <= 1.0
    ensures CrossCutThreshold(library, minDiff, crossCut).Some?
    ensures var t := CrossCutThreshold(library, minDiff, crossCut).value;
            t == 1.0 || t in CutMagnitudes(library, minDiff)
  {
    var mags := CutMagnitudes(library, minDiff);
    var cutObj := SortAscending(mags);
    SortAscendingCorrect(mags);
    if cutObj != [] {
      CutoffIndexInRange(crossCut, |cutObj|);
      var t := cutObj[CutoffIndex(crossCut, |cutObj|)];
      assert t in multiset(cutObj);
    }
  }

  /** A successful Python index lands on an element of the list. */
  lemma PyIndexIn(s: seq<real>, i: int)
    requires PyIndex(s, i).Some?
    ensures PyIndex(s, i).value in multiset(s)
  {
    if 0 <= i < |s| {
      assert s[i] in s;
    } else {
      assert s[|s| + i] in s;
    }
  }

  /**
   * The threshold exceeds `minDiff` whenever the library has a cut; for an empty
   * library it is the fallback 1.
   */
  lemma {:induction false} CrossCutThresholdAboveMinDiff(library: seq<seq<CutEntry>>, minDiff: real, crossCut: real)
    requires CrossCutThreshold(library, minDiff, crossCut).Some?
    ensures var t := CrossCutThreshold(library, minDiff, crossCut).value;
            t > minDiff || (CutMagnitudes(library, minDiff) == [] && t == 1.0)
  {
    var mags := CutMagnitudes(library, minDiff);
    var cutObj := SortAscending(mags);
    SortAscendingCorrect(mags);
    CutMagnitudesAbove(library, minDiff);
    if cutObj != [] {
      var i := CutoffIndex(crossCut, |cutObj|);
      PyIndexIn(cutObj, i);
      assert PyIndex(cutObj, i).value in mags;
    } else {
      assert |multiset(mags)| == 0;
    }
  }

  /** `[c[id] for c in library if type(c[id]) is tuple and c[id][0] > threshold]` */
  function CandidateColumnCuts(library: seq<seq<CutEntry>>, id: nat, threshold: real): seq<CutEntry>
    requires forall s :: 0 <= s < |library| ==> id < |library[s]|
    decreases |library|
  {
    if library == [] then []
    else
      var last := library[|library| - 1];
      CandidateColumnCuts(library[..|library| - 1], id, threshold) +
      (if CutAbove(last[id], threshold) then [last[id]] else [])
  }

  /** A subproblem owns a candidate when one of its scenarios reported it. */
  predicate Owns(p: Subproblem, c: Candidate)
  {
    exists i :: 0 <= i < |p.scenarioNames| && p.scenarioNames[i] in c.owners
  }

  /**
   * What the ownership test iterates over as written: the scenario object itself for
   * an unbundled tree, but the bundle's scenario NAMES for a bundled one.
   */
  datatype TreeMember = ScenarioObject(name: ScenarioName) | NameString(text: string)

  function GetScenariosAsWritten(p: Subproblem, bundled: bool): (ms: seq<TreeMember>)
    ensures bundled ==> |ms| == |p.scenarioNames| && forall i :: 0 <= i < |ms| ==> ms[i] == NameString(p.scenarioNames[i])
    ensures !bundled ==> ms == [ScenarioObject(p.name)]
  {
    if bundled then seq(|p.scenarioNames|, i requires 0 <= i < |p.scenarioNames| => NameString(p.scenarioNames[i]))
    else [ScenarioObject(p.name)]
  }

  /**
   * The ownership test as written: `scenario._name in s` for every member, stopping at
   * the first hit; reading `_name` of a string is an AttributeError (`Err`).
   */
  function OwnsAsWritten(members: seq<TreeMember>, c: Candidate): Result<bool, string>
    decreases |members|
  {
    if members == [] then Ok(false)
    else match members[0]
      case NameString(_) => Err("AttributeError: 'str' object has no attribute '_name'")
      case ScenarioObject(n) => if n in c.owners then Ok(true) else OwnsAsWritten(members[1..], c)
  }

  /** With bundles, the test as written fails on every bundle that has a scenario. */
  lemma BundledOwnershipFails(p: Subproblem, c: Candidate)
    requires p.scenarioNames != []
    ensures OwnsAsWritten(GetScenariosAsWritten(p, true), c).Err?
  {
  }

  /**
   * The corrected test `Owns` compares names; on an unbundled tree, where a scenario
   * subproblem's only scenario is itself, it agrees with the test as written.
   */
  lemma OwnsAgreesUnbundled(p: Subproblem, c: Candidate)
    requires p.scenarioNames == [p.name]
    ensures OwnsAsWritten(GetScenariosAsWritten(p, false), c) == Ok(Owns(p, c))
  {
    if p.name in c.owners {
      assert p.scenarioNames[0] in c.owners;
    }
  }

  /** The cuts a subproblem receives for candidate `id`. */
  function CandidateCuts(p: Subproblem, cands: seq<Candidate>, feasibleObjectives: seq<Option<real>>,
                         library: seq<seq<CutEntry>>, minDiff: real, crossThreshold: real, id: nat): seq<CutEntry>
    requires id < |cands| && |feasibleObjectives| == |cands| && WellShaped(library, |cands|)
  {
    if Owns(p, cands[id]) then CandidateColumnCuts(library, id, minDiff)
    else if feasibleObjectives[id].None? then CandidateColumnCuts(library, id, crossThreshold)
    else []
  }

  /** The cuts of every candidate for one subproblem, one list per candidate. */
  function CandidateCutLists(p: Subproblem, cands: seq<Candidate>, feasibleObjectives: seq<Option<real>>,
                             library: seq<seq<CutEntry>>, minDiff: real, crossThreshold: real): (parts: seq<seq<CutEntry>>)
    requires |feasibleObjectives| == |cands| && WellShaped(library, |cands|)
    ensures |parts| == |cands|
    ensures forall id :: 0 <= id < |cands| ==>
              parts[id] == CandidateCuts(p, cands, feasibleObjectives, library, minDiff, crossThreshold, id)
  {
    seq(|cands|, id requires 0 <= id < |cands| =>
      CandidateCuts(p, cands, feasibleObjectives, library, minDiff, crossThreshold, id))
  }

  /** The lists joined in order. */
  function Concat(parts: seq<seq<CutEntry>>): seq<CutEntry>
    decreases |parts|
  {
    if parts == [] then [] else Concat(parts[..|parts| - 1]) + parts[|parts| - 1]
  }

  /** An entry is in the joined lists iff it is in one of them. */
  lemma {:induction false} InConcat(parts: seq<seq<CutEntry>>, c: CutEntry)
    ensures c in Concat(parts) <==> exists i :: 0 <= i < |parts| && c in parts[i]
    decreases |parts|
  {
    if parts != [] {
      var init := parts[..|parts| - 1];
      InConcat(init, c);
      assert forall i :: 0 <= i < |init| ==> init[i] == parts[i];
      if c in parts[|parts| - 1] {
        assert 0 <= |parts| - 1 < |parts| && c in parts[|parts| - 1];
      }
    }
  }

  /** The cuts a subproblem receives for the first `n` candidates, in candidate order. */
  function ProblemCuts(p: Subproblem, cands: seq<Candidate>, feasibleObjectives: seq<Option<real>>,
                       library: seq<seq<CutEntry>>, minDiff: real, crossThreshold: real, n: nat): seq<CutEntry>
    requires n <= |cands| && |feasibleObjectives| == |cands| && WellShaped(library, |cands|)
  {
    Concat(CandidateCutLists(p, cands, feasibleObjectives, library, minDiff, crossThreshold)[..n])
  }

  /** One more candidate appends its own cuts. */
  lemma ProblemCutsStep(p: Subproblem, cands: seq<Candidate>, feasibleObjectives: seq<Option<real>>,
                        library: seq<seq<CutEntry>>, minDiff: real, crossThreshold: real, n: nat)
    requires n < |cands| && |feasibleObjectives| == |cands| && WellShaped(library, |cands|)
    ensures ProblemCuts(p, cands, feasibleObjectives, library, minDiff, crossThreshold, n + 1) ==
            ProblemCuts(p, cands, feasibleObjectives, library, minDiff, crossThreshold, n) +
            CandidateCuts(p, cands, feasibleObjectives, library, minDiff, crossThreshold, n)
  {
    var parts := CandidateCutLists(p, cands, feasibleObjectives, library, minDiff, crossThreshold);
    assert parts[..n + 1][..n] == parts[..n];
  }

  /** An entry is in a candidate's column selection iff some row holds it there above the threshold. */
  lemma {:induction false} InCandidateColumnCuts(library: seq<seq<CutEntry>>, id: nat, threshold: real, c: CutEntry)
    requires forall s :: 0 <= s < |library| ==> id < |library[s]|
    ensures c in CandidateColumnCuts(library, id, threshold) <==>
            exists s :: 0 <= s < |library| && library[s][id] == c && CutAbove(c, threshold)
    decreases |library|
  {
    if library != [] {
      var init := library[..|library| - 1];
      InCandidateColumnCuts(init, id, threshold, c);
      if exists s :: 0 <= s < |library| && library[s][id] == c && CutAbove(c, threshold) {
        var s :| 0 <= s < |library| && library[s][id] == c && CutAbove(c, threshold);
        if s < |library| - 1 {
          assert init[s][id] == c;
        }
      }
    }
  }

  /**
   * Routing, both directions: a subproblem receives a library entry exactly when the
   * entry is a cut of some candidate it owns with magnitude above `minDiff`, or a
   * cut of a globally infeasible candidate it does not own with magnitude above the
   * cross-cut threshold.
   */
  lemma ProblemCutsRouting(p: Subproblem, cands: seq<Candidate>, feasibleObjectives: seq<Option<real>>,
                           library: seq<seq<CutEntry>>, minDiff: real, crossThreshold: real, c: CutEntry)
    requires |feasibleObjectives| == |cands| && WellShaped(library, |cands|)
    ensures c in ProblemCuts(p, cands, feasibleObjectives, library, minDiff, crossThreshold, |cands|) <==>
            exists id, s :: 0 <= id < |cands| && 0 <= s < |library| && library[s][id] == c &&
              ((Owns(p, cands[id]) && CutAbove(c, minDiff)) ||
               (!Owns(p, cands[id]) && feasibleObjectives[id].None? && CutAbove(c, crossThreshold)))
  {
    var parts := CandidateCutLists(p, cands, feasibleObjectives, library, minDiff, crossThreshold);
    assert parts[..|cands|] == parts;
    InConcat(parts, c);
    forall id | 0 <= id < |cands| {
      InCandidateCuts(p, cands, feasibleObjectives, library, minDiff, crossThreshold, id, c);
    }
  }

  /** The per-candidate half of the routing: which entries of column `id` a subproblem receives. */
  lemma InCandidateCuts(p: Subproblem, cands: seq<Candidate>, feasibleObjectives: seq<Option<real>>,
                        library: seq<seq<CutEntry>>, minDiff: real, crossThreshold: real, id: nat, c: CutEntry)
    requires id < |cands| && |feasibleObjectives| == |cands| && WellShaped(library, |cands|)
    ensures c in CandidateCuts(p, cands, feasibleObjectives, library, minDiff, crossThreshold, id) <==>
            exists s :: 0 <= s < |library| && library[s][id] == c &&
              ((Owns(p, cands[id]) && CutAbove(c, minDiff)) ||
               (!Owns(p, cands[id]) && feasibleObjectives[id].None? && CutAbove(c, crossThreshold)))
  {
    var threshold := if Owns(p, cands[id]) then minDiff else crossThreshold;
    InCandidateColumnCuts(library, id, threshold, c);
  }

  /**
   * Every delivered cut exceeds `minDiff`, provided `minDiff` does not exceed the
   * fallback threshold 1 used for an empty library.
   */
  lemma DeliveredCutsExceedMinDiff(p: Subproblem, cands: seq<Candidate>, feasibleObjectives: seq<Option<real>>,
                                   library: seq<seq<CutEntry>>, minDiff: real, crossCut: real, c: CutEntry)
    requires |feasibleObjectives| == |cands| && WellShaped(library, |cands|)
    requires CrossCutThreshold(library, minDiff, crossCut).Some? && minDiff <= 1.0
    requires c in ProblemCuts(p, cands, feasibleObjectives, library, minDiff,
                              CrossCutThreshold(library, minDiff, crossCut).value, |cands|)
    ensures CutAbove(c, minDiff)
  {
    var t := CrossCutThreshold(library, minDiff, crossCut).value;
    CrossCutThresholdAboveMinDiff(library, minDiff, crossCut);
    ProblemCutsRouting(p, cands, feasibleObjectives, library, minDiff, t, c);
  }

  /** One call to add the cuts to a subproblem: its name, its feasibility cuts and the optimality cuts. */
  datatype CutDelivery = CutDelivery(problem: string, cuts: seq<CutEntry>, optimalityCuts: seq<OptimalityCut>)

  /** The routed feasibility cuts of every subproblem, in subproblem order. */
  function RoutedCuts(problems: seq<Subproblem>, cands: seq<Candidate>, feasibleObjectives: seq<Option<real>>,
                      library: seq<seq<CutEntry>>, minDiff: real, crossThreshold: real): (routed: seq<seq<CutEntry>>)
    requires |feasibleObjectives| == |cands| && WellShaped(library, |cands|)
    ensures |routed| == |problems|
    ensures forall i :: 0 <= i < |problems| ==>
              routed[i] == ProblemCuts(problems[i], cands, feasibleObjectives, library, minDiff, crossThreshold, |cands|)
  {
    seq(|problems|, i requires 0 <= i < |problems| =>
      ProblemCuts(problems[i], cands, feasibleObjectives, library, minDiff, crossThreshold, |cands|))
  }

  /**
   * The deliveries to the first `n` subproblems, in subproblem order; a subproblem
   * with neither feasibility nor optimality cuts to receive is skipped.
   */
  function Deliveries(problems: seq<Subproblem>, routed: seq<seq<CutEntry>>, optimalityCuts: seq<OptimalityCut>, n: nat)
    : seq<CutDelivery>
    requires n <= |problems| == |routed|
    decreases n
  {
    if n == 0 then []
    else
      Deliveries(problems, routed, optimalityCuts, n - 1) +
      (if routed[n - 1] == [] && optimalityCuts == [] then []
       else [CutDelivery(problems[n - 1].name, routed[n - 1], optimalityCuts)])
  }

  /** Every delivery is non-empty and carries one subproblem's routed cuts and all optimality cuts. */
  lemma {:induction false} DeliveriesSound(problems: seq<Subproblem>, routed: seq<seq<CutEntry>>,
                                           optimalityCuts: seq<OptimalityCut>, n: nat)
    requires n <= |problems| == |routed|
    ensures var ds := Deliveries(problems, routed, optimalityCuts, n);
            |ds| <= n &&
            forall k :: 0 <= k < |ds| ==>
              ds[k].optimalityCuts == optimalityCuts && (ds[k].cuts != [] || optimalityCuts != []) &&
              exists i :: 0 <= i < n && ds[k].problem == problems[i].name && ds[k].cuts == routed[i]
    decreases n
  {
    if n > 0 {
      var prev := Deliveries(problems, routed, optimalityCuts, n - 1);
      var ds := Deliveries(problems, routed, optimalityCuts, n);
      DeliveriesSound(problems, routed, optimalityCuts, n - 1);
      forall k | 0 <= k < |ds|
        ensures ds[k].optimalityCuts == optimalityCuts && (ds[k].cuts != [] || optimalityCuts != []) &&
                exists i :: 0 <= i < n && ds[k].problem == problems[i].name && ds[k].cuts == routed[i]
      {
        if k < |prev| {
          assert ds[k] == prev[k];
        } else {
          assert ds[k] == CutDelivery(problems[n - 1].name, routed[n - 1], optimalityCuts);
        }
      }
    }
  }

  /** Every subproblem with something to receive gets its delivery. */
  lemma {:induction false} DeliveriesComplete(problems: seq<Subproblem>, routed: seq<seq<CutEntry>>,
                                              optimalityCuts: seq<OptimalityCut>, n: nat, i: nat)
    requires n <= |problems| == |routed| && i < n
    requires routed[i] != [] || optimalityCuts != []
    ensures CutDelivery(problems[i].name, routed[i], optimalityCuts) in Deliveries(problems, routed, optimalityCuts, n)
    decreases n
  {
    if i < n - 1 {
      DeliveriesComplete(problems, routed, optimalityCuts, n - 1, i);
    }
  }

  /**
   * Every feasibility cut in every delivery exceeds the minimum difference, provided
   * the threshold is the library's cross-cut threshold and `minDiff` does not exceed
   * the fallback threshold 1.
   */
  lemma DeliveriesExceedMinDiff(problems: seq<Subproblem>, cands: seq<Candidate>, feasibleObjectives: seq<Option<real>>,
                                library: seq<seq<CutEntry>>, minDiff: real, crossCut: real,
                                optimalityCuts: seq<OptimalityCut>)
    requires |feasibleObjectives| == |cands| && WellShaped(library, |cands|)
    requires CrossCutThreshold(library, minDiff, crossCut).Some? && minDiff <= 1.0
    ensures var routed := RoutedCuts(problems, cands, feasibleObjectives, library, minDiff,
                                     CrossCutThreshold(library, minDiff, crossCut).value);
            var ds := Deliveries(problems, routed, optimalityCuts, |problems|);
            forall k, c :: 0 <= k < |ds| && c in ds[k].cuts ==> CutAbove(c, minDiff)
  {
    var t := CrossCutThreshold(library, minDiff, crossCut).value;
    var routed := RoutedCuts(problems, cands, feasibleObjectives, library, minDiff, t);
    var ds := Deliveries(problems, routed, optimalityCuts, |problems|);
    DeliveriesSound(problems, routed, optimalityCuts, |problems|);
    forall k, c | 0 <= k < |ds| && c in ds[k].cuts ensures CutAbove(c, minDiff) {
      var i :| 0 <= i < |problems| && ds[k].problem == problems[i].name && ds[k].cuts == routed[i];
      DeliveredCutsExceedMinDiff(problems[i], cands, feasibleObjectives, library, minDiff, crossCut, c);
    }
  }
}
