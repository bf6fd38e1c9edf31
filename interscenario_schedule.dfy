/**
 * When the InterScenario plugin runs: the trigger tested after every PH iteration
 * from the second on, and the recut rule that skips the rho update and forces a
 * re-run at the next iteration.
 */
module InterScenarioSchedule {
  import opened InterScenarioEval
  import opened InterScenarioCuts

  /** `cutCount`: the cuts of the library above the minimum difference. */
  function CutCount(library: seq<seq<CutEntry>>, minDiff: real): nat
  {
    |CutMagnitudes(library, minDiff)|
  }

  /** `subProblemCount`: the number of entries of the library. */
  function EntryCount(library: seq<seq<CutEntry>>): nat
    decreases |library|
  {
    if library == [] then 0 else EntryCount(library[..|library| - 1]) + |library[|library| - 1]|
  }

  lemma {:induction false} RowMagnitudesAtMost(row: seq<CutEntry>, minDiff: real)
    ensures |RowMagnitudes(row, minDiff)| <= |row|
    decreases |row|
  {
    if row != [] {
      RowMagnitudesAtMost(row[..|row| - 1], minDiff);
    }
  }

  /** No more cuts than library entries. */
  lemma {:induction false} CutCountAtMostEntries(library: seq<seq<CutEntry>>, minDiff: real)
    ensures CutCount(library, minDiff) <= EntryCount(library)
    decreases |library|
  {
    if library != [] {
      CutCountAtMostEntries(library[..|library| - 1], minDiff);
      RowMagnitudesAtMost(library[|library| - 1], minDiff);
    }
  }

  /**
   * The recut rule: more cuts than the fraction `recutThreshold` of the
   * cross-scenario pairs (all entries but one per subproblem), with the bound
   * improvement test given as `boundImproved`.
   */
  predicate ShouldRecut(library: seq<seq<CutEntry>>, minDiff: real, recutThreshold: real, boundImproved: bool)
  {
    CutCount(library, minDiff) as real > recutThreshold * (EntryCount(library) - |library|) as real && boundImproved
  }

  /** A library without cuts above the minimum difference never causes a recut. */
  lemma NoCutsNoRecut(library: seq<seq<CutEntry>>, minDiff: real, recutThreshold: real, boundImproved: bool)
    requires recutThreshold >= 0.0 && EntryCount(library) >= |library|
    requires forall s, id :: 0 <= s < |library| && 0 <= id < |library[s]| ==> !CutAbove(library[s][id], minDiff)
    ensures !ShouldRecut(library, minDiff, recutThreshold, boundImproved)
  {
    NoCutMagnitudes(library, minDiff);
    var pairs := (EntryCount(library) - |library|) as real;
    assert recutThreshold * pairs >= 0.0;
  }

  lemma {:induction false} NoCutMagnitudes(library: seq<seq<CutEntry>>, minDiff: real)
    requires forall s, id :: 0 <= s < |library| && 0 <= id < |library[s]| ==> !CutAbove(library[s][id], minDiff)
    ensures CutMagnitudes(library, minDiff) == []
    decreases |library|
  {
    if library != [] {
      var init := library[..|library| - 1];
      assert forall s :: 0 <= s < |init| ==> init[s] == library[s];
      NoCutMagnitudes(init, minDiff);
      NoRowMagnitudes(library[|library| - 1], minDiff);
    }
  }

  lemma {:induction false} NoRowMagnitudes(row: seq<CutEntry>, minDiff: real)
    requires forall id :: 0 <= id < |row| ==> !CutAbove(row[id], minDiff)
    ensures RowMagnitudes(row, minDiff) == []
    decreases |row|
  {
    if row != [] {
      NoRowMagnitudes(row[..|row| - 1], minDiff);
    }
  }

  /** The convergence metric degraded by more than both the relative and the absolute margin. */
  predicate Degraded(curr: real, last: real, relativeDegradation: real, absoluteDegradation: real)
  {
    var delta := curr - last;
    delta > last * relativeDegradation && delta > absoluteDegradation
  }

  /** The trigger after iteration `iteration`: degradation, or `interval` iterations since the last run. */
  predicate ShouldRun(iteration: int, lastRun: int, interval: int, curr: real, last: real,
                      relativeDegradation: real, absoluteDegradation: real)
  {
    Degraded(curr, last, relativeDegradation, absoluteDegradation) || iteration - lastRun >= interval
  }

  /**
   * The recut rewind `lastRun := iteration - interval` makes the trigger fire at every
   * later iteration, whatever the convergence metric does.
   */
  lemma RecutForcesRerun(iteration: int, interval: int, later: int, curr: real, last: real,
                         relativeDegradation: real, absoluteDegradation: real)
    requires later >= iteration
    ensures ShouldRun(later, iteration - interval, interval, curr, last, relativeDegradation, absoluteDegradation)
  {
  }
}
