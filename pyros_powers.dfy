/**
 * The decision-rule combinatorics of pyomo.contrib.pyros.util: the
 * stars-and-bars enumeration `partition_powers`, the ordering
 * `sort_partitioned_powers`, and the agreement between the number of
 * coefficients `add_decision_rule_variables` creates and the number
 * `add_decision_rule_constraints` consumes.
 *
 * A power list gives, for each uncertain parameter in order, the exponent of
 * that parameter in one monomial of the polynomial decision rule.
 */
module PyrosPowers {
  import opened Wrappers

  // ---------------------------------------------------------------------------
  // Binomial coefficients

  /** The binomial coefficient, by Pascal's rule. */
  function Binom(n: nat, k: nat): nat
  {
    if k == 0 then 1 else if n == 0 then 0 else Binom(n - 1, k - 1) + Binom(n - 1, k)
  }

  lemma {:induction false} BinomAbove(n: nat, k: nat)
    requires n < k
    ensures Binom(n, k) == 0
  {
    if n > 0 {
      BinomAbove(n - 1, k - 1);
      BinomAbove(n - 1, k);
    }
  }

  lemma {:induction false} BinomDiagonal(n: nat)
    ensures Binom(n, n) == 1
  {
    if n > 0 {
      BinomDiagonal(n - 1);
      BinomAbove(n - 1, n);
    }
  }

  /** Choosing `a` of `a + b` is choosing the `b` left out. */
  lemma {:induction false} BinomSymmetric(a: nat, b: nat)
    ensures Binom(a + b, a) == Binom(a + b, b)
    decreases a + b
  {
    if a == 0 {
      BinomDiagonal(b);
    } else if b == 0 {
      BinomDiagonal(a);
    } else {
      BinomSymmetric(a - 1, b);
      BinomSymmetric(a, b - 1);
      assert Binom(a + b, a) == Binom(a - 1 + b, a - 1) + Binom(a + (b - 1), a);
      assert Binom(a + b, b) == Binom(a + (b - 1), b - 1) + Binom(a - 1 + b, b);
    }
  }

  // ---------------------------------------------------------------------------
  // itertools.combinations over a range

  /** `k` values of `[lo, hi)`, strictly increasing: one tuple `combinations(range(lo, hi), k)` yields. */
  predicate IsCombination(c: seq<nat>, lo: nat, hi: nat, k: nat)
  {
    |c| == k &&
    (forall i :: 0 <= i < |c| ==> lo <= c[i] < hi) &&
    (forall i, j :: 0 <= i < j < |c| ==> c[i] < c[j])
  }

  function Prepend(x: nat, cs: seq<seq<nat>>): (r: seq<seq<nat>>)
    ensures |r| == |cs| && forall i :: 0 <= i < |cs| ==> r[i] == [x] + cs[i]
  {
    seq(|cs|, i requires 0 <= i < |cs| => [x] + cs[i])
  }

  /** `itertools.combinations(range(lo, hi), k)`, in the order it yields them. */
  function Combinations(lo: nat, hi: nat, k: nat): seq<seq<nat>>
    decreases hi - lo, k
  {
    if k == 0 then [[]]
    else if lo >= hi then []
    else Prepend(lo, Combinations(lo + 1, hi, k - 1)) + Combinations(lo + 1, hi, k)
  }

  predicate Distinct<T(==)>(s: seq<T>)
  {
    forall i, j :: 0 <= i < j < |s| ==> s[i] != s[j]
  }

  /** What `combinations` yields are exactly the increasing `k`-tuples of the range. */
  lemma {:induction false} CombinationsExact(lo: nat, hi: nat, k: nat, c: seq<nat>)
    ensures c in Combinations(lo, hi, k) <==> IsCombination(c, lo, hi, k)
    decreases hi - lo, k
  {
    if k == 0 {
      CombinationsOfNone(lo, hi, c);
    } else if lo >= hi {
      CombinationsOfEmptyRange(lo, hi, k, c);
    } else {
      CombinationsExact(lo + 1, hi, k, c);
      if c != [] {
        CombinationsExact(lo + 1, hi, k - 1, c[1..]);
        HeadCombination(lo, hi, k, c);
      }
      CombinationsSplit(lo, hi, k, c);
    }
  }

  /** The one 0-tuple is the empty one. */
  lemma CombinationsOfNone(lo: nat, hi: nat, c: seq<nat>)
    ensures c in Combinations(lo, hi, 0) <==> IsCombination(c, lo, hi, 0)
  {
    assert Combinations(lo, hi, 0) == [[]];
  }

  /** An empty range has no non-empty tuple. */
  lemma CombinationsOfEmptyRange(lo: nat, hi: nat, k: nat, c: seq<nat>)
    requires 0 < k && hi <= lo
    ensures c in Combinations(lo, hi, k) <==> IsCombination(c, lo, hi, k)
  {
    assert Combinations(lo, hi, k) == [];
    if |c| == k {
      assert !(lo <= c[0] < hi);
    }
  }

  /** The step of the membership proof: tuples starting at `lo`, then those of `[lo + 1, hi)`. */
  lemma CombinationsSplit(lo: nat, hi: nat, k: nat, c: seq<nat>)
    requires 0 < k && lo < hi
    requires c in Combinations(lo + 1, hi, k) <==> IsCombination(c, lo + 1, hi, k)
    requires c != [] ==>
               (c in Prepend(lo, Combinations(lo + 1, hi, k - 1)) <==> c[0] == lo && IsCombination(c, lo, hi, k))
    ensures c in Combinations(lo, hi, k) <==> IsCombination(c, lo, hi, k)
  {
    var first := Prepend(lo, Combinations(lo + 1, hi, k - 1));
    var rest := Combinations(lo + 1, hi, k);
    assert Combinations(lo, hi, k) == first + rest;
    if c == [] {
      PrependNonEmpty(lo, Combinations(lo + 1, hi, k - 1));
    } else if IsCombination(c, lo, hi, k) && c[0] != lo {
      assert IsCombination(c, lo + 1, hi, k);
    }
    if c in rest {
      assert IsCombination(c, lo, hi, k);
    }
  }

  /** Prepending leaves no empty tuple. */
  lemma PrependNonEmpty(x: nat, cs: seq<seq<nat>>)
    ensures [] !in Prepend(x, cs)
  {
    var r := Prepend(x, cs);
    forall i | 0 <= i < |r| ensures r[i] != [] {
      assert |r[i]| == 1 + |cs[i]|;
    }
  }

  /** Each tuple `combinations` yields is an increasing `k`-tuple of the range. */
  lemma CombinationAt(lo: nat, hi: nat, k: nat, i: nat)
    requires i < |Combinations(lo, hi, k)|
    ensures IsCombination(Combinations(lo, hi, k)[i], lo, hi, k)
  {
    var cs := Combinations(lo, hi, k);
    assert cs[i] in cs;
    CombinationsExact(lo, hi, k, cs[i]);
  }

  /** The step for a non-empty tuple: it is in the first part exactly when it starts at `lo`. */
  lemma HeadCombination(lo: nat, hi: nat, k: nat, c: seq<nat>)
    requires 0 < k && lo < hi && c != []
    requires c[1..] in Combinations(lo + 1, hi, k - 1) <==> IsCombination(c[1..], lo + 1, hi, k - 1)
    ensures c in Prepend(lo, Combinations(lo + 1, hi, k - 1)) <==> c[0] == lo && IsCombination(c, lo, hi, k)
  {
    if c in Prepend(lo, Combinations(lo + 1, hi, k - 1)) {
      HeadCombinationOf(lo, hi, k, c);
    }
    if c[0] == lo && IsCombination(c, lo, hi, k) {
      HeadCombinationIn(lo, hi, k, c);
    }
  }

  /** A tuple of the first part starts at `lo` and is a tuple of the range. */
  lemma HeadCombinationOf(lo: nat, hi: nat, k: nat, c: seq<nat>)
    requires 0 < k && lo < hi && c != []
    requires c[1..] in Combinations(lo + 1, hi, k - 1) ==> IsCombination(c[1..], lo + 1, hi, k - 1)
    requires c in Prepend(lo, Combinations(lo + 1, hi, k - 1))
    ensures c[0] == lo && IsCombination(c, lo, hi, k)
  {
    var inner := Combinations(lo + 1, hi, k - 1);
    var first := Prepend(lo, inner);
    var i :| 0 <= i < |first| && first[i] == c;
    assert c[1..] == inner[i];
    assert c == [c[0]] + c[1..];
  }

  /** A tuple of the range starting at `lo` is in the first part. */
  lemma HeadCombinationIn(lo: nat, hi: nat, k: nat, c: seq<nat>)
    requires 0 < k && lo < hi && c != []
    requires IsCombination(c[1..], lo + 1, hi, k - 1) ==> c[1..] in Combinations(lo + 1, hi, k - 1)
    requires c[0] == lo && IsCombination(c, lo, hi, k)
    ensures c in Prepend(lo, Combinations(lo + 1, hi, k - 1))
  {
    var inner := Combinations(lo + 1, hi, k - 1);
    var first := Prepend(lo, inner);
    assert IsCombination(c[1..], lo + 1, hi, k - 1);
    var i :| 0 <= i < |inner| && inner[i] == c[1..];
    assert c == [c[0]] + c[1..];
    assert first[i] == c;
  }

  lemma {:induction false} CombinationsDistinct(lo: nat, hi: nat, k: nat)
    ensures Distinct(Combinations(lo, hi, k))
    decreases hi - lo, k
  {
    if k > 0 && lo < hi {
      var inner := Combinations(lo + 1, hi, k - 1);
      var first := Prepend(lo, inner);
      var second := Combinations(lo + 1, hi, k);
      CombinationsDistinct(lo + 1, hi, k - 1);
      CombinationsDistinct(lo + 1, hi, k);
      forall i, j | 0 <= i < j < |first| ensures first[i] != first[j] {
        assert first[i][1..] == inner[i] && first[j][1..] == inner[j];
      }
      forall i, j | 0 <= i < |first| && 0 <= j < |second| ensures first[i] != second[j] {
        CombinationsExact(lo + 1, hi, k, second[j]);
        assert lo + 1 <= second[j][0];
      }
      var all := first + second;
      forall i, j | 0 <= i < j < |all| ensures all[i] != all[j] {
        if j < |first| {
          assert all[i] == first[i] && all[j] == first[j];
        } else if i >= |first| {
          assert all[i] == second[i - |first|] && all[j] == second[j - |first|];
        } else {
          assert all[i] == first[i] && all[j] == second[j - |first|];
        }
      }
    }
  }

  lemma {:induction false} CombinationsCount(lo: nat, hi: nat, k: nat)
    requires lo <= hi
    ensures |Combinations(lo, hi, k)| == Binom(hi - lo, k)
    decreases hi - lo, k
  {
    if k > 0 && lo < hi {
      CombinationsCount(lo + 1, hi, k - 1);
      CombinationsCount(lo + 1, hi, k);
    }
  }

  // ---------------------------------------------------------------------------
  // partition_powers

  /** A list of exponents, one per uncertain parameter. */
  type Powers = seq<int>

  predicate Increasing(s: seq<int>)
  {
    forall i, j :: 0 <= i < j < |s| ==> s[i] < s[j]
  }

  /** One less than each difference of successive starting points: the power of each variable. */
  function Gaps(starts: seq<int>): (r: Powers)
    ensures |starts| > 0 ==> |r| == |starts| - 1
  {
    if |starts| <= 1 then []
    else [starts[1] - starts[0] - 1] + Gaps(starts[1..])
  }

  function Sum(s: seq<int>): int
  {
    if s == [] then 0 else s[0] + Sum(s[1..])
  }

  /** The starting points of groups of sizes `p[i] + 1`, the first at `base`: the inverse of `Gaps`. */
  function StartsFrom(p: Powers, base: int): (r: seq<int>)
    ensures |r| == |p| + 1 && r[0] == base
  {
    [base] + (if p == [] then [] else StartsFrom(p[1..], base + p[0] + 1))
  }

  /** The tuple `partition_powers` builds from one combination: `(0,) + starts + (n + v,)`. */
  function FramedStarts(c: seq<nat>, n: nat, v: nat): seq<int>
  {
    [0] + c + [n + v]
  }

  /** The powers `partition_powers` yields for one combination of starting points. */
  function PowersOf(c: seq<nat>, n: nat, v: nat): Powers
  {
    Gaps(FramedStarts(c, n, v))
  }

  /** partition_powers: `None` for no variables, where `combinations` raises for `r = -1`. */
  function PartitionPowers(n: nat, v: nat): (r: Option<seq<Powers>>)
    ensures r.Some? <==> v >= 1
    ensures r.Some? ==> |r.value| == |Combinations(1, n + v, v - 1)|
  {
    if v == 0 then None
    else
      var cs := Combinations(1, n + v, v - 1);
      Some(seq(|cs|, i requires 0 <= i < |cs| => PowersOf(cs[i], n, v)))
  }

  lemma FramedIncreasing(c: seq<nat>, n: nat, v: nat)
    requires v >= 1 && IsCombination(c, 1, n + v, v - 1)
    ensures Increasing(FramedStarts(c, n, v))
  {
    var s := FramedStarts(c, n, v);
    forall i, j | 0 <= i < j < |s| ensures s[i] < s[j] {
      if 0 < i && j < |s| - 1 {
        assert s[i] == c[i - 1] && s[j] == c[j - 1];
      } else if 0 < i {
        assert s[i] == c[i - 1];
      } else if j < |s| - 1 {
        assert s[j] == c[j - 1];
      }
    }
  }

  lemma {:induction false} GapsShape(s: seq<int>)
    requires Increasing(s) && |s| > 0
    ensures Sum(Gaps(s)) + |s| - 1 == s[|s| - 1] - s[0]
    ensures forall i :: 0 <= i < |Gaps(s)| ==> Gaps(s)[i] >= 0
    decreases |s|
  {
    if |s| > 1 {
      GapsShape(s[1..]);
      forall i | 0 < i < |Gaps(s)| ensures Gaps(s)[i] >= 0 {
        assert Gaps(s)[i] == Gaps(s[1..])[i - 1];
      }
    }
  }

  lemma {:induction false} StartsOfGaps(s: seq<int>)
    requires |s| > 0
    ensures StartsFrom(Gaps(s), s[0]) == s
    decreases |s|
  {
    if |s| > 1 {
      StartsOfGaps(s[1..]);
      assert Gaps(s)[1..] == Gaps(s[1..]);
    }
  }

  lemma {:induction false} GapsOfStarts(p: Powers, base: int)
    ensures Gaps(StartsFrom(p, base)) == p
    decreases |p|
  {
    if p != [] {
      var t := StartsFrom(p[1..], base + p[0] + 1);
      GapsOfStarts(p[1..], base + p[0] + 1);
      var s := StartsFrom(p, base);
      assert s == [base] + t;
      assert s[1..] == t && s[1] == base + p[0] + 1;
      assert Gaps(s) == [p[0]] + Gaps(t);
      assert p == [p[0]] + p[1..];
    }
  }

  predicate NonNegative(p: Powers)
  {
    forall i :: 0 <= i < |p| ==> p[i] >= 0
  }

  lemma {:induction false} StartsFromIncreasing(p: Powers, base: int)
    requires NonNegative(p)
    ensures Increasing(StartsFrom(p, base))
    ensures forall i :: 0 < i < |StartsFrom(p, base)| ==> base < StartsFrom(p, base)[i]
    decreases |p|
  {
    if p != [] {
      var rest := StartsFrom(p[1..], base + p[0] + 1);
      assert NonNegative(p[1..]) by {
        forall i | 0 <= i < |p[1..]| ensures p[1..][i] >= 0 {
          assert p[1..][i] == p[i + 1];
        }
      }
      StartsFromIncreasing(p[1..], base + p[0] + 1);
      var s := StartsFrom(p, base);
      assert s == [base] + rest;
      forall i | 0 < i < |s| ensures base < s[i] {
        assert s[i] == rest[i - 1];
      }
      forall i, j | 0 <= i < j < |s| ensures s[i] < s[j] {
        assert s[j] == rest[j - 1];
        if i > 0 {
          assert s[i] == rest[i - 1];
        }
      }
    }
  }

  lemma {:induction false} StartsFromLast(p: Powers, base: int)
    ensures StartsFrom(p, base)[|p|] == base + Sum(p) + |p|
    decreases |p|
  {
    if p != [] {
      StartsFromLast(p[1..], base + p[0] + 1);
    }
  }

  /** A weak composition of `n` into `v` parts: `v` non-negative powers of total degree `n`. */
  predicate IsComposition(p: Powers, n: nat, v: nat)
  {
    |p| == v && NonNegative(p) && Sum(p) == n
  }

  lemma PowersOfShape(c: seq<nat>, n: nat, v: nat)
    requires v >= 1 && IsCombination(c, 1, n + v, v - 1)
    ensures IsComposition(PowersOf(c, n, v), n, v)
  {
    FramedIncreasing(c, n, v);
    GapsShape(FramedStarts(c, n, v));
  }

  /** The powers determine the combination they came from. */
  lemma PowersOfInjective(c: seq<nat>, d: seq<nat>, n: nat, v: nat)
    requires |c| == |d| == v - 1 && v >= 1
    ensures PowersOf(c, n, v) == PowersOf(d, n, v) ==> c == d
  {
    if PowersOf(c, n, v) == PowersOf(d, n, v) {
      StartsOfGaps(FramedStarts(c, n, v));
      StartsOfGaps(FramedStarts(d, n, v));
      assert c == FramedStarts(c, n, v)[1..v] && d == FramedStarts(d, n, v)[1..v];
    }
  }

  /** The inner points of an increasing sequence lie strictly between its ends, increasing. */
  lemma InnerPoints(s: seq<int>, n: nat, v: nat)
    requires Increasing(s) && |s| == v + 1 && v >= 1 && s[0] == 0 && s[v] == n + v
    ensures forall i :: 1 <= i < v ==> 1 <= s[i] < n + v
    ensures forall i, j :: 1 <= i < j < v ==> s[i] < s[j]
  {
  }

  /** The starting points of a composition's groups run from 0 to `n + v`. */
  lemma CompositionFrame(p: Powers, n: nat, v: nat)
    requires IsComposition(p, n, v)
    ensures Increasing(StartsFrom(p, 0)) && Gaps(StartsFrom(p, 0)) == p
    ensures StartsFrom(p, 0)[0] == 0 && StartsFrom(p, 0)[v] == n + v
  {
    StartsFromIncreasing(p, 0);
    StartsFromLast(p, 0);
    GapsOfStarts(p, 0);
  }

  /** The inner starting points, as the combination they are. */
  function Inner(s: seq<int>, n: nat, v: nat): (c: seq<nat>)
    requires Increasing(s) && |s| == v + 1 && v >= 1 && s[0] == 0 && s[v] == n + v
    ensures IsCombination(c, 1, n + v, v - 1) && FramedStarts(c, n, v) == s
  {
    InnerPoints(s, n, v);
    var c: seq<nat> := seq(v - 1, i requires 0 <= i < v - 1 => s[i + 1]);
    assert s == [s[0]] + c + [s[v]];
    c
  }

  /** Each weak composition comes from a combination: the inner starting points of its groups. */
  lemma CompositionStarts(p: Powers, n: nat, v: nat) returns (c: seq<nat>)
    requires v >= 1 && IsComposition(p, n, v)
    ensures IsCombination(c, 1, n + v, v - 1) && PowersOf(c, n, v) == p
  {
    CompositionFrame(p, n, v);
    c := Inner(StartsFrom(p, 0), n, v);
  }

  /** Every list `partition_powers(n, v)` yields has `v` entries of total `n`. */
  lemma PartitionPowersShape(n: nat, v: nat)
    requires v >= 1
    ensures forall p :: p in PartitionPowers(n, v).value ==> IsComposition(p, n, v)
  {
    var cs := Combinations(1, n + v, v - 1);
    var ps := PartitionPowers(n, v).value;
    forall p | p in ps ensures IsComposition(p, n, v) {
      var i :| 0 <= i < |ps| && ps[i] == p;
      CombinationsExact(1, n + v, v - 1, cs[i]);
      PowersOfShape(cs[i], n, v);
    }
  }

  /** Every weak composition is yielded. */
  lemma PartitionPowersComplete(n: nat, v: nat, p: Powers)
    requires v >= 1 && IsComposition(p, n, v)
    ensures p in PartitionPowers(n, v).value
  {
    var c := CompositionStarts(p, n, v);
    var cs := Combinations(1, n + v, v - 1);
    CombinationsExact(1, n + v, v - 1, c);
    var i :| 0 <= i < |cs| && cs[i] == c;
    assert PartitionPowers(n, v).value[i] == p;
  }

  /** No list is yielded twice. */
  lemma PartitionPowersDistinct(n: nat, v: nat)
    requires v >= 1
    ensures Distinct(PartitionPowers(n, v).value)
  {
    var ps := PartitionPowers(n, v).value;
    forall i, j | 0 <= i < j < |ps| ensures ps[i] != ps[j] {
      PartitionPowersDistinctAt(n, v, i, j);
    }
  }

  /** Two positions of the yielded lists hold different lists. */
  lemma PartitionPowersDistinctAt(n: nat, v: nat, i: nat, j: nat)
    requires v >= 1 && i < j < |PartitionPowers(n, v).value|
    ensures PartitionPowers(n, v).value[i] != PartitionPowers(n, v).value[j]
  {
    var cs := Combinations(1, n + v, v - 1);
    CombinationAt(1, n + v, v - 1, i);
    CombinationAt(1, n + v, v - 1, j);
    CombinationsDistinct(1, n + v, v - 1);
    PartitionPowersAt(n, v, i);
    PartitionPowersAt(n, v, j);
    PowersOfInjective(cs[i], cs[j], n, v);
  }

  /** The list at position `i` is the powers of the `i`-th combination. */
  lemma PartitionPowersAt(n: nat, v: nat, i: nat)
    requires v >= 1 && i < |PartitionPowers(n, v).value|
    ensures PartitionPowers(n, v).value[i] == PowersOf(Combinations(1, n + v, v - 1)[i], n, v)
  {
  }

  /**
   * partition_powers(n, v) yields each weak composition of `n` into `v` parts
   * exactly once, and so C(n + v - 1, v - 1) lists.
   */
  lemma PartitionPowersExact(n: nat, v: nat)
    requires v >= 1
    ensures forall p :: p in PartitionPowers(n, v).value <==> IsComposition(p, n, v)
    ensures Distinct(PartitionPowers(n, v).value)
    ensures |PartitionPowers(n, v).value| == Binom(n + v - 1, v - 1)
  {
    PartitionPowersShape(n, v);
    forall p | IsComposition(p, n, v) ensures p in PartitionPowers(n, v).value {
      PartitionPowersComplete(n, v, p);
    }
    PartitionPowersDistinct(n, v);
    CombinationsCount(1, n + v, v - 1);
  }

  // ---------------------------------------------------------------------------
  // sort_partitioned_powers

  /** Python's `<` on two lists of integers: lexicographic, a proper prefix first. */
  predicate LexLess(a: Powers, b: Powers)
    decreases |a|
  {
    if a == [] then b != []
    else if b == [] then false
    else a[0] < b[0] || (a[0] == b[0] && LexLess(a[1..], b[1..]))
  }

  lemma {:induction false} LexTrichotomy(a: Powers, b: Powers)
    ensures a == b || LexLess(a, b) || LexLess(b, a)
    ensures !(LexLess(a, b) && LexLess(b, a))
    ensures !LexLess(a, a)
    decreases |a|
  {
    if a != [] && b != [] {
      LexTrichotomy(a[1..], b[1..]);
      assert a == [a[0]] + a[1..] && b == [b[0]] + b[1..];
    } else if a != [] {
      LexTrichotomy(a[1..], a[1..]);
    }
  }

  lemma {:induction false} LexTransitive(a: Powers, b: Powers, c: Powers)
    requires LexLess(a, b) && LexLess(b, c)
    ensures LexLess(a, c)
    decreases |a|
  {
    if a != [] && a[0] == b[0] && b[0] == c[0] {
      LexTransitive(a[1..], b[1..], c[1..]);
    }
  }

  /** "Not less than" is transitive, because `<` is a strict total order. */
  lemma NotLessTransitive(a: Powers, b: Powers, c: Powers)
    requires !LexLess(a, b) && !LexLess(b, c)
    ensures !LexLess(a, c)
  {
    LexTrichotomy(a, b);
    LexTrichotomy(b, c);
    LexTrichotomy(a, c);
    if LexLess(a, c) {
      if LexLess(b, a) {
        LexTransitive(b, a, c);
      }
    }
  }

  predicate Descending(s: seq<Powers>)
  {
    forall i, j :: 0 <= i < j < |s| ==> !LexLess(s[i], s[j])
  }

  /** Places `x` before the first list it is not less than. */
  function InsertDescending(x: Powers, s: seq<Powers>): (r: seq<Powers>)
    ensures multiset(r) == multiset(s) + multiset{x}
  {
    if s == [] then [x]
    else if !LexLess(x, s[0]) then [x] + s
    else
      assert s == [s[0]] + s[1..];
      [s[0]] + InsertDescending(x, s[1..])
  }

  /** `sorted(powers_list, reverse=True)`. */
  function SortDescending(s: seq<Powers>): (r: seq<Powers>)
    ensures multiset(r) == multiset(s)
  {
    if s == [] then []
    else
      assert s == [s[0]] + s[1..];
      InsertDescending(s[0], SortDescending(s[1..]))
  }

  lemma DescendingCons(h: Powers, t: seq<Powers>)
    requires Descending(t) && forall y :: y in t ==> !LexLess(h, y)
    ensures Descending([h] + t)
  {
    var s := [h] + t;
    forall i, j | 0 <= i < j < |s| ensures !LexLess(s[i], s[j]) {
      assert s[j] == t[j - 1];
      if i > 0 {
        assert s[i] == t[i - 1];
      }
    }
  }

  lemma {:induction false} InsertDescendingSorted(x: Powers, s: seq<Powers>)
    requires Descending(s)
    ensures Descending(InsertDescending(x, s))
    decreases |s|
  {
    if s != [] {
      if !LexLess(x, s[0]) {
        forall y | y in s ensures !LexLess(x, y) {
          var j :| 0 <= j < |s| && s[j] == y;
          if j > 0 {
            NotLessTransitive(x, s[0], y);
          }
        }
        DescendingCons(x, s);
      } else {
        var rest := InsertDescending(x, s[1..]);
        InsertDescendingSorted(x, s[1..]);
        LexTrichotomy(x, s[0]);
        forall y | y in rest ensures !LexLess(s[0], y) {
          assert y in multiset(rest);
          if y != x {
            assert y in s[1..];
            var j :| 0 <= j < |s[1..]| && s[1..][j] == y;
            assert s[j + 1] == y;
          }
        }
        DescendingCons(s[0], rest);
      }
    }
  }

  lemma {:induction false} SortDescendingSorted(s: seq<Powers>)
    ensures Descending(SortDescending(s))
    decreases |s|
  {
    if s != [] {
      SortDescendingSorted(s[1..]);
      InsertDescendingSorted(s[0], SortDescending(s[1..]));
    }
  }

  /** Python's `max` of a non-empty list. */
  function MaxOf(p: Powers): (m: int)
    requires p != []
    ensures m in p && forall i :: 0 <= i < |p| ==> p[i] <= m
  {
    if |p| == 1 then p[0]
    else
      var rest := MaxOf(p[1..]);
      assert forall i :: 1 <= i < |p| ==> p[i] == p[1..][i - 1];
      if p[0] >= rest then p[0] else rest
  }

  /** The order the two sorts produce: by max, then, for equal max, not lexicographically less. */
  predicate Before(a: Powers, b: Powers)
    requires a != [] && b != []
  {
    MaxOf(a) < MaxOf(b) || (MaxOf(a) == MaxOf(b) && !LexLess(a, b))
  }

  predicate Ordered(s: seq<Powers>)
    requires [] !in s
  {
    forall i, j :: 0 <= i < j < |s| ==> Before(s[i], s[j])
  }

  /** Stable insertion by `max`: `x` goes before the first list whose max is not smaller. */
  function InsertByMax(x: Powers, s: seq<Powers>): (r: seq<Powers>)
    requires x != [] && [] !in s
    ensures multiset(r) == multiset(s) + multiset{x}
  {
    if s == [] then [x]
    else if MaxOf(x) <= MaxOf(s[0]) then [x] + s
    else
      assert s == [s[0]] + s[1..];
      [s[0]] + InsertByMax(x, s[1..])
  }

  /** `sorted(powers_list, key=max)`: a stable sort, so lists with equal max keep their order. */
  function SortByMax(s: seq<Powers>): (r: seq<Powers>)
    requires [] !in s
    ensures multiset(r) == multiset(s)
  {
    if s == [] then []
    else
      assert s == [s[0]] + s[1..];
      var rest := SortByMax(s[1..]);
      assert [] !in multiset(rest);
      InsertByMax(s[0], rest)
  }

  /** sort_partitioned_powers: `None` for the ValueError `max` raises on an empty list. */
  function SortPartitionedPowers(ps: seq<Powers>): Option<seq<Powers>>
  {
    if [] in ps then None
    else
      var d := SortDescending(ps);
      assert [] !in multiset(d);
      Some(SortByMax(d))
  }

  lemma OrderedCons(h: Powers, t: seq<Powers>)
    requires h != [] && [] !in t && Ordered(t)
    requires forall y :: y in t ==> Before(h, y)
    ensures Ordered([h] + t)
  {
    var s := [h] + t;
    forall i, j | 0 <= i < j < |s| ensures Before(s[i], s[j]) {
      assert s[j] == t[j - 1];
      if i > 0 {
        assert s[i] == t[i - 1];
      }
    }
  }

  /** Every list of `s` is after its head, when `s` is ordered. */
  lemma HeadBeforeRest(h: Powers, s: seq<Powers>)
    requires h != [] && [] !in s && Ordered(s) && s != []
    requires MaxOf(h) <= MaxOf(s[0]) && forall y :: y in s ==> !LexLess(h, y)
    ensures forall y :: y in s ==> Before(h, y)
  {
    forall y | y in s ensures Before(h, y) {
      var j :| 0 <= j < |s| && s[j] == y;
      if j > 0 {
        assert Before(s[0], s[j]);
      }
    }
  }

  /** Every list of an insertion into `s[1..]` is after `s[0]`, when `s[0]` has the smaller max. */
  lemma RestAfterHead(x: Powers, s: seq<Powers>, rest: seq<Powers>)
    requires x != [] && [] !in s && Ordered(s) && s != [] && [] !in rest
    requires MaxOf(s[0]) < MaxOf(x) && multiset(rest) == multiset(s[1..]) + multiset{x}
    ensures forall y :: y in rest ==> Before(s[0], y)
  {
    forall y | y in rest ensures Before(s[0], y) {
      assert y in multiset(rest);
      if y != x {
        assert y in s[1..];
        var j :| 0 <= j < |s[1..]| && s[1..][j] == y;
        assert s[j + 1] == y;
      }
    }
  }

  lemma {:induction false} InsertByMaxOrdered(x: Powers, s: seq<Powers>)
    requires x != [] && [] !in s && Ordered(s)
    requires forall y :: y in s ==> !LexLess(x, y)
    ensures [] !in InsertByMax(x, s) && Ordered(InsertByMax(x, s))
    decreases |s|
  {
    assert [] !in multiset(InsertByMax(x, s));
    if s != [] {
      if MaxOf(x) <= MaxOf(s[0]) {
        HeadBeforeRest(x, s);
        OrderedCons(x, s);
      } else {
        var rest := InsertByMax(x, s[1..]);
        InsertByMaxOrdered(x, s[1..]);
        RestAfterHead(x, s, rest);
        OrderedCons(s[0], rest);
      }
    }
  }

  /** The head of a descending sequence is not less than any list of a permutation of its tail. */
  lemma HeadNotLess(s: seq<Powers>, rest: seq<Powers>)
    requires s != [] && Descending(s) && multiset(rest) == multiset(s[1..])
    ensures forall y :: y in rest ==> !LexLess(s[0], y)
  {
    forall y | y in rest ensures !LexLess(s[0], y) {
      assert y in multiset(rest);
      assert y in s[1..];
      var j :| 0 <= j < |s[1..]| && s[1..][j] == y;
      assert s[j + 1] == y;
    }
  }

  lemma {:induction false} SortByMaxOrdered(s: seq<Powers>)
    requires [] !in s && Descending(s)
    ensures [] !in SortByMax(s) && Ordered(SortByMax(s))
    decreases |s|
  {
    assert [] !in multiset(SortByMax(s));
    if s != [] {
      var rest := SortByMax(s[1..]);
      SortByMaxOrdered(s[1..]);
      HeadNotLess(s, rest);
      InsertByMaxOrdered(s[0], rest);
    }
  }

  /**
   * sort_partitioned_powers returns a permutation of its input, ordered by
   * max entry, and within equal max in reverse lexicographic order; it raises
   * exactly when some list is empty.
   */
  lemma SortPartitionedPowersCorrect(ps: seq<Powers>)
    ensures SortPartitionedPowers(ps).None? <==> [] in ps
    ensures SortPartitionedPowers(ps).Some? ==>
              var r := SortPartitionedPowers(ps).value;
              multiset(r) == multiset(ps) && [] !in r &&
              (forall i, j :: 0 <= i < j < |r| ==> MaxOf(r[i]) <= MaxOf(r[j])) &&
              (forall i, j :: 0 <= i < j < |r| && MaxOf(r[i]) == MaxOf(r[j]) ==> !LexLess(r[i], r[j]))
  {
    if [] !in ps {
      var d := SortDescending(ps);
      assert [] !in multiset(d);
      SortDescendingSorted(ps);
      SortByMaxOrdered(d);
    }
  }

  lemma BeforeAntisymmetric(a: Powers, b: Powers)
    requires a != [] && b != [] && Before(a, b) && Before(b, a)
    ensures a == b
  {
    LexTrichotomy(a, b);
  }

  lemma HeadIsFirst(a: seq<Powers>, b: seq<Powers>)
    requires a != [] && [] !in a && [] !in b && Ordered(a) && Ordered(b) && multiset(a) == multiset(b)
    ensures b != [] && Before(b[0], a[0])
  {
    assert a[0] in multiset(b);
    var j :| 0 <= j < |b| && b[j] == a[0];
    if j > 0 {
      assert Before(b[0], b[j]);
    } else {
      LexTrichotomy(a[0], a[0]);
    }
  }

  lemma OrderedTail(a: seq<Powers>)
    requires a != [] && [] !in a && Ordered(a)
    ensures [] !in a[1..] && Ordered(a[1..])
  {
    forall i, j | 0 <= i < j < |a[1..]| ensures Before(a[1..][i], a[1..][j]) {
      assert a[1..][i] == a[i + 1] && a[1..][j] == a[j + 1];
    }
  }

  lemma TailMultiset<T>(a: seq<T>, b: seq<T>)
    requires a != [] && b != [] && a[0] == b[0] && multiset(a) == multiset(b)
    ensures multiset(a[1..]) == multiset(b[1..])
  {
    assert a == [a[0]] + a[1..] && b == [b[0]] + b[1..];
    assert multiset(a[1..]) == multiset(a) - multiset{a[0]};
    assert multiset(b[1..]) == multiset(b) - multiset{b[0]};
  }

  /**
   * Only one arrangement of a collection of power lists is ordered by max and
   * then reverse-lexicographically, so the result does not depend on how the
   * two sorts are carried out.
   */
  lemma {:induction false} OrderedUnique(a: seq<Powers>, b: seq<Powers>)
    requires [] !in a && [] !in b && Ordered(a) && Ordered(b) && multiset(a) == multiset(b)
    ensures a == b
    decreases |a|
  {
    if a == [] {
      assert |b| == |multiset(b)| == 0;
    } else {
      HeadIsFirst(a, b);
      HeadIsFirst(b, a);
      BeforeAntisymmetric(a[0], b[0]);
      TailMultiset(a, b);
      OrderedTail(a);
      OrderedTail(b);
      OrderedUnique(a[1..], b[1..]);
      assert a == [a[0]] + a[1..] && b == [b[0]] + b[1..];
    }
  }

  // ---------------------------------------------------------------------------
  // Decision-rule coefficients

  /** The facts about `partition_powers` that its callers need, without quantifiers. */
  lemma PartitionPowersFacts(n: nat, v: nat)
    requires v >= 1
    ensures [] !in PartitionPowers(n, v).value
    ensures |PartitionPowers(n, v).value| == Binom(n + v - 1, v - 1)
  {
    PartitionPowersExact(n, v);
    assert !IsComposition([], n, v);
  }

  /**
   * The sorted power lists of total degree `n`: one entry of `all_powers`.
   * Neither call raises when there are parameters (`SortedPowersCount`).
   */
  function SortedPowers(n: nat, v: nat): seq<Powers>
  {
    match PartitionPowers(n, v)
    case None => []
    case Some(ps) =>
      match SortPartitionedPowers(ps)
      case None => []
      case Some(sorted) => sorted
  }

  lemma SortedPowersCount(n: nat, v: nat)
    requires v >= 1
    ensures SortPartitionedPowers(PartitionPowers(n, v).value).Some?
    ensures SortedPowers(n, v) == SortPartitionedPowers(PartitionPowers(n, v).value).value
    ensures |SortedPowers(n, v)| == Binom(n + v - 1, v - 1)
  {
    PartitionPowersFacts(n, v);
  }

  /** `all_powers` for a decision rule of degree `degree`: the sorted lists for 1, ..., degree. */
  function AllPowers(degree: nat, v: nat): (r: seq<seq<Powers>>)
    ensures |r| == degree
  {
    if degree == 0 then [] else AllPowers(degree - 1, v) + [SortedPowers(degree, v)]
  }

  /** The lists of `ss`, in order: the nested loop over `all_powers`. */
  function Flatten(ss: seq<seq<Powers>>): seq<Powers>
  {
    if ss == [] then [] else Flatten(ss[..|ss| - 1]) + ss[|ss| - 1]
  }

  lemma FlattenStep(ss: seq<seq<Powers>>, i: nat)
    requires i < |ss|
    ensures Flatten(ss[..i + 1]) == Flatten(ss[..i]) + ss[i]
  {
    assert ss[..i + 1][..i] == ss[..i];
  }

  lemma {:induction false} FlattenPrefix(ss: seq<seq<Powers>>, i: nat)
    requires i <= |ss|
    ensures |Flatten(ss[..i])| <= |Flatten(ss)| && Flatten(ss)[..|Flatten(ss[..i])|] == Flatten(ss[..i])
    decreases |ss|
  {
    if i == |ss| {
      assert ss[..i] == ss;
    } else {
      var init := ss[..|ss| - 1];
      FlattenPrefix(init, i);
      assert init[..i] == ss[..i];
    }
  }

  /** The `j`-th list of `ss[i]` sits at offset `j` after the lists of `ss[..i]`. */
  lemma FlattenIndex(ss: seq<seq<Powers>>, i: nat, j: nat)
    requires i < |ss| && j < |ss[i]|
    ensures |Flatten(ss[..i])| + j < |Flatten(ss)|
    ensures Flatten(ss)[|Flatten(ss[..i])| + j] == ss[i][j]
  {
    FlattenPrefix(ss, i + 1);
    FlattenStep(ss, i);
    var pre := Flatten(ss[..i + 1]);
    assert pre[|Flatten(ss[..i])| + j] == ss[i][j];
    assert Flatten(ss)[|Flatten(ss[..i])| + j] == pre[|Flatten(ss[..i])| + j];
  }

  /** The number of monomials of degree 1 to `degree` in `v` parameters. */
  function TotalPowers(degree: nat, v: nat): nat
    requires v >= 1
  {
    |Flatten(AllPowers(degree, v))|
  }

  /** The number of monomials of degree 1 to `d`, degree by degree. */
  function MonomialCount(d: nat, v: nat): nat
    requires v >= 1
  {
    if d == 0 then 0 else MonomialCount(d - 1, v) + Binom(d + v - 1, v - 1)
  }

  lemma LastPowersCount(d: nat, v: nat)
    requires v >= 1 && d >= 1
    ensures |AllPowers(d, v)[d - 1]| == Binom(d + v - 1, v - 1)
  {
    SortedPowersCount(d, v);
    assert AllPowers(d, v) == AllPowers(d - 1, v) + [SortedPowers(d, v)];
  }

  lemma {:induction false} TotalPowersCount(d: nat, v: nat)
    requires v >= 1
    ensures TotalPowers(d, v) == MonomialCount(d, v)
  {
    if d > 0 {
      TotalPowersCount(d - 1, v);
      var all := AllPowers(d, v);
      assert all[..d - 1] == AllPowers(d - 1, v);
      LastPowersCount(d, v);
    }
  }

  /** The hockey-stick identity: 1 + sum over n = 1..d of C(n + v - 1, v - 1) is C(v + d, d). */
  lemma {:induction false} HockeyStick(d: nat, v: nat)
    requires v >= 1
    ensures 1 + MonomialCount(d, v) == Binom(v + d, d)
  {
    if d > 0 {
      HockeyStick(d - 1, v);
      BinomSymmetric(d, v - 1);
      assert Binom(v + d, d) == Binom(v + d - 1, d - 1) + Binom(v + d - 1, d);
    }
  }

  /**
   * The constant coefficient plus one per monomial of degree 1 to `degree` is
   * C(v + degree, degree) coefficients.
   */
  lemma CoefficientCount(degree: nat, v: nat)
    requires v >= 1
    ensures 1 + TotalPowers(degree, v) == Binom(v + degree, degree)
  {
    TotalPowersCount(degree, v);
    HockeyStick(degree, v);
  }

  /** The exceptions the decision-rule construction can raise. */
  datatype DrError = IndexError | RuntimeError | ValueError

  /**
   * add_decision_rule_variables: the number of coefficients created for each
   * second-stage variable, for `v` uncertain parameters; a ValueError for a
   * degree it does not support.
   */
  function DecisionRuleVarCount(degree: nat, v: nat): (r: Result<nat, DrError>)
    ensures r.Ok? <==> degree <= 4
    ensures r.Err? ==> r.error == ValueError
    ensures r.Ok? ==> r.value == Binom(v + degree, degree)
  {
    if degree == 0 then Ok(1)
    else if degree == 1 then
      assert Binom(v + 1, 1) == v + 1 by {
        BinomUnit(v);
      }
      Ok(v + 1)
    else if degree <= 4 then Ok(Binom(v + degree, degree))
    else Err(ValueError)
  }

  lemma {:induction false} BinomUnit(v: nat)
    ensures Binom(v + 1, 1) == v + 1
  {
    if v > 0 {
      BinomUnit(v - 1);
    }
  }

  /**
   * The coefficients created agree with the coefficients consumed: for degree
   * 1 to 4, one constant plus one per monomial.
   */
  lemma DecisionRuleCountsAgree(degree: nat, v: nat)
    requires 1 <= degree <= 4 && v >= 1
    ensures DecisionRuleVarCount(degree, v) == Ok(1 + TotalPowers(degree, v))
  {
    CoefficientCount(degree, v);
  }

  /** A coefficient times the product of the parameters raised to `powers`. */
  datatype DrTerm = DrTerm(coefficient: nat, powers: Powers)

  /** The expression equated with a second-stage variable: the variable itself for degree 0. */
  datatype DecisionRule = WholeVariable | Polynomial(terms: seq<DrTerm>)

  function Zeros(v: nat): Powers
  {
    seq(v, i => 0)
  }

  function Unit(v: nat, k: nat): Powers
  {
    seq(v, i => if i == k then 1 else 0)
  }

  /** The degree-1 rule: coefficient `j` multiplies parameter `j - 1`, coefficient 0 is the constant. */
  method AffineRule(v: nat, z: seq<nat>) returns (r: Result<DecisionRule, DrError>)
    ensures r.Ok? <==> |z| <= v + 1
    ensures r.Err? ==> r.error == IndexError
    ensures r.Ok? ==>
              r.value.Polynomial? && |r.value.terms| == |z| &&
              forall j :: 0 <= j < |z| ==> r.value.terms[j] == DrTerm(z[j], if j == 0 then Zeros(v) else Unit(v, j - 1))
  {
    var terms: seq<DrTerm> := [];
    for j := 0 to |z|
      invariant j <= v + 1 && |terms| == j
      invariant forall k :: 0 <= k < j ==> terms[k] == DrTerm(z[k], if k == 0 then Zeros(v) else Unit(v, k - 1))
    {
      if j == 0 {
        terms := terms + [DrTerm(z[0], Zeros(v))];
      } else if j - 1 >= v {
        return Err(IndexError);
      } else {
        terms := terms + [DrTerm(z[j], Unit(v, j - 1))];
      }
    }
    return Ok(Polynomial(terms));
  }

  /** The `all_powers` loop: ValueError from `partition_powers` when there are no parameters. */
  method BuildAllPowers(degree: nat, v: nat) returns (r: Result<seq<seq<Powers>>, DrError>)
    requires degree >= 1
    ensures v == 0 ==> r == Err(ValueError)
    ensures v >= 1 ==> r == Ok(AllPowers(degree, v))
  {
    var allPowers: seq<seq<Powers>> := [];
    for n := 1 to degree + 1
      invariant n == 1 || v >= 1
      invariant v >= 1 ==> allPowers == AllPowers(n - 1, v)
    {
      var pp := PartitionPowers(n, v);
      if pp.None? {
        return Err(ValueError);
      }
      SortedPowersCount(n, v);
      var sorted := SortPartitionedPowers(pp.value).value;
      allPowers := allPowers + [sorted];
      assert allPowers == AllPowers(n, v);
    }
    return Ok(allPowers);
  }

  /**
   * The `Z.pop(0)` loop: one coefficient for the constant, then one per power
   * list of `allPowers` in order; IndexError when they run out, RuntimeError
   * when some are left over.
   */
  method PolynomialRule(allPowers: seq<seq<Powers>>, v: nat, z: seq<nat>) returns (r: Result<DecisionRule, DrError>)
    ensures r == Err(IndexError) <==> |z| < 1 + |Flatten(allPowers)|
    ensures r == Err(RuntimeError) <==> |z| > 1 + |Flatten(allPowers)|
    ensures r.Ok? <==> |z| == 1 + |Flatten(allPowers)|
    ensures r.Ok? ==>
              r.value.Polynomial? && |r.value.terms| == |z| && r.value.terms[0] == DrTerm(z[0], Zeros(v)) &&
              forall k :: 0 < k < |z| ==> r.value.terms[k] == DrTerm(z[k], Flatten(allPowers)[k - 1])
  {
    ghost var flat := Flatten(allPowers);
    if |z| == 0 {
      return Err(IndexError);
    }
    var rest := z[1..];
    var terms := [DrTerm(z[0], Zeros(v))];
    ghost var used := 0;
    for i := 0 to |allPowers|
      invariant used == |Flatten(allPowers[..i])| && used <= |flat|
      invariant 1 + used <= |z| && rest == z[1 + used..]
      invariant |terms| == 1 + used && terms[0] == DrTerm(z[0], Zeros(v))
      invariant forall k :: 0 < k <= used ==> terms[k] == DrTerm(z[k], flat[k - 1])
    {
      FlattenStep(allPowers, i);
      FlattenPrefix(allPowers, i + 1);
      for j := 0 to |allPowers[i]|
        invariant used == |Flatten(allPowers[..i])| + j && used <= |flat|
        invariant 1 + used <= |z| && rest == z[1 + used..]
        invariant |terms| == 1 + used && terms[0] == DrTerm(z[0], Zeros(v))
        invariant forall k :: 0 < k <= used ==> terms[k] == DrTerm(z[k], flat[k - 1])
      {
        FlattenIndex(allPowers, i, j);
        if rest == [] {
          return Err(IndexError);
        }
        terms := terms + [DrTerm(rest[0], allPowers[i][j])];
        rest := rest[1..];
        used := used + 1;
      }
    }
    assert allPowers[..|allPowers|] == allPowers;
    if rest != [] {
      return Err(RuntimeError);
    }
    return Ok(Polynomial(terms));
  }

  /**
   * add_decision_rule_constraints for one second-stage variable whose
   * decision-rule variable has coefficients `z`, with `v` uncertain parameters.
   */
  method DecisionRuleEquation(degree: nat, v: nat, z: seq<nat>) returns (r: Result<DecisionRule, DrError>)
    ensures degree == 0 ==> r == Ok(WholeVariable)
    ensures degree == 1 ==> (r.Ok? <==> |z| <= v + 1) && (r.Err? ==> r.error == IndexError)
    ensures degree >= 2 && v == 0 ==> r == Err(ValueError)
    ensures degree >= 2 && v >= 1 ==>
              (r == Err(IndexError) <==> |z| < 1 + TotalPowers(degree, v)) &&
              (r == Err(RuntimeError) <==> |z| > 1 + TotalPowers(degree, v)) &&
              (r.Ok? <==> |z| == 1 + TotalPowers(degree, v))
    ensures degree >= 2 && v >= 1 && r.Ok? ==>
              r.value.Polynomial? && |r.value.terms| == |z| && r.value.terms[0] == DrTerm(z[0], Zeros(v)) &&
              forall k :: 0 < k < |z| ==> r.value.terms[k] == DrTerm(z[k], Flatten(AllPowers(degree, v))[k - 1])
  {
    if degree == 0 {
      r := Ok(WholeVariable);
    } else if degree == 1 {
      r := AffineRule(v, z);
    } else {
      var allPowers := BuildAllPowers(degree, v);
      if allPowers.Err? {
        r := Err(allPowers.error);
      } else {
        r := PolynomialRule(allPowers.value, v, z);
      }
    }
  }
}
