/**
 Pareto dominance between two objective vectors of an NSGA-II population.

 Every objective is minimised. A vector `i1` dominates `i2` when it is no
 worse in every objective and strictly better in at least one. The model
 computes dominance the way a vectorised implementation does, as an
 element-wise "all less-or-equal" test conjoined with an element-wise
 "any strictly less" test, and relates it to the textbook definition.
 */
module Dominance {

  /** Reference definition: no coordinate of `a` exceeds the matching one of `b`. */
  ghost predicate NoWorse(a: seq<int>, b: seq<int>)
    requires |a| == |b|
  {
    forall i :: 0 <= i < |a| ==> a[i] <= b[i]
  }

  /** Reference definition: some coordinate of `a` is strictly below the one of `b`. */
  ghost predicate SomewhereBetter(a: seq<int>, b: seq<int>)
    requires |a| == |b|
  {
    exists i :: 0 <= i < |a| && a[i] < b[i]
  }

  /** Reference definition of Pareto dominance under minimisation. */
  ghost predicate Dominates(a: seq<int>, b: seq<int>)
    requires |a| == |b|
  {
    NoWorse(a, b) && SomewhereBetter(a, b)
  }

  /** Element-wise `all(a <= b)`, one coordinate at a time. */
  function AllLessOrEqual(a: seq<int>, b: seq<int>): (r: bool)
    requires |a| == |b|
    ensures r <==> NoWorse(a, b)
    decreases |a|
  {
    if |a| == 0 then true
    else a[0] <= b[0] && AllLessOrEqual(a[1..], b[1..])
  }

  /** Element-wise `any(a < b)`, one coordinate at a time. */
  function AnyLess(a: seq<int>, b: seq<int>): (r: bool)
    requires |a| == |b|
    ensures r <==> SomewhereBetter(a, b)
    decreases |a|
  {
    if |a| == 0 then false
    else a[0] < b[0] || AnyLess(a[1..], b[1..])
  }

  /** `pareto_dominance(i1, i2)`: does `i1` Pareto-dominate `i2`? */
  function ParetoDominance(i1: seq<int>, i2: seq<int>): (r: bool)
    requires |i1| == |i2|
    ensures r <==> Dominates(i1, i2)
  {
    AllLessOrEqual(i1, i2) && AnyLess(i1, i2)
  }

  /** Dominance is exactly "component-wise no worse, and not the same vector". */
  lemma DominanceIsNoWorseAndDifferent(i1: seq<int>, i2: seq<int>)
    requires |i1| == |i2|
    ensures ParetoDominance(i1, i2) <==> NoWorse(i1, i2) && i1 != i2
  {
  }

  /** A vector strictly better in every (of at least one) objective dominates. */
  lemma StrictlyBetterEverywhereDominates(i1: seq<int>, i2: seq<int>)
    requires |i1| == |i2| > 0
    requires forall i :: 0 <= i < |i1| ==> i1[i] < i2[i]
    ensures ParetoDominance(i1, i2)
  {
  }

  /** Equal vectors never dominate each other: dominance is irreflexive. */
  lemma Irreflexive(i: seq<int>)
    ensures !ParetoDominance(i, i)
  {
  }

  /** Dominance is asymmetric: at most one direction holds. */
  lemma Asymmetric(i1: seq<int>, i2: seq<int>)
    requires |i1| == |i2|
    requires ParetoDominance(i1, i2)
    ensures !ParetoDominance(i2, i1)
  {
    var k :| 0 <= k < |i1| && i1[k] < i2[k];
  }

  /** Dominance is transitive, so it is a strict partial order on vectors of one length. */
  lemma Transitive(a: seq<int>, b: seq<int>, c: seq<int>)
    requires |a| == |b| == |c|
    requires ParetoDominance(a, b) && ParetoDominance(b, c)
    ensures ParetoDominance(a, c)
  {
  }

  /** A trade-off (better in one objective, worse in another) rules out dominance either way. */
  lemma TradeOffIsIncomparable(i1: seq<int>, i2: seq<int>, better: nat, worse: nat)
    requires |i1| == |i2|
    requires better < |i1| && worse < |i1|
    requires i1[better] < i2[better] && i1[worse] > i2[worse]
    ensures !ParetoDominance(i1, i2) && !ParetoDominance(i2, i1)
  {
  }

  /** Equal everywhere except one objective, and strictly better there: dominance. */
  lemma BetterInOneEqualElsewhereDominates(i1: seq<int>, i2: seq<int>, k: nat)
    requires |i1| == |i2| && k < |i1|
    requires i1[k] < i2[k]
    requires forall i :: 0 <= i < |i1| && i != k ==> i1[i] == i2[i]
    ensures ParetoDominance(i1, i2)
  {
  }

  /** A dominating vector exceeds the dominated one in no objective. */
  lemma DominatorNeverWorse(i1: seq<int>, i2: seq<int>, j: nat)
    requires |i1| == |i2| && j < |i1|
    requires ParetoDominance(i1, i2)
    ensures i1[j] <= i2[j]
  {
  }

  // The five assertions of the dominance tests, as instances of the model.

  lemma CaseDominates()
    ensures ParetoDominance([1, 2, 3], [2, 3, 4])
  {
    StrictlyBetterEverywhereDominates([1, 2, 3], [2, 3, 4]);
  }

  lemma CaseNotDominates()
    ensures !ParetoDominance([2, 3, 4], [1, 2, 3])
  {
    CaseDominates();
    Asymmetric([1, 2, 3], [2, 3, 4]);
  }

  lemma CaseEqual()
    ensures !ParetoDominance([1, 2, 3], [1, 2, 3])
  {
    Irreflexive([1, 2, 3]);
  }

  lemma CasePartialDominance()
    ensures !ParetoDominance([1, 3, 2], [2, 2, 3])
  {
    TradeOffIsIncomparable([1, 3, 2], [2, 2, 3], 0, 1);
  }

  lemma CaseStrictlyBetterInOne()
    ensures ParetoDominance([1, 2, 3], [1, 2, 4])
  {
    BetterInOneEqualElsewhereDominates([1, 2, 3], [1, 2, 4], 2);
  }
}
