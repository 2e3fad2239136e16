/**
 Front assignments of an NSGA-II population and their flattening into a
 per-individual rank array (`flatten_fronts`).

 A front assignment maps a front rank to the set of indices of the
 individuals in that front. Flattening visits the fronts in the mapping's
 iteration order, a sequence of its keys passed in explicitly here, and
 writes the rank of each front at the positions of its members, starting
 from an array of zeros with one entry per row of the objective matrix.
 */
module Fronts {

  type FrontAssignment = map<nat, set<nat>>

  /** Index `i` lies in some front. */
  ghost predicate Covered(fronts: FrontAssignment, i: nat) {
    exists k :: k in fronts && i in fronts[k]
  }

  /** The fronts partition the indices `0..n-1`: each index lies in exactly one front. */
  ghost predicate IsPartition(fronts: FrontAssignment, n: nat) {
    && (forall k, i :: k in fronts && i in fronts[k] ==> i < n)
    && (forall i: nat :: i < n ==> Covered(fronts, i))
    && (forall k1, k2 :: k1 in fronts && k2 in fronts && k1 != k2 ==> fronts[k1] !! fronts[k2])
  }

  /** `order` lists every key of `fronts` exactly once, as iterating a mapping does. */
  ghost predicate IsKeyOrder(order: seq<nat>, fronts: FrontAssignment) {
    && (forall j :: 0 <= j < |order| ==> order[j] in fronts)
    && (forall k :: k in fronts ==> k in order)
    && (forall j1, j2 :: 0 <= j1 < j2 < |order| ==> order[j1] != order[j2])
  }

  /** Every front holds at least one individual. */
  ghost predicate NoEmptyFront(fronts: FrontAssignment) {
    forall k :: k in fronts ==> fronts[k] != {}
  }

  /** The indices `0..n-1` of a population of `n` individuals. */
  function Indices(n: nat): (s: set<nat>)
    ensures forall i: nat :: i in s <==> i < n
  {
    if n == 0 then {} else Indices(n - 1) + {n - 1}
  }

  /** Writes rank `k` at every position of `ranks` whose index is in `front`. */
  function AssignRank(ranks: seq<nat>, k: nat, front: set<nat>): (r: seq<nat>)
    ensures |r| == |ranks|
    ensures forall i :: 0 <= i < |r| && i in front ==> r[i] == k
    ensures forall i :: 0 <= i < |r| && i !in front ==> r[i] == ranks[i]
  {
    seq(|ranks|, i requires 0 <= i < |ranks| => if i in front then k else ranks[i])
  }

  /** The fronts listed in `order`, applied to `ranks` one after the other. */
  function AssignInOrder(ranks: seq<nat>, fronts: FrontAssignment, order: seq<nat>): (r: seq<nat>)
    requires forall j :: 0 <= j < |order| ==> order[j] in fronts
    requires forall k1, k2 :: k1 in order && k2 in order && k1 != k2 ==> fronts[k1] !! fronts[k2]
    ensures |r| == |ranks|
    ensures forall k, i :: k in order && i in fronts[k] && i < |r| ==> r[i] == k
    ensures forall i :: 0 <= i < |r| && (forall k :: k in order ==> i !in fronts[k]) ==> r[i] == ranks[i]
    decreases |order|
  {
    if |order| == 0 then ranks
    else
      var next := AssignRank(ranks, order[0], fronts[order[0]]);
      var r := AssignInOrder(next, fronts, order[1..]);
      assert forall k :: k in order ==> k == order[0] || k in order[1..];
      r
  }

  /**
   `flatten_fronts(p_obj, fronts)`: the rank of every individual, one entry
   per row of `pObj`; `order` is the iteration order of `fronts`.
   */
  function FlattenFronts(pObj: seq<seq<int>>, fronts: FrontAssignment, order: seq<nat>): (r: seq<nat>)
    requires IsPartition(fronts, |pObj|)
    requires IsKeyOrder(order, fronts)
    ensures |r| == |pObj|
    ensures forall k, i :: k in fronts && i in fronts[k] ==> r[i] == k
  {
    AssignInOrder(seq(|pObj|, _ => 0), fronts, order)
  }

  /** The front assignment read back from a rank array: rank `k` holds every index with rank `k`. */
  function FrontsOf(ranks: seq<nat>): (fronts: FrontAssignment)
    ensures forall k :: k in fronts <==> k in ranks
    ensures forall k, i :: k in fronts ==> (i in fronts[k] <==> 0 <= i < |ranks| && ranks[i] == k)
  {
    map k | k in ranks :: set i: nat | i < |ranks| && ranks[i] == k
  }

  /** Which front an index falls in does not depend on the order the fronts are visited in. */
  lemma OrderIndependent(pObj: seq<seq<int>>, fronts: FrontAssignment, o1: seq<nat>, o2: seq<nat>)
    requires IsPartition(fronts, |pObj|)
    requires IsKeyOrder(o1, fronts) && IsKeyOrder(o2, fronts)
    ensures FlattenFronts(pObj, fronts, o1) == FlattenFronts(pObj, fronts, o2)
  {
  }

  /** The objective values are never read: only the number of rows matters. */
  lemma OnlyRowCountMatters(p: seq<seq<int>>, q: seq<seq<int>>, fronts: FrontAssignment, order: seq<nat>)
    requires |p| == |q|
    requires IsPartition(fronts, |p|)
    requires IsKeyOrder(order, fronts)
    ensures FlattenFronts(p, fronts, order) == FlattenFronts(q, fronts, order)
  {
  }

  /** In a flattened partition, index `i` has rank `k` exactly when it lies in front `k`. */
  lemma RankIffMember(pObj: seq<seq<int>>, fronts: FrontAssignment, order: seq<nat>, k: nat, i: nat)
    requires IsPartition(fronts, |pObj|)
    requires IsKeyOrder(order, fronts)
    requires k in fronts
    ensures i in fronts[k] <==> i < |pObj| && FlattenFronts(pObj, fronts, order)[i] == k
  {
    var r := FlattenFronts(pObj, fronts, order);
    if i < |pObj| && r[i] == k {
      assert Covered(fronts, i);
      var k' :| k' in fronts && i in fronts[k'];
      assert r[i] == k';
    }
  }

  /** Flattening loses nothing when no front is empty: the fronts are recovered from the rank array. */
  lemma FlattenThenRecover(pObj: seq<seq<int>>, fronts: FrontAssignment, order: seq<nat>)
    requires IsPartition(fronts, |pObj|)
    requires IsKeyOrder(order, fronts)
    requires NoEmptyFront(fronts)
    ensures FrontsOf(FlattenFronts(pObj, fronts, order)) == fronts
  {
    var r := FlattenFronts(pObj, fronts, order);
    var g := FrontsOf(r);
    forall k | k in fronts
      ensures k in g
    {
      var i :| i in fronts[k];
      assert r[i] == k;
    }
    forall k | k in g
      ensures k in fronts
    {
      var j :| 0 <= j < |r| && r[j] == k;
      assert Covered(fronts, j);
      var k' :| k' in fronts && j in fronts[k'];
      assert r[j] == k';
    }
    assert g.Keys == fronts.Keys;
    forall k | k in fronts
      ensures g[k] == fronts[k]
    {
      forall i: nat
        ensures i in g[k] <==> i in fronts[k]
      {
        RankIffMember(pObj, fronts, order, k, i);
      }
    }
  }

  /** Every rank array is the flattening of the fronts read back from it. */
  lemma RecoverThenFlatten(ranks: seq<nat>, pObj: seq<seq<int>>, order: seq<nat>)
    requires |pObj| == |ranks|
    requires IsKeyOrder(order, FrontsOf(ranks))
    ensures IsPartition(FrontsOf(ranks), |pObj|)
    ensures FlattenFronts(pObj, FrontsOf(ranks), order) == ranks
  {
    var fronts := FrontsOf(ranks);
    forall i: nat | i < |ranks|
      ensures Covered(fronts, i)
    {
      assert ranks[i] in fronts && i in fronts[ranks[i]];
    }
    var r := FlattenFronts(pObj, fronts, order);
    forall i | 0 <= i < |ranks|
      ensures r[i] == ranks[i]
    {
      assert i in fronts[ranks[i]];
    }
  }

  /** Distinct front assignments of one population, when no front is empty, give distinct rank arrays. */
  lemma DistinctFrontsDistinctRanks(pObj: seq<seq<int>>, f1: FrontAssignment, o1: seq<nat>,
                                    f2: FrontAssignment, o2: seq<nat>)
    requires IsPartition(f1, |pObj|) && IsKeyOrder(o1, f1) && NoEmptyFront(f1)
    requires IsPartition(f2, |pObj|) && IsKeyOrder(o2, f2) && NoEmptyFront(f2)
    requires f1 != f2
    ensures FlattenFronts(pObj, f1, o1) != FlattenFronts(pObj, f2, o2)
  {
    FlattenThenRecover(pObj, f1, o1);
    FlattenThenRecover(pObj, f2, o2);
  }

  /** A single front holding everyone gives rank 1 to every individual. */
  lemma SingleFrontAllOnes(pObj: seq<seq<int>>)
    ensures IsPartition(map[1 := Indices(|pObj|)], |pObj|)
    ensures FlattenFronts(pObj, map[1 := Indices(|pObj|)], [1]) == seq(|pObj|, _ => 1)
  {
  }

  /** An empty population with no fronts flattens to the empty array. */
  lemma EmptyPopulation()
    ensures IsPartition(map[], 0) && IsKeyOrder([], map[])
    ensures FlattenFronts([], map[], []) == []
  {
  }

  // The remaining flattening tests, as instances of the model.

  /** Three individuals, all in front 1. */
  lemma CaseSingleFront(pObj: seq<seq<int>>)
    requires |pObj| == 3
    ensures IsPartition(map[1 := {0, 1, 2}], |pObj|)
    ensures FlattenFronts(pObj, map[1 := {0, 1, 2}], [1]) == [1, 1, 1]
  {
  }

  /** Four individuals, fronts `{1: {0, 1}, 2: {2}, 3: {3}}`. */
  lemma CaseMultipleFronts(pObj: seq<seq<int>>)
    requires |pObj| == 4
    ensures IsPartition(map[1 := {0, 1}, 2 := {2}, 3 := {3}], |pObj|)
    ensures FlattenFronts(pObj, map[1 := {0, 1}, 2 := {2}, 3 := {3}], [1, 2, 3]) == [1, 1, 2, 3]
  {
  }

  /** Four individuals, fronts `{1: {0}, 2: {1, 2}, 3: {3}}` visited in key order. */
  lemma CaseDisjointFronts(pObj: seq<seq<int>>)
    requires |pObj| == 4
    ensures IsPartition(map[1 := {0}, 2 := {1, 2}, 3 := {3}], |pObj|)
    ensures FlattenFronts(pObj, map[1 := {0}, 2 := {1, 2}, 3 := {3}], [1, 2, 3]) == [1, 2, 2, 3]
  {
  }

  /** The same fronts written and visited in the order `2, 1, 3`. */
  lemma CaseUnorderedFronts(pObj: seq<seq<int>>)
    requires |pObj| == 4
    ensures IsPartition(map[2 := {1, 2}, 1 := {0}, 3 := {3}], |pObj|)
    ensures FlattenFronts(pObj, map[2 := {1, 2}, 1 := {0}, 3 := {3}], [2, 1, 3]) == [1, 2, 2, 3]
  {
  }
}
