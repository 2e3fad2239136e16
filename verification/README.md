# NSGA-II dominance and front flattening

This project models two pure building blocks of an NSGA-II multi-objective
optimiser (the Non-dominated Sorting Genetic Algorithm II). It proves what the
repository's tests promise about them.

- `pareto_dominance(i1, i2)` (module `Dominance`, `dominance.dfy`) tests whether
  objective vector `i1` Pareto-dominates `i2` when every objective is minimised.
  That means `i1` is no worse in every objective and strictly better in at least
  one. The model computes it as an element-wise "all `<=`" conjoined with an
  element-wise "any `<`". It is proved equal to the quantified textbook
  definition `Dominates`, and also to "component-wise `<=` and not the same
  vector". The model proves the relation irreflexive, asymmetric and
  transitive. It also proves that a trade-off between two objectives makes two
  vectors incomparable.
- `flatten_fronts(p_obj, fronts)` (module `Fronts`, `fronts.dfy`) turns a front
  assignment into a rank array. A front assignment maps a front rank to the set
  of individual indices in that front. The rank array has one entry per row of
  the objective matrix `p_obj`. The model takes the mapping's iteration order
  as an explicit sequence of its keys. Fronts are visited in that order, and
  each writes its rank at its members' positions in an array of zeros. The
  model proves four things about the result:
  - Entry `i` is the rank of the front containing `i`.
  - The result does not depend on the iteration order.
  - Only the row count of `p_obj` is read.
  - On assignments that have no empty front, flattening has an inverse,
    `FrontsOf`, so distinct assignments of one population that have no empty
    front give distinct rank arrays.

The behaviour of both functions is fixed by the assertions of
`tests/test_pareto_dominance.py` and `tests/test_flatten_fronts.py`; each test
case is restated as a lemma about the model (`Case…`).

## Model

| member | source | states |
|---|---|---|
| Dominance.ParetoDominance | tests/test_pareto_dominance.py:2-33 | true exactly when `i1` is no worse than `i2` in every objective and strictly better in at least one (the reference definition `Dominates`) |
| Dominance.DominanceIsNoWorseAndDifferent | tests/test_pareto_dominance.py:18-33 | dominance holds iff every coordinate of `i1` is `<=` the one of `i2` and the vectors differ |
| Dominance.StrictlyBetterEverywhereDominates | tests/test_pareto_dominance.py:6-9 | a non-empty vector strictly smaller in every objective dominates |
| Dominance.Asymmetric | tests/test_pareto_dominance.py:12-15 | if `i1` dominates `i2` then `i2` does not dominate `i1` |
| Dominance.Irreflexive | tests/test_pareto_dominance.py:18-21 | a vector never dominates an equal vector |
| Dominance.TradeOffIsIncomparable | tests/test_pareto_dominance.py:24-27 | better in one objective and worse in another means neither vector dominates the other |
| Dominance.BetterInOneEqualElsewhereDominates | tests/test_pareto_dominance.py:30-33 | equal in all objectives but one and strictly better there means dominance |
| Dominance.DominatorNeverWorse | tests/test_pareto_dominance.py:12-27 | a dominating vector exceeds the dominated one in no coordinate |
| Dominance.Transitive | tests/test_pareto_dominance.py:6-33 | dominance composes, so it is a strict partial order on vectors of one length |
| Dominance.CaseDominates | tests/test_pareto_dominance.py:6-9 | `[1,2,3]` dominates `[2,3,4]` |
| Dominance.CaseNotDominates | tests/test_pareto_dominance.py:12-15 | `[2,3,4]` does not dominate `[1,2,3]` |
| Dominance.CaseEqual | tests/test_pareto_dominance.py:18-21 | `[1,2,3]` does not dominate `[1,2,3]` |
| Dominance.CasePartialDominance | tests/test_pareto_dominance.py:24-27 | `[1,3,2]` does not dominate `[2,2,3]` |
| Dominance.CaseStrictlyBetterInOne | tests/test_pareto_dominance.py:30-33 | `[1,2,3]` dominates `[1,2,4]` |
| Fronts.FlattenFronts | tests/test_flatten_fronts.py:13-18 | for a partition of the rows into fronts, the result has one entry per row of `p_obj` and entry `i` is the rank of the front holding `i` |
| Fronts.RankIffMember | tests/test_flatten_fronts.py:29-34 | index `i` lies in front `k` exactly when it is a row index whose flattened entry is `k` |
| Fronts.OrderIndependent | tests/test_flatten_fronts.py:37-42 | any two iteration orders of the same fronts give the same rank array |
| Fronts.OnlyRowCountMatters | tests/test_flatten_fronts.py:5-10 | two objective matrices with the same number of rows give the same rank array |
| Fronts.FlattenThenRecover | tests/test_flatten_fronts.py:13-34 | reading the fronts back from the rank array gives the original assignment when no front is empty |
| Fronts.RecoverThenFlatten | tests/test_flatten_fronts.py:13-34 | every rank array induces a partition whose flattening is that array |
| Fronts.DistinctFrontsDistinctRanks | tests/test_flatten_fronts.py:14-33 | different assignments without empty fronts of one population give different rank arrays |
| Fronts.SingleFrontAllOnes | tests/test_flatten_fronts.py:5-10 | one front holding every index flattens to all ones, for any population size |
| Fronts.EmptyPopulation | tests/test_flatten_fronts.py:21-26 | no rows and no fronts flatten to the empty array |
| Fronts.CaseSingleFront | tests/test_flatten_fronts.py:5-10 | `{1: {0,1,2}}` on three rows gives `[1,1,1]` |
| Fronts.CaseMultipleFronts | tests/test_flatten_fronts.py:13-18 | `{1: {0,1}, 2: {2}, 3: {3}}` on four rows gives `[1,1,2,3]` |
| Fronts.CaseDisjointFronts | tests/test_flatten_fronts.py:29-34 | `{1: {0}, 2: {1,2}, 3: {3}}` on four rows gives `[1,2,2,3]` |
| Fronts.CaseUnorderedFronts | tests/test_flatten_fronts.py:37-42 | the same fronts visited as `2, 1, 3` still give `[1,2,2,3]` |

## Left out

- `create_population` (nsga_2/algo.py:4-21) is left out because it draws uniform floating-point random numbers.
- `tasks/gif.py` is left out because it is file-system and image I/O only.
- `tests/test_population.py` is not used as evidence. Its asserts at lines 12-13 never call `.all`, so they hold for every population. Line 11 checks only the row count of `create_population`, which is left out.
- Non-dominated sorting, crowding distance, tournament selection, SBX crossover, polynomial mutation and offspring generation are left out. They lie outside the two functions whose behaviour the tests fix. Crowding distance, tournament draws, SBX crossover and polynomial mutation also need random or real arithmetic; non-dominated sorting is deterministic and compares objective vectors only.
- Dominance.ParetoDominance: objective values are modelled as integers, as in the tests. The implementation works on numpy arrays, usually of floats, and NaN and infinities are not modelled.
- Dominance.ParetoDominance: requires vectors of equal length. numpy broadcasting of mismatched shapes is not modelled.
- Fronts.FlattenFronts: requires the fronts to partition the row indices, as every test input does. The body starts from an array of zeros; overlapping fronts and unassigned indices are excluded by the requires, so no rank is promised for them.
- Fronts.FlattenFronts: the dict's iteration order is an explicit parameter, because Dafny maps have no order.
- Fronts.FlattenFronts: the objective matrix is modelled as a sequence of integer rows, of which only the row count is read. Front ranks are not required to be at least 1 or contiguous, because flattening does not depend on either.
