# Whale optimisation algorithm — a Dafny model

This project models the `WhaleOptimization` class of the whale optimisation
algorithm (`woa-master/src/whale_optimization.py`). The optimiser keeps:

- a population of 2-D candidate points inside a per-dimension constraint box;
- a coefficient `a` that decays by `a_step` every generation;
- a history that records the best `(fitness, solution)` pair of each generation.

One call of `optimize` does the following:

1. It ranks the population by the objective, best first, in the direction `maximize` selects.
2. It appends the top entry to the history.
3. It keeps the best member unchanged.
4. It moves every other member by one of three rules and clips it back into the box:
   - encircle the best member;
   - search around a random partner;
   - a spiral attack on the best member.
5. It subtracts `a_step` from `a`.

The model is split into four modules:

- `Geometry` (`geometry.dfy`): points, the box, clipping (`_constrain_solution`) and the initial population (`_init_solutions`).
- `Ranking` (`ranking.dfy`): the stable best-first sort of `(fitness, solution)` entries (`sorted(..., key=fitness, reverse=maximize)`) and the best-overall selection over the history.
- `Movement` (`movement.dfy`): `_compute_A`, `_compute_C`, `_encircle`, `_search` and `_attack`, and the branch in `optimize` that chooses between them.
- `Whale` (`whale_optimization.dfy`): the next-generation function, the invariants it keeps, and the class `WhaleOptimization`. The class has:
  - `const` fields for the objective, the constraints, `b`, `a_step` and `maximize`, which are never reassigned;
  - mutable fields `sols`, `a` and `bestSolutions`;
  - ghost fields `nsols`, `a0` and `generations`.

The class invariant `Valid()` says:

- the population has `nsols` planar members;
- when the box is well-formed, every member lies inside it;
- `a` has decayed once per completed generation;
- the history entries carry their own fitness;
- the history's fitness never gets worse;
- the last recorded solution is still a member.

The objective is a parameter `(real, real) -> real`. Every random draw is supplied from outside:

- the initial coordinates come from a unit-draw oracle `u(d, i)`;
- each ranked position `k` gets a `Draws` record from `draws(k)`.

The Euclidean norm, `exp`, `cos` and pi are fields of a `Numerics` record. Only how the rules combine them is modelled.

The model follows the code literally on two points:

- `_attack` draws `L` as a 2-vector (`size=2`), so `L` is not a scalar.
- A constraint pair with `low > high` is not rejected. Clipping then yields `low` or `high`, and the in-box invariant holds only for a well-formed box.

## Model

| member | source | states |
|---|---|---|
| Geometry.Clamp | woa-master/src/whale_optimization.py:50-54 | With `low <= high` the result lies in `[low, high]`. An in-range coordinate is unchanged. The result is always the coordinate, `low` or `high`, and for `low > high` it is `low` or `high`. |
| Geometry.Constrained | woa-master/src/whale_optimization.py:47-55 | The clipped point has `min(|box|, |sol|)` coordinates, as `zip` gives. It lies inside a well-formed box of its dimension. A point already inside is returned unchanged. |
| Geometry.ConstrainedIdempotent | woa-master/src/whale_optimization.py:47-55 | For a well-formed box, clipping twice equals clipping once, also for a point `zip` truncates. |
| Geometry.ConstrainSolution | woa-master/src/whale_optimization.py:47-55 | The loop with its two-way test builds exactly `Constrained(box, sol)`. |
| Geometry.Uniform | woa-master/src/whale_optimization.py:42 | A unit draw scaled to `[low, high]` stays in `[low, high]`, stays below `high` when `low < high`, and a zero draw gives `low`. |
| Geometry.InitialPopulation | woa-master/src/whale_optimization.py:39-45 | `nsols` members, each with one coordinate per constraint pair. |
| Geometry.InitialPopulationInside | woa-master/src/whale_optimization.py:39-45 | Every initial member lies inside a well-formed box. |
| Geometry.InitSolutions | woa-master/src/whale_optimization.py:39-45 | Building one column per constraint pair and stacking the columns gives `InitialPopulation`. |
| Ranking.Rank | woa-master/src/whale_optimization.py:62 | The sorted list has as many entries as the input. |
| Ranking.RankPermutes | woa-master/src/whale_optimization.py:62 | The sorted list is a permutation of the input (same multiset). |
| Ranking.RankRanked | woa-master/src/whale_optimization.py:62 | Best first: no entry is strictly better than an earlier one. Fitness is non-decreasing when minimising and non-increasing when maximising. |
| Ranking.RankStable | woa-master/src/whale_optimization.py:62 | Stability: for every fitness value, the entries of that fitness appear in the same order as in the input, also with `reverse=True`. |
| Ranking.RankUnique | woa-master/src/whale_optimization.py:62 | Any best-first reordering that keeps equal-fitness entries in input order equals `Rank`, so the sort is fully determined. |
| Ranking.RankHead | woa-master/src/whale_optimization.py:62-63 | The top entry of a non-empty input is one of its entries, and no input entry is strictly better. |
| Ranking.RankHeadIsEarliest | woa-master/src/whale_optimization.py:62-63 | The top entry is the first entry in input order among those of the best fitness. |
| Ranking.SolutionsRank | woa-master/src/whale_optimization.py:62-65 | The solutions of the sorted entries are a permutation of the input solutions. |
| Ranking.BestOverall | woa-master/src/whale_optimization.py:75 | The selection is `None` exactly on an empty history (where the source's indexing fails). Otherwise it is a history entry that no history entry beats. |
| Ranking.BestOverallOfImproving | woa-master/src/whale_optimization.py:75 | On a history that never gets worse, the best overall has the fitness of the last entry. It is the earliest entry with that fitness. |
| Ranking.LastIsBest | woa-master/src/whale_optimization.py:75 | In a never-worsening history, an entry nobody beats has the last entry's fitness. |
| Movement.ComputeA | woa-master/src/whale_optimization.py:77-79 | Two entries, each at most `|a|` in magnitude for unit draws. `a = 0` gives the zero vector. |
| Movement.ComputeC | woa-master/src/whale_optimization.py:81-82 | Two entries, each in `[0, 2)` for unit draws. |
| Movement.Explores | woa-master/src/whale_optimization.py:26-27 | The test `norm(A) < 1`: it passes for the zero coefficient, and passing puts both entries strictly inside `(-1, 1)`. |
| Movement.SmallCoefficientEncircles | woa-master/src/whale_optimization.py:25-27 | While `2a^2 < 1`, the test `norm(A) < 1` always passes. |
| Movement.Approach | woa-master/src/whale_optimization.py:84-99 | Encircle and search share one formula: the new point is `anchor - A * D`, with the scalar `D = norm(C * anchor - sol)`. It has the anchor's dimension, and a zero entry of `A` leaves that coordinate on the anchor. |
| Movement.SpiralParameter | woa-master/src/whale_optimization.py:103 | `L` is a 2-vector drawn from `[-1, 1)`. |
| Movement.Attack | woa-master/src/whale_optimization.py:101-104 | The spiral point `D * exp(b L) * cos(2 pi L) + best` has the best member's dimension. |
| Movement.AttackFromBest | woa-master/src/whale_optimization.py:101-104 | An attack made from the best member itself returns the best member, when `norm(0) = 0`. |
| Movement.Move | woa-master/src/whale_optimization.py:24-33 | The unclipped new position is 2-D. It is chosen by the coin (`> 0.5` explores), then by `norm(A) < 1` (encircle, else search around the partner). |
| Movement.ExplorationAtZeroCoefficient | woa-master/src/whale_optimization.py:24-28 | Once `a = 0`, every exploration move lands exactly on the best member. |
| Movement.ExplorationWithSmallCoefficient | woa-master/src/whale_optimization.py:24-31 | While `2a^2 < 1`, exploration always encircles the best member and never uses the random partner. |
| Whale.Evaluate | woa-master/src/whale_optimization.py:58-59 | One entry per member, in population order: the solutions of the entries are the population itself. |
| Whale.EvaluateMember | woa-master/src/whale_optimization.py:58-59 | An entry is in the evaluated list iff its solution is a member and its fitness is the objective at that member. |
| Whale.RankedPopulation | woa-master/src/whale_optimization.py:57-65 | The ranked members keep the population size and the dimension. The first one is the solution of the top evaluated entry. |
| Whale.RankedPopulationPermutes | woa-master/src/whale_optimization.py:57-65 | The ranked members are a permutation of the population. |
| Whale.NextPopulation | woa-master/src/whale_optimization.py:19-36 | The new population has the ranked population's size, starts with the ranked best unchanged, and is 2-D for a 2-D box. |
| Whale.NextPopulationMember | woa-master/src/whale_optimization.py:23-34 | Every later member is its ranked member, moved by its own draws and clipped. The partner comes from the population before the call. |
| Whale.NextPopulationInside | woa-master/src/whale_optimization.py:21-34 | If the elite is inside a well-formed box, every new member is inside it. |
| Whale.SingleMemberStays | woa-master/src/whale_optimization.py:21-36 | With `nsols = 1`, a generation gives back the same single point. |
| Whale.EliteNeverWorsens | woa-master/src/whale_optimization.py:18-21 | The best fitness of the next population is never worse than the best fitness of this one. |
| Whale.RecordBest | woa-master/src/whale_optimization.py:62-63 | Appending the top entry of a population that still holds the last recorded solution keeps the history evaluated and never-worsening. |
| Whale.HistoryFollowsElite | woa-master/src/whale_optimization.py:19-21 | The history stays valid for a new population that starts with the last recorded solution. |
| Whale.GenerationKeepsPopulation | woa-master/src/whale_optimization.py:21-36 | A generation keeps the population size, the dimension and, for a well-formed box, the in-box property. |
| Whale.Decayed | woa-master/src/whale_optimization.py:37 | The coefficient after `k` generations: `a0` itself at zero generations, never above `a0` for a non-negative `a_step` and never below it for a non-positive one. |
| Whale.DecayLaw | woa-master/src/whale_optimization.py:37 | After `k` generations the coefficient is exactly `a0 - k * a_step`. |
| Whale.RankingKeepsInvariant | woa-master/src/whale_optimization.py:62-63 | Recording the top entry keeps the population and history invariant. |
| Whale.GenerationKeepsInvariant | woa-master/src/whale_optimization.py:17-36 | A whole generation keeps the invariant, and the new population starts with the entry just recorded. |
| Whale.MoveMembers | woa-master/src/whale_optimization.py:21-34 | The loop, with the branch of lines 24-33 written inline, builds exactly `NextPopulation`. It reads only the old population, so every search partner is a member from before the call. |
| Whale.WhaleOptimization.constructor | woa-master/src/whale_optimization.py:4-12 | Stores the parameters (`maximize` defaults to `false`), draws the initial population and starts an empty history. The invariant holds, with zero generations and `a0 = a`. |
| Whale.WhaleOptimization.RankSolutions | woa-master/src/whale_optimization.py:57-65 | Returns the ranked members and appends exactly the top entry to the history, touching nothing else. An empty population fails with no change. The invariant is kept. |
| Whale.WhaleOptimization.Optimize | woa-master/src/whale_optimization.py:17-37 | The history grows by exactly the top entry, and the population becomes `NextPopulation` of the ranked old population. `a` drops by exactly `a_step`, and the invariant is kept (size, box, decay law, never-worsening history). An empty population fails with no change. |

## Left out

- `woa-master/run.py` (the command-line driver and its floating-point benchmark objectives) and `simulated_annealing/anneal.py` (a separate script) are not part of this model.
- `get_solutions`: a plain accessor; the `sols` field is readable directly.
- `print_best_solutions`: the printing is left out; only the selection at line 75 is modelled (`Ranking.BestOverall`).
- Floating point: all arithmetic is over exact reals, and NaN and rounding are not modelled.
- Geometry.Uniform: numpy's float rounding, which can return `high` itself, is not modelled.
- Norm, `exp`, `cos` and pi: `np.linalg.norm`, `np.exp`, `np.cos` and `np.pi` are uninterpreted parameters.
- Movement.Explores: the branch test `norm(A) < 1` is stated as `A0^2 + A1^2 < 1`, which is equivalent for the exact Euclidean norm.
- Randomness: every `np.random` draw is an injected value. The order in which one generator produces them is not modelled, and each draw gets its own field.
- Dimensions: the constructor requires exactly two constraint pairs. With a single pair, ranking fails with an `IndexError` at `self._sols[:, 1]` (line 58). With three or more pairs and `nsols = 1` the source runs, since no member is ever moved; with more members the 2-vector coefficients do not broadcast against the points. None of these cases is modelled.
- Geometry.InitSolutions: requires a non-empty constraint list. The source's `np.stack` raises on an empty list.
- Population size: `nsols` is a `nat`. A negative size, which numpy rejects, is not modelled.
- Whale.WhaleOptimization.RankSolutions and Whale.WhaleOptimization.Optimize: the `IndexError` that an empty population raises at `ranked_sol[0]` (line 63) is modelled as `ok = false` with the state unchanged; `Optimize` asks nothing of the draws in that case.
- Whale.WhaleOptimization.Optimize: the search partner's index is drawn from `[0, n)` for a population of `n` members, as `np.random.randint` guarantees. This is required of the supplied draws.
