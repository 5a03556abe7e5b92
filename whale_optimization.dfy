/** The `WhaleOptimization` class: a population of 2-D points inside a
    constraint box, ranked each generation by an injected objective, with
    the best member carried over unchanged, every other member moved by one
    of the three rules and clipped into the box, and the coefficient `a`
    decayed by `a_step`. */
module Whale {
  import opened Geometry
  import opened Ranking
  import opened Movement

  /** Every member has the two coordinates the objective is called with. */
  predicate Planar(pop: seq<Point>) {
    forall p | p in pop :: |p| == 2
  }

  /** `zip(opt_func(sols[:, 0], sols[:, 1]), sols)`: each member paired with
      its fitness. */
  function Evaluate(pop: seq<Point>, f: (real, real) -> real): (r: seq<Entry>)
    requires Planar(pop)
    ensures |r| == |pop| && Solutions(r) == pop
  {
    seq(|pop|, i requires 0 <= i < |pop| => Entry(f(pop[i][0], pop[i][1]), pop[i]))
  }

  /** The evaluated entries are exactly the members paired with their own
      fitness. */
  lemma EvaluateMember(pop: seq<Point>, f: (real, real) -> real, x: Entry)
    requires Planar(pop)
    ensures x in Evaluate(pop, f) <==> x.sol in pop && x.fitness == f(x.sol[0], x.sol[1])
  {
    var s := Evaluate(pop, f);
    if x.sol in pop && x.fitness == f(x.sol[0], x.sol[1]) {
      var k :| 0 <= k < |pop| && pop[k] == x.sol;
      assert s[k] == x;
    }
  }

  /** What `_rank_solutions` returns: the members best first, led by the
      solution of the best evaluated entry. */
  function RankedPopulation(pop: seq<Point>, f: (real, real) -> real, maximize: bool): (r: seq<Point>)
    requires Planar(pop)
    ensures |r| == |pop| && Planar(r)
    ensures pop != [] ==> r[0] == Rank(Evaluate(pop, f), maximize)[0].sol
  {
    SolutionsRank(Evaluate(pop, f), maximize);
    var r := Solutions(Rank(Evaluate(pop, f), maximize));
    assert forall p | p in r :: p in multiset(pop);
    r
  }

  /** The ranked population is a permutation of the population. */
  lemma RankedPopulationPermutes(pop: seq<Point>, f: (real, real) -> real, maximize: bool)
    requires Planar(pop)
    ensures multiset(RankedPopulation(pop, f, maximize)) == multiset(pop)
  {
    SolutionsRank(Evaluate(pop, f), maximize);
  }

  /** The ranked member at position `k` after moving and clipping. */
  function MovedMember(ranked: seq<Point>, pop: seq<Point>, draws: nat -> Draws, k: nat,
                       a: real, b: real, num: Numerics, box: Box): Point
    requires 0 < k < |ranked| && Planar(ranked) && Planar(pop)
    requires ValidDraws(draws(k), |pop|)
  {
    Constrained(box, Move(ranked[k], ranked[0], pop, draws(k), a, b, num))
  }

  /** The population `optimize` builds from the ranked one: the best member
      unchanged, followed by every other ranked member moved and clipped. The
      random-search partners come from `pop`, the population as it stood
      before the generation. */
  function NextPopulation(ranked: seq<Point>, pop: seq<Point>, draws: nat -> Draws,
                          a: real, b: real, num: Numerics, box: Box): (next: seq<Point>)
    requires ranked != [] && Planar(ranked) && Planar(pop)
    requires DrawsFor(draws, |pop|)
    ensures |next| == |ranked|
    ensures next[0] == ranked[0]
    ensures |box| == 2 ==> Planar(next)
  {
    [ranked[0]] + seq(|ranked| - 1, k requires 0 <= k < |ranked| - 1 =>
                        MovedMember(ranked, pop, draws, k + 1, a, b, num, box))
  }

  lemma NextPopulationMember(ranked: seq<Point>, pop: seq<Point>, draws: nat -> Draws,
                             a: real, b: real, num: Numerics, box: Box, k: nat)
    requires ranked != [] && Planar(ranked) && Planar(pop)
    requires DrawsFor(draws, |pop|)
    requires 0 < k < |ranked|
    ensures NextPopulation(ranked, pop, draws, a, b, num, box)[k]
         == MovedMember(ranked, pop, draws, k, a, b, num, box)
  {
  }

  /** A generation keeps every member inside a well-formed box: the elite
      was inside already and every moved member is clipped. */
  lemma NextPopulationInside(ranked: seq<Point>, pop: seq<Point>, draws: nat -> Draws,
                             a: real, b: real, num: Numerics, box: Box)
    requires ranked != [] && Planar(ranked) && Planar(pop)
    requires DrawsFor(draws, |pop|)
    requires |box| == 2 && WellFormed(box) && Inside(ranked[0], box)
    ensures forall p | p in NextPopulation(ranked, pop, draws, a, b, num, box) :: Inside(p, box)
  {
    var next := NextPopulation(ranked, pop, draws, a, b, num, box);
    forall k | 0 < k < |next|
      ensures Inside(next[k], box)
    {
      NextPopulationMember(ranked, pop, draws, a, b, num, box, k);
    }
    assert forall k | 0 <= k < |next| :: Inside(next[k], box);
  }

  /** With a single member there is nobody to move: the generation gives
      back the same one-point population. */
  lemma SingleMemberStays(p: Point, f: (real, real) -> real, maximize: bool,
                          draws: nat -> Draws, a: real, b: real, num: Numerics, box: Box)
    requires |p| == 2 && DrawsFor(draws, 1)
    ensures NextPopulation(RankedPopulation([p], f, maximize), [p], draws, a, b, num, box) == [p]
  {
    var ranked := RankedPopulation([p], f, maximize);
    RankedPopulationPermutes([p], f, maximize);
    assert ranked[0] in multiset([p]);
  }

  /** Elitism: the best fitness of the next generation is never worse than
      the best fitness of this one, because this generation's best is carried
      over unchanged. */
  lemma EliteNeverWorsens(pop: seq<Point>, f: (real, real) -> real, maximize: bool,
                          draws: nat -> Draws, a: real, b: real, num: Numerics, box: Box)
    requires pop != [] && Planar(pop) && |box| == 2
    requires DrawsFor(draws, |pop|)
    ensures var next := NextPopulation(RankedPopulation(pop, f, maximize), pop, draws, a, b, num, box);
            !Better(Rank(Evaluate(pop, f), maximize)[0].fitness,
                    Rank(Evaluate(next, f), maximize)[0].fitness, maximize)
  {
    var best := Rank(Evaluate(pop, f), maximize)[0];
    RankHead(Evaluate(pop, f), maximize);
    EvaluateMember(pop, f, best);
    var next := NextPopulation(RankedPopulation(pop, f, maximize), pop, draws, a, b, num, box);
    assert next[0] == best.sol;
    EvaluateMember(next, f, best);
    RankHead(Evaluate(next, f), maximize);
  }

  /** Every history entry holds a planar solution and its own fitness. */
  ghost predicate Evaluated(h: seq<Entry>, f: (real, real) -> real) {
    forall e | e in h :: |e.sol| == 2 && e.fitness == f(e.sol[0], e.sol[1])
  }

  /** The history invariant: evaluated entries, fitness never worse from one
      entry to a later one, and the last recorded solution still present in
      the population. */
  ghost predicate HistoryOk(h: seq<Entry>, pop: seq<Point>, f: (real, real) -> real, maximize: bool) {
    && Evaluated(h, f)
    && Improving(h, maximize)
    && (h != [] ==> h[|h| - 1].sol in pop)
  }

  /** Recording the best of a population that still holds the last recorded
      solution keeps the history improving. */
  lemma RecordBest(h: seq<Entry>, pop: seq<Point>, f: (real, real) -> real, maximize: bool)
    requires pop != [] && Planar(pop)
    requires HistoryOk(h, pop, f, maximize)
    ensures HistoryOk(h + [Rank(Evaluate(pop, f), maximize)[0]], pop, f, maximize)
  {
    var top := Rank(Evaluate(pop, f), maximize)[0];
    RankHead(Evaluate(pop, f), maximize);
    EvaluateMember(pop, f, top);
    if h != [] {
      var last := h[|h| - 1];
      assert last in h;
      EvaluateMember(pop, f, last);
      assert !Better(last.fitness, top.fitness, maximize);
    }
    var h' := h + [top];
    forall i, j | 0 <= i < j < |h'|
      ensures !Better(h'[i].fitness, h'[j].fitness, maximize)
    {
      if j == |h| && i < |h| - 1 {
        assert !Better(h[i].fitness, h[|h| - 1].fitness, maximize);
      }
    }
  }

  /** The history stays valid for a new population that starts with the
      last recorded solution. */
  lemma HistoryFollowsElite(h: seq<Entry>, pop: seq<Point>, next: seq<Point>,
                            f: (real, real) -> real, maximize: bool)
    requires HistoryOk(h, pop, f, maximize)
    requires h != [] && next != [] && next[0] == h[|h| - 1].sol
    ensures HistoryOk(h, next, f, maximize)
  {
    assert next[0] in next;
  }

  /** The population invariant: `n` planar members, all inside the box
      whenever the box is well-formed. */
  ghost predicate PopulationOk(pop: seq<Point>, box: Box, n: nat) {
    && |pop| == n && Planar(pop)
    && (WellFormed(box) ==> forall p | p in pop :: Inside(p, box))
  }

  /** A generation keeps the population invariant. */
  lemma GenerationKeepsPopulation(pop: seq<Point>, f: (real, real) -> real, maximize: bool,
                                  draws: nat -> Draws, a: real, b: real, num: Numerics,
                                  box: Box, n: nat)
    requires pop != [] && |box| == 2 && PopulationOk(pop, box, n)
    requires DrawsFor(draws, |pop|)
    ensures PopulationOk(NextPopulation(RankedPopulation(pop, f, maximize), pop, draws, a, b, num, box), box, n)
  {
    var ranked := RankedPopulation(pop, f, maximize);
    if WellFormed(box) {
      RankedPopulationPermutes(pop, f, maximize);
      assert ranked[0] in multiset(pop);
      NextPopulationInside(ranked, pop, draws, a, b, num, box);
    }
  }

  /** The coefficient after `k` generations: `a_step` subtracted once per
      generation. */
  function Decayed(a0: real, step: real, k: nat): (r: real)
    ensures k == 0 ==> r == a0
    ensures 0.0 <= step ==> r <= a0
    ensures step <= 0.0 ==> a0 <= r
  {
    if k == 0 then a0 else Decayed(a0, step, k - 1) - step
  }

  /** The exact decay law: after `k` generations `a = a0 - k * a_step`. */
  lemma {:induction false} DecayLaw(a0: real, step: real, k: nat)
    ensures Decayed(a0, step, k) == a0 - k as real * step
  {
    if k > 0 {
      DecayLaw(a0, step, k - 1);
      assert (k - 1) as real * step + step == k as real * step;
    }
  }

  /** The optimiser's invariant over its population and history: two
      constraint pairs, a valid population of `n` members and a valid
      history. */
  ghost predicate Invariant(box: Box, n: nat, pop: seq<Point>, h: seq<Entry>,
                            f: (real, real) -> real, maximize: bool) {
    && |box| == 2
    && PopulationOk(pop, box, n)
    && HistoryOk(h, pop, f, maximize)
  }

  /** Ranking alone keeps the invariant. */
  lemma RankingKeepsInvariant(box: Box, n: nat, pop: seq<Point>, h: seq<Entry>,
                              f: (real, real) -> real, maximize: bool)
    requires Invariant(box, n, pop, h, f, maximize) && pop != []
    ensures Invariant(box, n, pop, h + [Rank(Evaluate(pop, f), maximize)[0]], f, maximize)
  {
    RecordBest(h, pop, f, maximize);
  }

  /** A whole generation keeps the invariant: the history `h'` grown by the
      best ranked entry and the population `next` made by the movement rules
      satisfy it, and `next` starts with the entry just recorded. */
  lemma GenerationKeepsInvariant(box: Box, n: nat, pop: seq<Point>, h: seq<Entry>,
                                 f: (real, real) -> real, maximize: bool,
                                 draws: nat -> Draws, a: real, b: real, num: Numerics,
                                 h': seq<Entry>, next: seq<Point>)
    requires Invariant(box, n, pop, h, f, maximize) && pop != []
    requires DrawsFor(draws, |pop|)
    requires h' == h + [Rank(Evaluate(pop, f), maximize)[0]]
    requires next == NextPopulation(RankedPopulation(pop, f, maximize), pop, draws, a, b, num, box)
    ensures Invariant(box, n, next, h', f, maximize)
    ensures next[0] == h'[|h'| - 1].sol
  {
    RecordBest(h, pop, f, maximize);
    GenerationKeepsPopulation(pop, f, maximize, draws, a, b, num, box, n);
    HistoryFollowsElite(h', pop, next, f, maximize);
  }

  /** Extending a prefix by one element. */
  lemma PrefixStep(s: seq<Point>, i: nat)
    requires i < |s|
    ensures s[..i + 1] == s[..i] + [s[i]]
  {
  }

  /** The loop of `optimize`: starts the new population with the best ranked
      member and appends every other ranked member, moved by the rule its
      draws select and clipped into the box. `pop` is the population before
      the generation; it is only read, so every random-search partner is an
      old member and never one already moved in this generation. */
  method MoveMembers(ranked: seq<Point>, pop: seq<Point>, draws: nat -> Draws,
                     a: real, b: real, num: Numerics, box: Box) returns (newSols: seq<Point>)
    requires ranked != [] && Planar(ranked) && Planar(pop)
    requires DrawsFor(draws, |pop|)
    ensures newSols == NextPopulation(ranked, pop, draws, a, b, num, box)
  {
    ghost var next := NextPopulation(ranked, pop, draws, a, b, num, box);
    var best := ranked[0];
    newSols := [best];
    var i := 1;
    while i < |ranked|
      invariant 1 <= i <= |ranked|
      invariant newSols == next[..i]
    {
      var s := ranked[i];
      var d := draws(i);
      var newS: Point;
      if d.coin > 0.5 {
        var A := ComputeA(a, d.rA0, d.rA1);
        if Explores(A) {
          newS := Approach(s, best, A, ComputeC(d.rC0, d.rC1), num.norm);
        } else {
          var randomSol := pop[d.pick];
          newS := Approach(s, randomSol, A, ComputeC(d.rC0, d.rC1), num.norm);
        }
      } else {
        newS := Attack(s, best, b, SpiralParameter(d), num);
      }
      assert newS == Move(s, best, pop, d, a, b, num);
      var c := ConstrainSolution(box, newS);
      NextPopulationMember(ranked, pop, draws, a, b, num, box, i);
      assert c == next[i];
      PrefixStep(next, i);
      newSols := newSols + [c];
      i := i + 1;
    }
    assert next[..i] == next;
  }

  class WhaleOptimization {
    const optFunc: (real, real) -> real
    const constraints: Box
    const b: real
    const aStep: real
    const maximize: bool
    var sols: seq<Point>
    var a: real
    var bestSolutions: seq<Entry>

    /** The population size, the initial coefficient and the number of
        completed generations. */
    ghost const nsols: nat
    ghost const a0: real
    ghost var generations: nat

    /** The optimiser's invariant: a constant-size planar population, inside
        the box whenever the box is well-formed; `a` decayed once per
        generation; a history of correctly evaluated entries whose fitness
        never gets worse, whose last solution is still in the population. */
    ghost predicate Valid()
      reads this
    {
      && Invariant(constraints, nsols, sols, bestSolutions, optFunc, maximize)
      && a == Decayed(a0, aStep, generations)
    }

    /** `__init__`: `u(d, i)` is the unit draw behind coordinate `d` of the
        i-th initial member. */
    constructor (optFunc: (real, real) -> real, constraints: Box, nsols: nat,
                 b: real, a: real, aStep: real, u: (nat, nat) -> real, maximize: bool := false)
      requires |constraints| == 2 && UnitDraws(u)
      ensures Valid()
      ensures this.optFunc == optFunc && this.constraints == constraints
      ensures this.b == b && this.aStep == aStep && this.maximize == maximize
      ensures sols == InitialPopulation(constraints, nsols, u)
      ensures this.a == a && bestSolutions == []
      ensures this.nsols == nsols && a0 == a && generations == 0
    {
      this.optFunc := optFunc;
      this.constraints := constraints;
      var initial := InitSolutions(constraints, nsols, u);
      this.sols := initial;
      this.b := b;
      this.a := a;
      this.aStep := aStep;
      this.maximize := maximize;
      this.bestSolutions := [];
      this.nsols := nsols;
      this.a0 := a;
      this.generations := 0;
      new;
      if WellFormed(constraints) {
        InitialPopulationInside(constraints, nsols, u);
      }
    }

    /** `_rank_solutions`: ranks the population best first and appends the
        top `(fitness, solution)` pair to the history. An empty population
        has no top entry: the call fails before appending, reported by `ok`. */
    method RankSolutions() returns (ranked: seq<Point>, ok: bool)
      requires Valid()
      modifies this`bestSolutions
      ensures Valid()
      ensures ok == (sols != [])
      ensures ok ==> ranked == RankedPopulation(sols, optFunc, maximize)
      ensures ok ==> bestSolutions == old(bestSolutions) + [Rank(Evaluate(sols, optFunc), maximize)[0]]
      ensures !ok ==> bestSolutions == old(bestSolutions)
    {
      var solFitness := Evaluate(sols, optFunc);
      var rankedSol := Rank(solFitness, maximize);
      if rankedSol == [] {
        return [], false;
      }
      RankingKeepsInvariant(constraints, nsols, sols, bestSolutions, optFunc, maximize);
      bestSolutions := bestSolutions + [rankedSol[0]];
      ranked, ok := Solutions(rankedSol), true;
    }

    /** `optimize`: one generation. An empty population fails in the ranking
        before anything is changed; `ok` reports whether the generation ran. */
    method Optimize(draws: nat -> Draws, num: Numerics) returns (ok: bool)
      requires Valid() && (sols != [] ==> DrawsFor(draws, |sols|))
      modifies this
      ensures Valid()
      ensures ok == (old(sols) != [])
      ensures !ok ==> sols == old(sols) && a == old(a) && bestSolutions == old(bestSolutions)
                      && generations == old(generations)
      ensures ok ==> bestSolutions == old(bestSolutions) + [Rank(Evaluate(old(sols), optFunc), maximize)[0]]
      ensures ok ==> sols == NextPopulation(RankedPopulation(old(sols), optFunc, maximize), old(sols),
                                            draws, old(a), b, num, constraints)
      ensures ok ==> a == old(a) - aStep && generations == old(generations) + 1
    {
      ghost var pop, h := sols, bestSolutions;
      var ranked;
      ranked, ok := RankSolutions();
      if !ok {
        return;
      }
      assert a - aStep == Decayed(a0, aStep, generations + 1);
      var newSols := MoveMembers(ranked, sols, draws, a, b, num, constraints);
      GenerationKeepsInvariant(constraints, nsols, pop, h, optFunc, maximize,
                               draws, a, b, num, bestSolutions, newSols);
      sols, a, generations := newSols, a - aStep, generations + 1;
    }
  }
}
