/** The three movement rules of the whale optimisation algorithm and the
    choice between them (`_compute_A`, `_compute_C`, `_encircle`, `_search`,
    `_attack` and the branch in `optimize`). The random draws are supplied
    as a `Draws` record per member; the Euclidean norm, `exp`, `cos` and pi
    are supplied as a `Numerics` record, since only their use is modelled. */
module Movement {
  import opened Geometry

  /** What `optimize` draws for one member, as unit draws in `[0, 1)`:
      the coin of the branch test, the two entries of the `r` in `_compute_A`,
      the two entries of the `r` in `_compute_C`, the index of the random
      partner of a search, and the two entries behind the spiral's `L`. */
  datatype Draws = Draws(coin: real, rA0: real, rA1: real, rC0: real, rC1: real,
                         pick: nat, uL0: real, uL1: real)

  /** The draws have their ranges, and the partner is an index into a
      population of `n` members (`np.random.randint(n)`). */
  predicate ValidDraws(d: Draws, n: nat) {
    && 0.0 <= d.coin < 1.0
    && 0.0 <= d.rA0 < 1.0 && 0.0 <= d.rA1 < 1.0
    && 0.0 <= d.rC0 < 1.0 && 0.0 <= d.rC1 < 1.0
    && d.pick < n
    && 0.0 <= d.uL0 < 1.0 && 0.0 <= d.uL1 < 1.0
  }

  /** `draws(k)` are the draws made for the member at ranked position `k`. */
  ghost predicate DrawsFor(draws: nat -> Draws, n: nat) {
    forall k: nat :: ValidDraws(draws(k), n)
  }

  /** The floating-point routines the rules call: the Euclidean norm, `exp`,
      `cos` and the constant pi. */
  datatype Numerics = Numerics(norm: seq<real> -> real, exp: real -> real,
                               cos: real -> real, pi: real)

  /** `a * (2r - 1)` lies in `[-|a|, |a|]` when `r` is a unit draw. */
  lemma CoefficientBound(a: real, r: real, x: real)
    requires x == 2.0 * (a * r) - a
    ensures 0.0 <= r < 1.0 ==> x * x <= a * a
  {
    if 0.0 <= r < 1.0 {
      var t := 2.0 * r - 1.0;
      assert -1.0 <= t < 1.0;
      assert t * t <= 1.0 by {
        if t >= 0.0 {
          assert t * t <= t * 1.0;
        } else {
          assert t * t <= (-t) * 1.0;
        }
      }
      assert x == a * t;
      assert (a * t) * (a * t) == (a * a) * (t * t);
      assert (a * a) * (t * t) <= (a * a) * 1.0;
    }
  }

  /** `_compute_A`: `2 * a * r - a` for a fresh unit vector `r`. Each entry
      is at most `a` in magnitude. */
  function ComputeA(a: real, r0: real, r1: real): (A: seq<real>)
    ensures |A| == 2
    ensures 0.0 <= r0 < 1.0 ==> A[0] * A[0] <= a * a
    ensures 0.0 <= r1 < 1.0 ==> A[1] * A[1] <= a * a
    ensures a == 0.0 ==> A == [0.0, 0.0]
  {
    var A0, A1 := 2.0 * (a * r0) - a, 2.0 * (a * r1) - a;
    CoefficientBound(a, r0, A0);
    CoefficientBound(a, r1, A1);
    [A0, A1]
  }

  /** `_compute_C`: twice a fresh unit vector, so each entry is in `[0, 2)`. */
  function ComputeC(r0: real, r1: real): (C: seq<real>)
    ensures |C| == 2
    ensures 0.0 <= r0 < 1.0 && 0.0 <= r1 < 1.0 ==> 0.0 <= C[0] < 2.0 && 0.0 <= C[1] < 2.0
  {
    [2.0 * r0, 2.0 * r1]
  }

  /** `norm(A) < 1.0`, stated on the squared norm. It holds for the zero
      coefficient, and only when both entries lie strictly inside `(-1, 1)`. */
  predicate Explores(A: seq<real>): (r: bool)
    requires |A| == 2
    ensures A == [0.0, 0.0] ==> r
    ensures r ==> -1.0 < A[0] < 1.0 && -1.0 < A[1] < 1.0
  {
    UnitSquare(A[0]);
    UnitSquare(A[1]);
    A[0] * A[0] + A[1] * A[1] < 1.0
  }

  /** A square below one comes from a number strictly inside `(-1, 1)`. */
  lemma UnitSquare(x: real)
    ensures x * x < 1.0 ==> -1.0 < x < 1.0
  {
    if x >= 1.0 {
      assert x * x >= x * 1.0;
    } else if x <= -1.0 {
      assert x * x >= (-x) * 1.0;
    }
  }

  /** While `2a^2 < 1`, the coefficient always passes the `norm(A) < 1` test,
      so the exploration branch always encircles and never searches. */
  lemma {:induction false} SmallCoefficientEncircles(a: real, r0: real, r1: real)
    requires 0.0 <= r0 < 1.0 && 0.0 <= r1 < 1.0
    requires 2.0 * (a * a) < 1.0
    ensures Explores(ComputeA(a, r0, r1))
  {
    var A := ComputeA(a, r0, r1);
    assert A[0] * A[0] + A[1] * A[1] <= 2.0 * (a * a);
  }

  /** `_encircle` (anchor: the best member) and `_search` (anchor: the random
      partner) share one formula: `D = norm(C * anchor - sol)` is a scalar and
      the new point is `anchor - A * D`. The point moves from the anchor along
      `-A` only, so a zero coefficient lands on the anchor. */
  function Approach(sol: Point, anchor: Point, A: seq<real>, C: seq<real>,
                    norm: seq<real> -> real): (r: Point)
    requires |sol| == |anchor| == |A| == |C|
    ensures |r| == |anchor|
    ensures forall i | 0 <= i < |A| :: A[i] == 0.0 ==> r[i] == anchor[i]
  {
    var D := norm(seq(|anchor|, i requires 0 <= i < |anchor| => C[i] * anchor[i] - sol[i]));
    seq(|anchor|, i requires 0 <= i < |anchor| => anchor[i] - A[i] * D)
  }

  /** The spiral parameter `L`: two draws from `[-1, 1)`. */
  function SpiralParameter(d: Draws): (L: seq<real>)
    ensures |L| == 2
    ensures 0.0 <= d.uL0 < 1.0 && 0.0 <= d.uL1 < 1.0 ==>
              -1.0 <= L[0] < 1.0 && -1.0 <= L[1] < 1.0
  {
    [Uniform(-1.0, 1.0, d.uL0), Uniform(-1.0, 1.0, d.uL1)]
  }

  /** `_attack`: with the scalar `D = norm(best - sol)`, coordinate `i` becomes
      `D * exp(b * L[i]) * cos(2 * pi * L[i]) + best[i]`. */
  function Attack(sol: Point, best: Point, b: real, L: seq<real>, num: Numerics): (r: Point)
    requires |sol| == |best| == |L|
    ensures |r| == |best|
  {
    var D := num.norm(seq(|best|, i requires 0 <= i < |best| => best[i] - sol[i]));
    seq(|best|, i requires 0 <= i < |best| =>
      D * num.exp(b * L[i]) * num.cos(2.0 * num.pi * L[i]) + best[i])
  }

  /** A spiral attack made from the best member itself stays on it, whatever
      `L` is, when the norm of the zero vector is zero. */
  lemma AttackFromBest(best: Point, b: real, L: seq<real>, num: Numerics)
    requires |L| == |best|
    requires num.norm(seq(|best|, i requires 0 <= i < |best| => 0.0)) == 0.0
    ensures Attack(best, best, b, L, num) == best
  {
    assert seq(|best|, i requires 0 <= i < |best| => best[i] - best[i])
        == seq(|best|, i requires 0 <= i < |best| => 0.0);
  }

  /** The unclipped new position of the ranked member `s`: a coin above 0.5
      takes the exploration branch, which encircles `best` when `norm(A) < 1`
      and otherwise searches around the partner `pop[d.pick]`, a member of the
      population as it stood before this generation; a coin at or below 0.5
      makes a spiral attack on `best`. */
  function Move(s: Point, best: Point, pop: seq<Point>, d: Draws,
                a: real, b: real, num: Numerics): (r: Point)
    requires |s| == 2 && |best| == 2
    requires d.pick < |pop| && |pop[d.pick]| == 2
    ensures |r| == 2
  {
    if d.coin > 0.5 then
      var A := ComputeA(a, d.rA0, d.rA1);
      var C := ComputeC(d.rC0, d.rC1);
      if Explores(A) then Approach(s, best, A, C, num.norm)
      else Approach(s, pop[d.pick], A, C, num.norm)
    else
      Attack(s, best, b, SpiralParameter(d), num)
  }

  /** Once `a` has decayed to zero, every exploration move lands exactly on
      the best member. */
  lemma ExplorationAtZeroCoefficient(s: Point, best: Point, pop: seq<Point>, d: Draws,
                                     b: real, num: Numerics)
    requires |s| == 2 && |best| == 2
    requires d.pick < |pop| && |pop[d.pick]| == 2
    requires d.coin > 0.5
    ensures Move(s, best, pop, d, 0.0, b, num) == best
  {
    var A := ComputeA(0.0, d.rA0, d.rA1);
    assert Explores(A);
  }

  /** While `2a^2 < 1` no move of the exploration branch uses the random
      partner: it is an encircling of `best`. */
  lemma ExplorationWithSmallCoefficient(s: Point, best: Point, pop: seq<Point>, d: Draws,
                                        a: real, b: real, num: Numerics)
    requires |s| == 2 && |best| == 2
    requires ValidDraws(d, |pop|) && |pop[d.pick]| == 2
    requires d.coin > 0.5 && 2.0 * (a * a) < 1.0
    ensures Move(s, best, pop, d, a, b, num)
         == Approach(s, best, ComputeA(a, d.rA0, d.rA1), ComputeC(d.rC0, d.rC1), num.norm)
  {
    SmallCoefficientEncircles(a, d.rA0, d.rA1);
  }
}
