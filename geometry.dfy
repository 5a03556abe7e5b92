/** Points of the search space, the per-dimension constraint box, clipping a
    point into the box and drawing the initial population inside it
    (`_constrain_solution` and `_init_solutions` of WhaleOptimization). */
module Geometry {

  /** A candidate solution: one coordinate per dimension. */
  type Point = seq<real>

  /** One `[low, high]` constraint pair. */
  datatype Interval = Interval(low: real, high: real)

  /** The constraint list: one interval per dimension. */
  type Box = seq<Interval>

  predicate WellFormed(box: Box) {
    forall d | 0 <= d < |box| :: box[d].low <= box[d].high
  }

  /** `p` has one coordinate per dimension and each lies in its interval. */
  predicate Inside(p: Point, box: Box) {
    |p| == |box| && forall d | 0 <= d < |box| :: box[d].low <= p[d] <= box[d].high
  }

  function Min(x: nat, y: nat): nat {
    if x <= y then x else y
  }

  /** Clipping of one coordinate, with the test for `low` first and the test
      for `high` second. Even for a malformed interval the result is one of
      the coordinate, `low` or `high`. */
  function Clamp(v: real, iv: Interval): (r: real)
    ensures iv.low <= iv.high ==> iv.low <= r <= iv.high
    ensures iv.low <= v <= iv.high ==> r == v
    ensures r == v || r == iv.low || r == iv.high
    ensures iv.low > iv.high ==> r == iv.low || r == iv.high
  {
    if iv.low > v then iv.low
    else if iv.high < v then iv.high
    else v
  }

  /** The clipped point: `zip` stops at the shorter of box and point, and every
      coordinate is clipped into its own interval. */
  function Constrained(box: Box, sol: Point): (r: Point)
    ensures |r| == Min(|box|, |sol|)
    ensures WellFormed(box) && |sol| == |box| ==> Inside(r, box)
    ensures Inside(sol, box) ==> r == sol
  {
    seq(Min(|box|, |sol|), d requires 0 <= d < Min(|box|, |sol|) => Clamp(sol[d], box[d]))
  }

  /** Clipping twice is clipping once. */
  lemma ConstrainedIdempotent(box: Box, sol: Point)
    requires WellFormed(box)
    ensures Constrained(box, Constrained(box, sol)) == Constrained(box, sol)
  {
    var r := Constrained(box, sol);
    forall d | 0 <= d < |r|
      ensures Clamp(r[d], box[d]) == r[d]
    {
      assert box[d].low <= r[d] <= box[d].high;
    }
  }

  /** `_constrain_solution`: walks the constraint pairs and the coordinates
      together and builds the clipped point. */
  method ConstrainSolution(box: Box, sol: Point) returns (r: Point)
    ensures r == Constrained(box, sol)
  {
    r := [];
    var d := 0;
    var n := Min(|box|, |sol|);
    while d < n
      invariant 0 <= d <= n
      invariant |r| == d
      invariant forall k | 0 <= k < d :: r[k] == Clamp(sol[k], box[k])
    {
      var s := sol[d];
      if box[d].low > s {
        s := box[d].low;
      } else if box[d].high < s {
        s := box[d].high;
      }
      r := r + [s];
      d := d + 1;
    }
  }

  /** A uniform draw in `[low, high)` obtained from a unit draw `u` in `[0, 1)`,
      the way `np.random.uniform(low, high)` scales its unit sample. */
  function Uniform(low: real, high: real, u: real): (r: real)
    ensures 0.0 <= u < 1.0 && low <= high ==> low <= r <= high
    ensures 0.0 <= u < 1.0 && low < high ==> r < high
    ensures u == 0.0 ==> r == low
  {
    var width := high - low;
    ScaledUnit(width, u);
    low + width * u
  }

  /** Scaling a unit draw by a non-negative width stays within the width. */
  lemma ScaledUnit(w: real, u: real)
    ensures 0.0 <= u < 1.0 && 0.0 <= w ==> 0.0 <= w * u <= w
    ensures 0.0 <= u < 1.0 && 0.0 < w ==> w * u < w
  {
    if 0.0 <= u < 1.0 && 0.0 <= w {
      assert w * (1.0 - u) >= 0.0;
      if 0.0 < w {
        assert w * (1.0 - u) > 0.0;
      }
    }
  }

  /** `u(d, i)` is the i-th unit draw made for dimension `d`. */
  ghost predicate UnitDraws(u: (nat, nat) -> real) {
    forall d: nat, i: nat :: 0.0 <= u(d, i) < 1.0
  }

  /** The draws for one dimension: `np.random.uniform(c[0], c[1], size=n)`. */
  function Column(iv: Interval, d: nat, n: nat, u: (nat, nat) -> real): seq<real> {
    seq(n, i requires 0 <= i < n => Uniform(iv.low, iv.high, u(d, i)))
  }

  /** `np.stack(cols, axis=-1)`: member `i` takes the i-th entry of every column. */
  function Stack(cols: seq<seq<real>>, n: nat): seq<Point>
    requires forall d | 0 <= d < |cols| :: |cols[d]| == n
  {
    seq(n, i requires 0 <= i < n => seq(|cols|, d requires 0 <= d < |cols| => cols[d][i]))
  }

  /** The initial population: `n` members, coordinate `d` of member `i` drawn
      uniformly from the d-th interval. */
  function InitialPopulation(box: Box, n: nat, u: (nat, nat) -> real): (pop: seq<Point>)
    ensures |pop| == n
    ensures forall p | p in pop :: |p| == |box|
  {
    seq(n, i requires 0 <= i < n =>
      seq(|box|, d requires 0 <= d < |box| => Uniform(box[d].low, box[d].high, u(d, i))))
  }

  /** Every initial member lies inside a well-formed box. */
  lemma InitialPopulationInside(box: Box, n: nat, u: (nat, nat) -> real)
    requires WellFormed(box) && UnitDraws(u)
    ensures forall p | p in InitialPopulation(box, n, u) :: Inside(p, box)
  {
    var pop := InitialPopulation(box, n, u);
    forall p | p in pop
      ensures Inside(p, box)
    {
      var i :| 0 <= i < n && pop[i] == p;
      forall d | 0 <= d < |box|
        ensures box[d].low <= p[d] <= box[d].high
      {
        assert p[d] == Uniform(box[d].low, box[d].high, u(d, i));
        assert 0.0 <= u(d, i) < 1.0;
      }
    }
  }

  /** `_init_solutions`: one column of draws per constraint pair, stacked into
      `n` points. `np.stack` refuses an empty list, hence a non-empty box. */
  method InitSolutions(box: Box, n: nat, u: (nat, nat) -> real) returns (sols: seq<Point>)
    requires |box| > 0
    ensures sols == InitialPopulation(box, n, u)
  {
    var cols: seq<seq<real>> := [];
    var d := 0;
    while d < |box|
      invariant 0 <= d <= |box|
      invariant |cols| == d
      invariant forall k | 0 <= k < d :: cols[k] == Column(box[k], k, n, u)
    {
      cols := cols + [Column(box[d], d, n, u)];
      d := d + 1;
    }
    sols := Stack(cols, n);
    assert forall i | 0 <= i < n :: sols[i] == InitialPopulation(box, n, u)[i];
  }
}
