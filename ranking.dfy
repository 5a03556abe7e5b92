/** Ranking a population by fitness (`_rank_solutions`) and picking the best
    entry of the generation history (`print_best_solutions`). The source uses
    Python's `sorted` with `key=fitness` and `reverse=maximize`: a stable sort
    that keeps members of equal fitness in their original order also when
    `reverse` is set. It is modelled as a stable insertion sort. */
module Ranking {
  import opened Geometry

  /** A `(fitness, solution)` pair. */
  datatype Entry = Entry(fitness: real, sol: Point)

  datatype Option<T> = None | Some(value: T)

  /** `x` is strictly better than `y` in the optimisation direction. */
  predicate Better(x: real, y: real, maximize: bool) {
    if maximize then x > y else x < y
  }

  /** Best first: no entry is strictly better than an entry before it. */
  predicate Ranked(s: seq<Entry>, maximize: bool) {
    forall i, j | 0 <= i < j < |s| :: !Better(s[j].fitness, s[i].fitness, maximize)
  }

  /** The entries of fitness `v`, in their order in `s`. A sort is stable
      exactly when it leaves every such subsequence as it was. */
  function Keep(s: seq<Entry>, v: real): seq<Entry> {
    if s == [] then []
    else (if s[0].fitness == v then [s[0]] else []) + Keep(s[1..], v)
  }

  function Solutions(s: seq<Entry>): seq<Point> {
    seq(|s|, i requires 0 <= i < |s| => s[i].sol)
  }

  /** Places `e` in front of the first entry that is not strictly better. */
  function Insert(e: Entry, s: seq<Entry>, maximize: bool): (r: seq<Entry>)
    ensures |r| == |s| + 1
  {
    if s == [] || !Better(s[0].fitness, e.fitness, maximize) then [e] + s
    else [s[0]] + Insert(e, s[1..], maximize)
  }

  /** Inserting adds `e` and loses nothing. */
  lemma {:induction false} InsertPermutes(e: Entry, s: seq<Entry>, maximize: bool)
    ensures multiset(Insert(e, s, maximize)) == multiset(s) + multiset{e}
  {
    if s != [] && Better(s[0].fitness, e.fitness, maximize) {
      InsertPermutes(e, s[1..], maximize);
      assert s == [s[0]] + s[1..];
    }
  }

  /** `sorted(s, key=fitness, reverse=maximize)`. */
  function Rank(s: seq<Entry>, maximize: bool): (r: seq<Entry>)
    ensures |r| == |s|
  {
    if s == [] then []
    else
      assert s == [s[0]] + s[1..];
      Insert(s[0], Rank(s[1..], maximize), maximize)
  }

  /** The ranking is a permutation of its input. */
  lemma {:induction false} RankPermutes(s: seq<Entry>, maximize: bool)
    ensures multiset(Rank(s, maximize)) == multiset(s)
  {
    if s != [] {
      RankPermutes(s[1..], maximize);
      InsertPermutes(s[0], Rank(s[1..], maximize), maximize);
      assert s == [s[0]] + s[1..];
    }
  }

  /** Every entry after an insertion is the inserted one or an old one. */
  lemma InsertFrom(e: Entry, s: seq<Entry>, maximize: bool)
    ensures forall x | x in Insert(e, s, maximize) :: x == e || x in s
  {
    InsertPermutes(e, s, maximize);
    forall x | x in Insert(e, s, maximize)
      ensures x == e || x in s
    {
      assert x in multiset(Insert(e, s, maximize));
    }
  }

  lemma {:induction false} InsertRanked(e: Entry, s: seq<Entry>, maximize: bool)
    requires Ranked(s, maximize)
    ensures Ranked(Insert(e, s, maximize), maximize)
  {
    if s == [] || !Better(s[0].fitness, e.fitness, maximize) {
    } else {
      var t := Insert(e, s[1..], maximize);
      InsertRanked(e, s[1..], maximize);
      InsertFrom(e, s[1..], maximize);
      forall x | x in t
        ensures !Better(x.fitness, s[0].fitness, maximize)
      {
        if x != e {
          var j :| 0 <= j < |s[1..]| && s[1..][j] == x;
          assert s[j + 1] == x;
        }
      }
      var r := [s[0]] + t;
      forall i, j | 0 <= i < j < |r|
        ensures !Better(r[j].fitness, r[i].fitness, maximize)
      {
        if i == 0 {
          assert r[j] in t;
        } else {
          assert r[i] == t[i - 1] && r[j] == t[j - 1];
        }
      }
    }
  }

  /** The ranking is best first. */
  lemma {:induction false} RankRanked(s: seq<Entry>, maximize: bool)
    ensures Ranked(Rank(s, maximize), maximize)
  {
    if s != [] {
      RankRanked(s[1..], maximize);
      InsertRanked(s[0], Rank(s[1..], maximize), maximize);
    }
  }

  lemma {:induction false} KeepAppend(s: seq<Entry>, t: seq<Entry>, v: real)
    ensures Keep(s + t, v) == Keep(s, v) + Keep(t, v)
  {
    if s == [] {
      assert s + t == t;
    } else {
      var head := if s[0].fitness == v then [s[0]] else [];
      assert (s + t)[0] == s[0] && (s + t)[1..] == s[1..] + t;
      KeepAppend(s[1..], t, v);
      calc {
        Keep(s + t, v);
        head + Keep(s[1..] + t, v);
        head + (Keep(s[1..], v) + Keep(t, v));
        (head + Keep(s[1..], v)) + Keep(t, v);
        Keep(s, v) + Keep(t, v);
      }
    }
  }

  /** Every entry passed over by `Insert` is strictly better than `e`, so `e`
      comes before every entry of its own fitness. */
  lemma {:induction false} InsertKeep(e: Entry, s: seq<Entry>, maximize: bool, v: real)
    ensures Keep(Insert(e, s, maximize), v) == (if e.fitness == v then [e] else []) + Keep(s, v)
  {
    if s == [] || !Better(s[0].fitness, e.fitness, maximize) {
      KeepAppend([e], s, v);
    } else {
      InsertKeep(e, s[1..], maximize, v);
      KeepAppend([s[0]], Insert(e, s[1..], maximize), v);
      assert s[0].fitness != e.fitness;
    }
  }

  /** The ranking is stable: entries of equal fitness keep their order. */
  lemma {:induction false} RankStable(s: seq<Entry>, maximize: bool, v: real)
    ensures Keep(Rank(s, maximize), v) == Keep(s, v)
  {
    if s != [] {
      RankStable(s[1..], maximize, v);
      InsertKeep(s[0], Rank(s[1..], maximize), maximize, v);
    }
  }

  lemma {:induction false} KeepMember(s: seq<Entry>, v: real, x: Entry)
    requires x in Keep(s, v)
    ensures x in s && x.fitness == v
  {
    if s != [] {
      if x != s[0] || s[0].fitness != v {
        KeepMember(s[1..], v, x);
      }
    }
  }

  lemma RankedHeadNotWorse(t: seq<Entry>, maximize: bool, x: Entry)
    requires Ranked(t, maximize) && x in t
    ensures !Better(x.fitness, t[0].fitness, maximize)
  {
    var j :| 0 <= j < |t| && t[j] == x;
    if j > 0 {
      assert !Better(t[j].fitness, t[0].fitness, maximize);
    }
  }

  /** Two best-first sequences with the same entries of every fitness, in
      the same order, are equal. */
  lemma {:induction false} RankedDetermined(t: seq<Entry>, u: seq<Entry>, maximize: bool)
    requires Ranked(t, maximize) && Ranked(u, maximize)
    requires forall v :: Keep(t, v) == Keep(u, v)
    ensures t == u
  {
    if t != [] || u != [] {
      HeadsAgree(t, u, maximize);
      TailsAgree(t, u);
      RankedDetermined(t[1..], u[1..], maximize);
      assert t == [t[0]] + t[1..] && u == [u[0]] + u[1..];
    }
  }

  /** Such sequences are empty together and start with the same entry: the
      head of each is an entry of best fitness, the first one of that fitness. */
  lemma HeadsAgree(t: seq<Entry>, u: seq<Entry>, maximize: bool)
    requires Ranked(t, maximize) && Ranked(u, maximize)
    requires forall v :: Keep(t, v) == Keep(u, v)
    requires t != [] || u != []
    ensures t != [] && u != [] && t[0] == u[0]
  {
    if t != [] {
      assert Keep(t, t[0].fitness) != [];
      assert Keep(u, t[0].fitness) != [];
    }
    if u != [] {
      assert Keep(u, u[0].fitness) != [];
      assert Keep(t, u[0].fitness) != [];
    }
    if t != [] {
      assert u != [];
      var x, y := t[0], u[0];
      assert Keep(u, y.fitness) == [y] + Keep(u[1..], y.fitness);
      KeepMember(t, y.fitness, y);
      RankedHeadNotWorse(t, maximize, y);
      assert Keep(t, x.fitness) == [x] + Keep(t[1..], x.fitness);
      KeepMember(u, x.fitness, x);
      RankedHeadNotWorse(u, maximize, x);
      assert x.fitness == y.fitness;
      assert Keep(u, x.fitness) == [y] + Keep(u[1..], x.fitness);
      assert x == Keep(t, x.fitness)[0] == y;
    }
  }

  /** Dropping the same head from both keeps the entries of every fitness
      equal. */
  lemma TailsAgree(t: seq<Entry>, u: seq<Entry>)
    requires t != [] && u != [] && t[0] == u[0]
    requires forall v :: Keep(t, v) == Keep(u, v)
    ensures forall v :: Keep(t[1..], v) == Keep(u[1..], v)
  {
    var x := t[0];
    forall v
      ensures Keep(t[1..], v) == Keep(u[1..], v)
    {
      assert Keep(t, v) == Keep(u, v);
      assert Keep(t, v) == (if x.fitness == v then [x] else []) + Keep(t[1..], v);
      assert Keep(u, v) == (if x.fitness == v then [x] else []) + Keep(u[1..], v);
      if x.fitness == v {
        assert Keep(t[1..], v) == Keep(t, v)[1..];
        assert Keep(u[1..], v) == Keep(u, v)[1..];
      } else {
        assert [] + Keep(t[1..], v) == Keep(t[1..], v);
        assert [] + Keep(u[1..], v) == Keep(u[1..], v);
      }
    }
  }

  /** `Rank` is the only best-first reordering that keeps equal-fitness
      entries in their original order. */
  lemma RankUnique(s: seq<Entry>, t: seq<Entry>, maximize: bool)
    requires Ranked(t, maximize)
    requires forall v :: Keep(t, v) == Keep(s, v)
    ensures t == Rank(s, maximize)
  {
    RankRanked(s, maximize);
    forall v
      ensures Keep(t, v) == Keep(Rank(s, maximize), v)
    {
      RankStable(s, maximize, v);
    }
    RankedDetermined(t, Rank(s, maximize), maximize);
  }

  /** The head of the ranking is an entry of `s` that no entry of `s` beats. */
  lemma RankHead(s: seq<Entry>, maximize: bool)
    requires s != []
    ensures Rank(s, maximize) != [] && Rank(s, maximize)[0] in s
    ensures forall e | e in s :: !Better(e.fitness, Rank(s, maximize)[0].fitness, maximize)
  {
    var r := Rank(s, maximize);
    RankRanked(s, maximize);
    RankPermutes(s, maximize);
    assert r[0] in multiset(r);
    forall e | e in s
      ensures !Better(e.fitness, r[0].fitness, maximize)
    {
      assert e in multiset(s);
      RankedHeadNotWorse(r, maximize, e);
    }
  }

  /** Among the entries of best fitness, the ranking puts first the one that
      came first in `s`. */
  lemma RankHeadIsEarliest(s: seq<Entry>, maximize: bool)
    requires s != []
    ensures Keep(s, Rank(s, maximize)[0].fitness) != []
    ensures Keep(s, Rank(s, maximize)[0].fitness)[0] == Rank(s, maximize)[0]
  {
    var r := Rank(s, maximize);
    RankStable(s, maximize, r[0].fitness);
    assert Keep(r, r[0].fitness) == [r[0]] + Keep(r[1..], r[0].fitness);
  }

  lemma SolutionsCons(e: Entry, s: seq<Entry>)
    ensures Solutions([e] + s) == [e.sol] + Solutions(s)
  {
  }

  /** The entries of a ranking are those of the input, with their multiplicity. */
  lemma {:induction false} SolutionsInsert(e: Entry, s: seq<Entry>, maximize: bool)
    ensures multiset(Solutions(Insert(e, s, maximize))) == multiset(Solutions(s)) + multiset{e.sol}
  {
    if s == [] || !Better(s[0].fitness, e.fitness, maximize) {
      SolutionsCons(e, s);
    } else {
      SolutionsInsert(e, s[1..], maximize);
      assert s == [s[0]] + s[1..];
      SolutionsCons(s[0], s[1..]);
      SolutionsCons(s[0], Insert(e, s[1..], maximize));
    }
  }

  /** The ranked solutions are a permutation of the input's solutions. */
  lemma {:induction false} SolutionsRank(s: seq<Entry>, maximize: bool)
    ensures multiset(Solutions(Rank(s, maximize))) == multiset(Solutions(s))
  {
    if s != [] {
      SolutionsRank(s[1..], maximize);
      SolutionsInsert(s[0], Rank(s[1..], maximize), maximize);
      assert s == [s[0]] + s[1..];
      SolutionsCons(s[0], s[1..]);
    }
  }

  /** The history's fitness never gets worse from one entry to a later one. */
  predicate Improving(h: seq<Entry>, maximize: bool) {
    forall i, j | 0 <= i < j < |h| :: !Better(h[i].fitness, h[j].fitness, maximize)
  }

  /** The best entry of the whole history: the head of the history ranked the
      same way as a population. An empty history has none (indexing the empty
      sorted list fails). */
  function BestOverall(h: seq<Entry>, maximize: bool): (r: Option<Entry>)
    ensures r.None? <==> h == []
    ensures r.Some? ==> r.value in h
    ensures r.Some? ==> forall e | e in h :: !Better(e.fitness, r.value.fitness, maximize)
  {
    if h == [] then None
    else
      RankHead(h, maximize);
      Some(Rank(h, maximize)[0])
  }

  /** On a history that never gets worse, the best overall has the fitness of
      the last generation, and is the earliest entry reaching it. */
  lemma BestOverallOfImproving(h: seq<Entry>, maximize: bool)
    requires h != [] && Improving(h, maximize)
    ensures BestOverall(h, maximize).value.fitness == h[|h| - 1].fitness
    ensures Keep(h, h[|h| - 1].fitness) != []
    ensures BestOverall(h, maximize).value == Keep(h, h[|h| - 1].fitness)[0]
  {
    LastIsBest(h, maximize, BestOverall(h, maximize).value);
    RankHeadIsEarliest(h, maximize);
  }

  /** In a history that never gets worse, an entry no entry beats has the
      fitness of the last entry. */
  lemma LastIsBest(h: seq<Entry>, maximize: bool, r: Entry)
    requires h != [] && Improving(h, maximize)
    requires r in h && forall e | e in h :: !Better(e.fitness, r.fitness, maximize)
    ensures r.fitness == h[|h| - 1].fitness
  {
    var last := h[|h| - 1];
    var k :| 0 <= k < |h| && h[k] == r;
    if k < |h| - 1 {
      assert !Better(h[k].fitness, last.fitness, maximize);
    }
    assert !Better(last.fitness, r.fitness, maximize);
  }
}
