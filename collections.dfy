/** Sequence helpers shared by the grouping passes of the analysis handler:
    occurrence counts, first-occurrence de-duplication (the key order of a
    JavaScript object filled in a loop) and sums of counts over a key list. */
module Collections {

  /** No element occurs twice. */
  predicate Distinct<T(==)>(xs: seq<T>) {
    forall i, j :: 0 <= i < j < |xs| ==> xs[i] != xs[j]
  }

  /** Number of occurrences of x in xs. */
  function CountOf<T(==)>(xs: seq<T>, x: T): (n: nat)
    ensures n <= |xs|
  {
    if xs == [] then 0
    else CountOf(xs[..|xs| - 1], x) + (if xs[|xs| - 1] == x then 1 else 0)
  }

  /** x occurs in xs exactly when its count is positive. */
  lemma {:induction false} CountOfPositive<T>(xs: seq<T>, x: T)
    ensures CountOf(xs, x) > 0 <==> x in xs
    decreases |xs|
  {
    if xs != [] {
      assert xs == xs[..|xs| - 1] + [xs[|xs| - 1]];
      CountOfPositive(xs[..|xs| - 1], x);
    }
  }

  lemma CountOfSnoc<T>(xs: seq<T>, y: T, x: T)
    ensures CountOf(xs + [y], x) == CountOf(xs, x) + (if y == x then 1 else 0)
  {
    assert (xs + [y])[..|xs|] == xs;
  }

  lemma {:induction false} CountOfConcat<T>(xs: seq<T>, ys: seq<T>, x: T)
    ensures CountOf(xs + ys, x) == CountOf(xs, x) + CountOf(ys, x)
    decreases |ys|
  {
    if ys == [] {
      assert xs + ys == xs;
    } else {
      var init, y := ys[..|ys| - 1], ys[|ys| - 1];
      assert ys == init + [y];
      assert xs + ys == (xs + init) + [y];
      CountOfSnoc(xs + init, y, x);
      CountOfSnoc(init, y, x);
      CountOfConcat(xs, init, x);
    }
  }

  lemma {:induction false} CountOfDistinct<T>(xs: seq<T>, x: T)
    requires Distinct(xs)
    ensures CountOf(xs, x) == if x in xs then 1 else 0
    decreases |xs|
  {
    if xs != [] {
      var init, y := xs[..|xs| - 1], xs[|xs| - 1];
      assert xs == init + [y];
      CountOfDistinct(init, x);
      if y == x {
        assert x !in init by {
          forall i | 0 <= i < |init| ensures init[i] != x {
            assert xs[i] != xs[|xs| - 1];
          }
        }
      }
    }
  }

  /** The prefix of length i + 1 is the prefix of length i and element i. */
  lemma TakeSnoc<T>(xs: seq<T>, i: nat)
    requires i < |xs|
    ensures xs[..i + 1] == xs[..i] + [xs[i]]
  {
  }

  /** The distinct elements of xs, in order of first occurrence. */
  function Dedup<T(==,!new)>(xs: seq<T>): (d: seq<T>)
    ensures Distinct(d)
    ensures forall x :: x in d <==> x in xs
    ensures |d| <= |xs|
  {
    if xs == [] then []
    else
      var init, x := Dedup(xs[..|xs| - 1]), xs[|xs| - 1];
      assert xs == xs[..|xs| - 1] + [x];
      if x in init then init else init + [x]
  }

  lemma DedupSnoc<T(!new)>(xs: seq<T>, x: T)
    ensures Dedup(xs + [x]) == if x in xs then Dedup(xs) else Dedup(xs) + [x]
  {
    assert (xs + [x])[..|xs|] == xs;
  }

  /** Sum, over the keys ks, of how often each key occurs in ys. */
  function SumCounts<T(==)>(ks: seq<T>, ys: seq<T>): nat
  {
    if ks == [] then 0 else CountOf(ys, ks[0]) + SumCounts(ks[1..], ys)
  }

  lemma {:induction false} SumCountsSnoc<T>(ks: seq<T>, ys: seq<T>, y: T)
    ensures SumCounts(ks, ys + [y]) == SumCounts(ks, ys) + CountOf(ks, y)
    decreases |ks|
  {
    if ks != [] {
      SumCountsSnoc(ks[1..], ys, y);
      CountOfSnoc(ys, y, ks[0]);
      assert ks == [ks[0]] + ks[1..];
      CountOfConcat([ks[0]], ks[1..], y);
      assert CountOf([ks[0]], y) == if ks[0] == y then 1 else 0 by {
        assert [ks[0]][..0] == [];
      }
    }
  }

  lemma {:induction false} SumCountsEmpty<T>(ks: seq<T>)
    ensures SumCounts(ks, []) == 0
    decreases |ks|
  {
    if ks != [] {
      SumCountsEmpty(ks[1..]);
    }
  }

  /** When the keys are distinct and cover every element of ys, the counts
      per key add up to the length of ys: nothing is lost or counted twice. */
  lemma {:induction false} SumCountsCovers<T>(ks: seq<T>, ys: seq<T>)
    requires Distinct(ks)
    requires forall y :: y in ys ==> y in ks
    ensures SumCounts(ks, ys) == |ys|
    decreases |ys|
  {
    if ys == [] {
      SumCountsEmpty(ks);
    } else {
      var init, y := ys[..|ys| - 1], ys[|ys| - 1];
      assert ys == init + [y];
      SumCountsCovers(ks, init);
      SumCountsSnoc(ks, init, y);
      CountOfDistinct(ks, y);
    }
  }
}
