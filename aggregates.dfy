/** Order-insensitive aggregates over sequences, in the shape of the query operators the
    statistics use: filter, count and sum. */
module Aggregates {

  /** The elements satisfying p, in their original order. */
  function Filter<T(!new)>(xs: seq<T>, p: T -> bool): (ys: seq<T>)
    ensures |ys| <= |xs|
    ensures forall y :: y in ys <==> y in xs && p(y)
  {
    if xs == [] then []
    else (if p(xs[0]) then [xs[0]] else []) + Filter(xs[1..], p)
  }

  /** Filtering a concatenation filters each part. */
  lemma {:induction false} FilterAppend<T(!new)>(xs: seq<T>, ys: seq<T>, p: T -> bool)
    ensures Filter(xs + ys, p) == Filter(xs, p) + Filter(ys, p)
  {
    if xs == [] {
      assert xs + ys == ys;
    } else {
      assert (xs + ys)[1..] == xs[1..] + ys;
      FilterAppend(xs[1..], ys, p);
    }
  }

  /** Filtering two elements keeps each one that satisfies p, in order. */
  lemma FilterOfPair<T(!new)>(a: T, b: T, p: T -> bool)
    ensures Filter([a, b], p) == (if p(a) then [a] else []) + (if p(b) then [b] else [])
  {
    assert [a, b][1..] == [b] && [b][1..] == [];
  }

  /** Each element occurs in the filtered sequence as often as in the input if it satisfies
      p, and not at all otherwise. */
  lemma {:induction false} FilterMultiplicity<T(!new)>(xs: seq<T>, p: T -> bool)
    ensures forall x :: multiset(Filter(xs, p))[x] == if p(x) then multiset(xs)[x] else 0
  {
    if xs != [] {
      FilterMultiplicity(xs[1..], p);
      assert xs == [xs[0]] + xs[1..];
      assert multiset(xs) == multiset{xs[0]} + multiset(xs[1..]);
    }
  }

  /** Filtering two arrangements of the same elements gives two arrangements of the same
      elements. */
  lemma FilterPermutation<T(!new)>(xs: seq<T>, ys: seq<T>, p: T -> bool)
    requires multiset(xs) == multiset(ys)
    ensures multiset(Filter(xs, p)) == multiset(Filter(ys, p))
  {
    FilterMultiplicity(xs, p);
    FilterMultiplicity(ys, p);
  }

  /** How many elements satisfy p. */
  function CountWhere<T(!new)>(xs: seq<T>, p: T -> bool): (n: nat)
    ensures n <= |xs|
    ensures n > 0 <==> exists i :: 0 <= i < |xs| && p(xs[i])
  {
    var ys := Filter(xs, p);
    assert |ys| > 0 ==> ys[0] in ys;
    |ys|
  }

  /** An element satisfies p or its negation, never both, so the two counts add up to the
      length. */
  lemma {:induction false} CountWhereComplement<T(!new)>(xs: seq<T>, p: T -> bool, q: T -> bool)
    requires forall x :: q(x) == !p(x)
    ensures CountWhere(xs, p) + CountWhere(xs, q) == |xs|
  {
    if xs != [] {
      CountWhereComplement(xs[1..], p, q);
    }
  }

  lemma CountWherePermutation<T(!new)>(xs: seq<T>, ys: seq<T>, p: T -> bool)
    requires multiset(xs) == multiset(ys)
    ensures CountWhere(xs, p) == CountWhere(ys, p)
  {
    FilterPermutation(xs, ys, p);
    assert |multiset(Filter(xs, p))| == |multiset(Filter(ys, p))|;
  }

  /** The sum of f over the elements. */
  function SumBy<T>(xs: seq<T>, f: T -> real): real {
    if xs == [] then 0.0 else f(xs[0]) + SumBy(xs[1..], f)
  }

  lemma {:induction false} SumByAppend<T>(xs: seq<T>, ys: seq<T>, f: T -> real)
    ensures SumBy(xs + ys, f) == SumBy(xs, f) + SumBy(ys, f)
  {
    if xs == [] {
      assert xs + ys == ys;
    } else {
      assert (xs + ys)[1..] == xs[1..] + ys;
      SumByAppend(xs[1..], ys, f);
    }
  }

  /** A sum does not depend on the order of its terms. */
  lemma {:induction false} SumByPermutation<T>(xs: seq<T>, ys: seq<T>, f: T -> real)
    requires multiset(xs) == multiset(ys)
    ensures SumBy(xs, f) == SumBy(ys, f)
  {
    if xs == [] {
      assert |ys| == |multiset(ys)| == 0;
    } else {
      var x := xs[0];
      assert x in multiset(xs);
      var j :| 0 <= j < |ys| && ys[j] == x;
      var before, after := ys[..j], ys[j + 1..];
      assert ys == before + [x] + after;
      SumByAppend(before + [x], after, f);
      SumByAppend(before, [x], f);
      SumByAppend(before, after, f);
      assert xs == [x] + xs[1..];
      assert multiset(xs) == multiset{x} + multiset(xs[1..]);
      assert multiset(ys) == multiset{x} + multiset(before + after);
      assert multiset(xs[1..]) == multiset(xs) - multiset{x};
      assert multiset(before + after) == multiset(ys) - multiset{x};
      SumByPermutation(xs[1..], before + after, f);
    }
  }

  /** The sum over two elements. */
  lemma SumByPair<T>(a: T, b: T, f: T -> real)
    ensures SumBy([a, b], f) == f(a) + f(b)
  {
    assert [a, b][1..] == [b] && [b][1..] == [];
    assert SumBy([b], f) == f(b) + SumBy([], f);
  }

  lemma SumByTriple<T>(a: T, b: T, c: T, f: T -> real)
    ensures SumBy([a, b, c], f) == f(a) + f(b) + f(c)
  {
    assert [a, b, c] == [a, b] + [c];
    assert [c][1..] == [];
    SumByPair(a, b, f);
    SumByAppend([a, b], [c], f);
  }

  lemma SumByFour<T>(a: T, b: T, c: T, d: T, f: T -> real)
    ensures SumBy([a, b, c, d], f) == f(a) + f(b) + f(c) + f(d)
  {
    assert [a, b, c, d] == [a, b] + [c, d];
    SumByPair(a, b, f);
    SumByPair(c, d, f);
    SumByAppend([a, b], [c, d], f);
  }

  /** Summing only the elements that satisfy p is summing f where p holds and zero elsewhere. */
  lemma {:induction false} SumByFilter<T(!new)>(xs: seq<T>, p: T -> bool, f: T -> real, g: T -> real)
    requires forall x :: g(x) == if p(x) then f(x) else 0.0
    ensures SumBy(Filter(xs, p), f) == SumBy(xs, g)
  {
    if xs != [] {
      SumByFilter(xs[1..], p, f, g);
      var kept := Filter(xs, p);
      if p(xs[0]) {
        assert kept == [xs[0]] + Filter(xs[1..], p);
        assert kept[0] == xs[0] && kept[1..] == Filter(xs[1..], p);
        assert SumBy(kept, f) == f(xs[0]) + SumBy(Filter(xs[1..], p), f);
        assert SumBy(xs, g) == g(xs[0]) + SumBy(xs[1..], g);
        assert g(xs[0]) == f(xs[0]);
      } else {
        assert kept == Filter(xs[1..], p);
        assert SumBy(xs, g) == 0.0 + SumBy(xs[1..], g);
      }
    }
  }

  /** A sum of terms each between lo and hi lies between |xs| * lo and |xs| * hi. */
  lemma {:induction false} SumByBounds<T>(xs: seq<T>, f: T -> real, lo: real, hi: real)
    requires forall i :: 0 <= i < |xs| ==> lo <= f(xs[i]) <= hi
    ensures |xs| as real * lo <= SumBy(xs, f) <= |xs| as real * hi
  {
    if xs != [] {
      SumByBounds(xs[1..], f, lo, hi);
    }
  }
}
