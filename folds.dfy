/**
 * The two `reduce` folds the core applies to numbers, over exact reals, and
 * the reference definitions they are compared with.
 */
module Folds {

  /** Left-fold sum `xs.reduce((accum, next) => accum + next)`, with 0 for no elements. */
  function Sum(xs: seq<real>): real {
    if xs == [] then 0.0 else Sum(xs[..|xs| - 1]) + xs[|xs| - 1]
  }

  /** `xs.reduce((accum, next) => (accum + next) / 2.0)`: no initial value, so at least one element. */
  function HalvingFold(xs: seq<real>): real
    requires |xs| > 0
  {
    if |xs| == 1 then xs[0] else (HalvingFold(xs[..|xs| - 1]) + xs[|xs| - 1]) / 2.0
  }

  /** The smallest element. */
  function SeqMin(xs: seq<real>): (m: real)
    requires |xs| > 0
    ensures m in xs
    ensures forall i :: 0 <= i < |xs| ==> m <= xs[i]
  {
    if |xs| == 1 then xs[0]
    else
      var m' := SeqMin(xs[..|xs| - 1]);
      assert forall i :: 0 <= i < |xs| - 1 ==> xs[..|xs| - 1][i] == xs[i];
      if xs[|xs| - 1] < m' then xs[|xs| - 1] else m'
  }

  /** The largest element. */
  function SeqMax(xs: seq<real>): (m: real)
    requires |xs| > 0
    ensures m in xs
    ensures forall i :: 0 <= i < |xs| ==> xs[i] <= m
  {
    if |xs| == 1 then xs[0]
    else
      var m' := SeqMax(xs[..|xs| - 1]);
      assert forall i :: 0 <= i < |xs| - 1 ==> xs[..|xs| - 1][i] == xs[i];
      if m' < xs[|xs| - 1] then xs[|xs| - 1] else m'
  }

  /** The arithmetic mean: sum divided by count. */
  function Mean(xs: seq<real>): real
    requires |xs| > 0
  {
    Sum(xs) / (|xs| as real)
  }

  /** Halving the pair of a value and the running fold stays inside the data's range. */
  lemma {:induction false} HalvingFoldBounds(xs: seq<real>)
    requires |xs| > 0
    ensures SeqMin(xs) <= HalvingFold(xs) <= SeqMax(xs)
  {
    if |xs| > 1 {
      var init := xs[..|xs| - 1];
      HalvingFoldBounds(init);
      assert SeqMin(init) in xs && SeqMax(init) in xs;
    }
  }

  /** A single element folds to itself. */
  lemma HalvingFoldSingleton(x: real)
    ensures HalvingFold([x]) == x
  {
  }

  /** n * a, written as a repeated sum so that the bounds below stay linear. */
  function Times(n: nat, a: real): real {
    if n == 0 then 0.0 else Times(n - 1, a) + a
  }

  lemma {:induction false} TimesIsProduct(n: nat, a: real)
    ensures Times(n, a) == (n as real) * a
  {
    if n > 0 {
      TimesIsProduct(n - 1, a);
    }
  }

  /** The sum of n elements lies between n times the smallest and n times the largest. */
  lemma {:induction false} SumBounds(xs: seq<real>)
    requires |xs| > 0
    ensures Times(|xs|, SeqMin(xs)) <= Sum(xs) <= Times(|xs|, SeqMax(xs))
  {
    if |xs| > 1 {
      var init := xs[..|xs| - 1];
      SumBounds(init);
      assert SeqMin(init) in xs && SeqMax(init) in xs;
      TimesMonotone(|init|, SeqMin(xs), SeqMin(init));
      TimesMonotone(|init|, SeqMax(init), SeqMax(xs));
    } else {
      assert xs[..0] == [];
    }
  }

  lemma {:induction false} TimesMonotone(n: nat, a: real, b: real)
    requires a <= b
    ensures Times(n, a) <= Times(n, b)
  {
    if n > 0 {
      TimesMonotone(n - 1, a, b);
    }
  }

  /** The mean lies between the smallest and the largest element. */
  lemma MeanBounds(xs: seq<real>)
    requires |xs| > 0
    ensures SeqMin(xs) <= Mean(xs) <= SeqMax(xs)
  {
    SumBounds(xs);
    MeanBetween(xs, SeqMin(xs), SeqMax(xs));
  }

  lemma MeanBetween(xs: seq<real>, lo: real, hi: real)
    requires |xs| > 0 && Times(|xs|, lo) <= Sum(xs) <= Times(|xs|, hi)
    ensures lo <= Mean(xs) <= hi
  {
    var n := |xs| as real;
    TimesIsProduct(|xs|, lo);
    TimesIsProduct(|xs|, hi);
    QuotientBetween(Sum(xs), n, lo, hi);
  }

  lemma QuotientBetween(s: real, n: real, lo: real, hi: real)
    requires n > 0.0 && n * lo <= s <= n * hi
    ensures lo <= s / n <= hi
  {
  }

  /** Taking one element out of the sum. */
  lemma {:induction false} SumRemove(xs: seq<real>, i: nat)
    requires i < |xs|
    ensures Sum(xs) == Sum(xs[..i] + xs[i + 1..]) + xs[i]
  {
    var n := |xs|;
    if i == n - 1 {
      assert xs[..i] + xs[i + 1..] == xs[..n - 1];
    } else {
      var init := xs[..n - 1];
      SumRemove(init, i);
      var rest := xs[..i] + xs[i + 1..];
      assert init[..i] + init[i + 1..] == rest[..|rest| - 1];
      assert rest[|rest| - 1] == xs[n - 1];
    }
  }

  /** The sum does not depend on the order of the elements. */
  lemma {:induction false} SumPermutation(xs: seq<real>, ys: seq<real>)
    requires multiset(xs) == multiset(ys)
    ensures Sum(xs) == Sum(ys)
    decreases |xs|
  {
    if xs == [] {
      assert |ys| == |multiset(ys)| == 0;
    } else {
      var n := |xs|;
      var x := xs[n - 1];
      assert xs == xs[..n - 1] + [x];
      assert x in multiset(ys);
      var j :| 0 <= j < |ys| && ys[j] == x;
      var ys' := ys[..j] + ys[j + 1..];
      assert ys == ys[..j] + [ys[j]] + ys[j + 1..];
      assert multiset(ys') == multiset(ys) - multiset{x};
      assert multiset(xs[..n - 1]) == multiset(xs) - multiset{x};
      SumPermutation(xs[..n - 1], ys');
      SumRemove(ys, j);
    }
  }

  /** The mean does not depend on the order of the elements. */
  lemma {:induction false} MeanPermutation(xs: seq<real>, ys: seq<real>)
    requires |xs| > 0 && multiset(xs) == multiset(ys)
    ensures |ys| == |xs| && Mean(xs) == Mean(ys)
  {
    assert |xs| == |multiset(xs)| == |multiset(ys)| == |ys|;
    SumPermutation(xs, ys);
  }

  /** The halving fold is not the mean: [1, 2, 3] folds to 2.25, whose mean is 2. */
  lemma HalvingFoldIsNotMean()
    ensures HalvingFold([1.0, 2.0, 3.0]) == 2.25
    ensures Mean([1.0, 2.0, 3.0]) == 2.0
  {
    assert [1.0, 2.0, 3.0][..2] == [1.0, 2.0];
    assert [1.0, 2.0][..1] == [1.0];
    assert [1.0, 2.0, 3.0][..2][..1] == [1.0];
    assert Sum([1.0]) == 1.0 by { assert [1.0][..0] == []; }
  }

  /** The halving fold depends on the order: [3, 2, 1] folds to 1.75 but [1, 2, 3] to 2.25. */
  lemma HalvingFoldIsOrderDependent()
    ensures multiset([1.0, 2.0, 3.0]) == multiset([3.0, 2.0, 1.0])
    ensures HalvingFold([3.0, 2.0, 1.0]) == 1.75
    ensures HalvingFold([1.0, 2.0, 3.0]) == 2.25
  {
    assert [3.0, 2.0, 1.0][..2] == [3.0, 2.0];
    assert [3.0, 2.0][..1] == [3.0];
    HalvingFoldIsNotMean();
  }
}
