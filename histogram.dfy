/**
 * The histogram behind `StatReport` and `StatChart` (the two components hold
 * the same code): min and max of the data, ten buckets of width
 * (max - min) / 10, the loop that counts finite points into them, the labels
 * at bucket midpoints, and the `total` and `average` folds.
 */
module Histogram {
  import opened Wrappers
  import opened JsNumber
  import opened Folds

  const BucketCount: nat := 10

  /** `(max() - min()) / bucketCount`. */
  function BucketSize(data: seq<Num>): Num {
    Div(Sub(MaxOf(data), MinOf(data)), Fin(BucketCount as real))
  }

  /**
   * `bucketIndex` after `Math.floor((dataPoint - bucketOffset) / bucketSize())`
   * and the clamp `if (bucketIndex >= bucketCount) bucketIndex = bucketCount`.
   */
  function BucketIndex(x: Num, offset: Num, size: Num): Num {
    var idx := Floor(Div(Sub(x, offset), size));
    if AtLeast(idx, Fin(BucketCount as real)) then Fin(BucketCount as real) else idx
  }

  /** Whether `buckets[idx]` is one of the ten slots filled with 0. */
  predicate IsSlot(idx: Num) {
    idx.Fin? && 0.0 <= idx.v < BucketCount as real && idx.v.Floor as real == idx.v
  }

  function SlotOf(idx: Num): (k: nat)
    requires IsSlot(idx)
    ensures k < BucketCount && idx == Fin(k as real)
  {
    idx.v.Floor
  }

  /** The index each finite point is written at, in data order; non-finite points are skipped. */
  function Indices(data: seq<Num>, offset: Num, size: Num): seq<Num> {
    if data == [] then []
    else
      var x := data[|data| - 1];
      Indices(data[..|data| - 1], offset, size) + (if IsFinite(x) then [BucketIndex(x, offset, size)] else [])
  }

  /** `Array(bucketCount).fill(0)`. */
  function Zeros(n: nat): (z: seq<int>)
    ensures |z| == n && forall k :: 0 <= k < n ==> z[k] == 0
  {
    seq(n, k => 0)
  }

  /** The ten slots after the writes `ix`: every write at a slot adds one to it. */
  function Tally(ix: seq<Num>): (counts: seq<int>)
    ensures |counts| == BucketCount
  {
    if ix == [] then Zeros(BucketCount)
    else
      var counts := Tally(ix[..|ix| - 1]);
      var idx := ix[|ix| - 1];
      if IsSlot(idx) then counts[SlotOf(idx) := counts[SlotOf(idx)] + 1] else counts
  }

  /**
   * The writes that miss the ten slots, in order: index 10 (which JavaScript
   * stores as an eleventh element, `undefined + 1`) or a NaN index (stored as
   * a property named "NaN"). Neither has a label.
   */
  function Strays(ix: seq<Num>): seq<Num> {
    if ix == [] then []
    else Strays(ix[..|ix| - 1]) + (if IsSlot(ix[|ix| - 1]) then [] else [ix[|ix| - 1]])
  }

  /** The number of finite points. */
  function FiniteCount(data: seq<Num>): nat {
    if data == [] then 0
    else FiniteCount(data[..|data| - 1]) + (if IsFinite(data[|data| - 1]) then 1 else 0)
  }

  function SumInts(xs: seq<int>): int {
    if xs == [] then 0 else xs[0] + SumInts(xs[1..])
  }

  /** How many of the writes are at index `idx`. */
  function WritesAt(ix: seq<Num>, idx: Num): nat {
    if ix == [] then 0
    else WritesAt(ix[..|ix| - 1], idx) + (if ix[|ix| - 1] == idx then 1 else 0)
  }

  /**
   * The `chartData` loop: ten zeroed buckets, and for each finite point its
   * index is computed, clamped, and that bucket incremented in place. Writes
   * outside the ten buckets are returned in `strays`.
   */
  method FillBuckets(data: seq<Num>) returns (buckets: array<int>, strays: seq<Num>)
    ensures fresh(buckets)
    ensures buckets[..] == Tally(Indices(data, MinOf(data), BucketSize(data)))
    ensures strays == Strays(Indices(data, MinOf(data), BucketSize(data)))
  {
    var offset := MinOf(data);
    var size := BucketSize(data);
    buckets := new int[BucketCount](_ => 0);
    strays := [];
    var i := 0;
    while i < |data|
      invariant 0 <= i <= |data|
      invariant buckets.Length == BucketCount
      invariant buckets[..] == Tally(Indices(data[..i], offset, size))
      invariant strays == Strays(Indices(data[..i], offset, size))
    {
      var point := data[i];
      IndicesStep(data, i, offset, size);
      if IsFinite(point) {
        var bucketIndex := Floor(Div(Sub(point, offset), size));
        if AtLeast(bucketIndex, Fin(BucketCount as real)) {
          bucketIndex := Fin(BucketCount as real);
        }
        assert bucketIndex == BucketIndex(point, offset, size);
        strays := Increment(buckets, strays, Indices(data[..i], offset, size), bucketIndex);
        assert Indices(data[..i + 1], offset, size) == Indices(data[..i], offset, size) + [bucketIndex];
        assert buckets[..] == Tally(Indices(data[..i + 1], offset, size));
      } else {
        assert Indices(data[..i + 1], offset, size) == Indices(data[..i], offset, size);
        assert buckets[..] == Tally(Indices(data[..i + 1], offset, size));
      }
      i := i + 1;
    }
    assert data[..i] == data;
  }

  /** `buckets[bucketIndex] += 1`: a slot is incremented in place, any other index is a stray write. */
  method Increment(buckets: array<int>, strays: seq<Num>, ghost before: seq<Num>, idx: Num)
    returns (strays': seq<Num>)
    requires buckets[..] == Tally(before) && strays == Strays(before)
    modifies buckets
    ensures buckets[..] == Tally(before + [idx]) && strays' == Strays(before + [idx])
  {
    WriteStep(before, idx);
    strays' := strays;
    if IsSlot(idx) {
      var k := SlotOf(idx);
      buckets[k] := buckets[k] + 1;
    } else {
      strays' := strays + [idx];
    }
  }

  lemma IndicesStep(data: seq<Num>, i: nat, offset: Num, size: Num)
    requires i < |data|
    ensures Indices(data[..i + 1], offset, size)
         == Indices(data[..i], offset, size) + (if IsFinite(data[i]) then [BucketIndex(data[i], offset, size)] else [])
  {
    assert data[..i + 1][..i] == data[..i];
  }

  lemma WriteStep(before: seq<Num>, idx: Num)
    ensures Tally(before + [idx]) == if IsSlot(idx) then Tally(before)[SlotOf(idx) := Tally(before)[SlotOf(idx)] + 1] else Tally(before)
    ensures Strays(before + [idx]) == Strays(before) + (if IsSlot(idx) then [] else [idx])
  {
    assert (before + [idx])[..|before|] == before;
  }

  // ------------------------------------------------------------ accounting

  lemma {:induction false} SumIntsIncrement(xs: seq<int>, k: nat)
    requires k < |xs|
    ensures SumInts(xs[k := xs[k] + 1]) == SumInts(xs) + 1
  {
    if k > 0 {
      SumIntsIncrement(xs[1..], k - 1);
      assert xs[k := xs[k] + 1][1..] == xs[1..][k - 1 := xs[1..][k - 1] + 1];
    } else {
      assert xs[k := xs[k] + 1][1..] == xs[1..];
    }
  }

  lemma {:induction false} SumIntsZeros(n: nat)
    ensures SumInts(Zeros(n)) == 0
  {
    if n > 0 {
      assert Zeros(n)[1..] == Zeros(n - 1);
      SumIntsZeros(n - 1);
    }
  }

  /** Every write is counted once: either in one of the ten slots or as a stray. */
  lemma {:induction false} TallyAccountsForEveryWrite(ix: seq<Num>)
    ensures SumInts(Tally(ix)) + |Strays(ix)| == |ix|
  {
    if ix == [] {
      SumIntsZeros(BucketCount);
    } else {
      TallyAccountsForEveryWrite(ix[..|ix| - 1]);
      var idx := ix[|ix| - 1];
      if IsSlot(idx) {
        SumIntsIncrement(Tally(ix[..|ix| - 1]), SlotOf(idx));
      }
    }
  }

  /** Slot k holds exactly the number of writes at index k. */
  lemma {:induction false} TallyCountsWrites(ix: seq<Num>, k: nat)
    requires k < BucketCount
    ensures Tally(ix)[k] == WritesAt(ix, Fin(k as real))
  {
    if ix != [] {
      TallyCountsWrites(ix[..|ix| - 1], k);
    }
  }

  /** Strays are exactly the writes that are not at a slot. */
  lemma {:induction false} StraysAreNotSlots(ix: seq<Num>)
    ensures forall s :: s in Strays(ix) ==> !IsSlot(s) && s in ix
    ensures (forall i :: 0 <= i < |ix| ==> IsSlot(ix[i])) ==> Strays(ix) == []
  {
    if ix != [] {
      StraysAreNotSlots(ix[..|ix| - 1]);
    }
  }

  lemma {:induction false} IndicesCount(data: seq<Num>, offset: Num, size: Num)
    ensures |Indices(data, offset, size)| == FiniteCount(data)
  {
    if data != [] {
      IndicesCount(data[..|data| - 1], offset, size);
    }
  }

  /**
   * Each finite point increments exactly one place, so the counts in the ten
   * buckets plus the stray writes add up to the number of finite points.
   */
  lemma EveryFinitePointIsWrittenOnce(data: seq<Num>)
    ensures var ix := Indices(data, MinOf(data), BucketSize(data));
      SumInts(Tally(ix)) + |Strays(ix)| == FiniteCount(data)
  {
    var ix := Indices(data, MinOf(data), BucketSize(data));
    IndicesCount(data, MinOf(data), BucketSize(data));
    TallyAccountsForEveryWrite(ix);
  }

  // ------------------------------------------------------------ real-valued data

  lemma NumsInit(rs: seq<real>)
    requires |rs| > 0
    ensures Nums(rs)[..|rs| - 1] == Nums(rs[..|rs| - 1])
  {
  }

  /** On finite data `Math.min` and `Math.max` are the smallest and the largest value. */
  lemma {:induction false} MinMaxOfReals(rs: seq<real>)
    requires |rs| > 0
    ensures MinOf(Nums(rs)) == Fin(SeqMin(rs)) && MaxOf(Nums(rs)) == Fin(SeqMax(rs))
  {
    var n := |rs|;
    NumsInit(rs);
    if n == 1 {
      assert Nums(rs)[..0] == [];
    } else {
      MinMaxOfReals(rs[..n - 1]);
    }
  }

  /** Finite `Math.min` and `Math.max` give a bucket width of a tenth of their difference. */
  lemma WidthOf(data: seq<Num>, lo: real, hi: real)
    requires MinOf(data) == Fin(lo) && MaxOf(data) == Fin(hi)
    ensures BucketSize(data) == Fin((hi - lo) / 10.0)
  {
    assert Sub(Fin(hi), Fin(lo)) == Fin(hi - lo);
  }

  /** On finite data the bucket width is a tenth of the spread. */
  lemma BucketSizeOfReals(rs: seq<real>)
    requires |rs| > 0
    ensures BucketSize(Nums(rs)) == Fin((SeqMax(rs) - SeqMin(rs)) / 10.0)
  {
    MinMaxOfReals(rs);
    WidthOf(Nums(rs), SeqMin(rs), SeqMax(rs));
  }

  /**
   * A point in [lo, hi] with lo < hi: every point below hi gets one of the ten
   * slots, the point at hi itself gets index 10 (floor of exactly 10).
   */
  lemma PointIndex(x: real, lo: real, hi: real)
    requires lo <= x <= hi && lo < hi
    ensures var idx := BucketIndex(Fin(x), Fin(lo), Fin((hi - lo) / 10.0));
      (x < hi ==> IsSlot(idx)) && (x == hi ==> idx == Fin(10.0))
  {
    var d := (hi - lo) / 10.0;
    var q := (x - lo) / d;
    assert Div(Sub(Fin(x), Fin(lo)), Fin(d)) == Fin(q);
    assert q * d == x - lo;
    assert 0.0 <= q;
    if x < hi {
      assert q.Floor <= 9;
      assert !AtLeast(Fin(q.Floor as real), Fin(10.0));
    } else {
      assert x - lo == 10.0 * d;
      assert q == 10.0;
    }
  }

  /** Every value of `rs` lies in [lo, hi]. */
  predicate InRange(rs: seq<real>, lo: real, hi: real) {
    forall i :: 0 <= i < |rs| ==> lo <= rs[i] <= hi
  }

  /** The writes of data inside [lo, hi] that miss the slots are one index 10 per point equal to hi. */
  lemma {:induction false} StraysOfRange(rs: seq<real>, lo: real, hi: real)
    requires lo < hi && InRange(rs, lo, hi)
    ensures var strays := Strays(Indices(Nums(rs), Fin(lo), Fin((hi - lo) / 10.0)));
      |strays| == multiset(rs)[hi] && forall s :: s in strays ==> s == Fin(10.0)
  {
    var size := Fin((hi - lo) / 10.0);
    if rs != [] {
      var n := |rs|;
      var init, x := rs[..n - 1], rs[n - 1];
      assert rs == init + [x];
      assert InRange(init, lo, hi);
      NumsInit(rs);
      StraysOfRange(init, lo, hi);
      var before := Indices(Nums(init), Fin(lo), size);
      var idx := BucketIndex(Fin(x), Fin(lo), size);
      assert Indices(Nums(rs), Fin(lo), size) == before + [idx];
      WriteStep(before, idx);
      PointIndex(x, lo, hi);
      assert multiset(rs)[hi] == multiset(init)[hi] + (if x == hi then 1 else 0);
    }
  }

  /**
   * The clamp stores the largest value at index 10, outside the ten labelled
   * buckets: when the data are not all equal, the ten buckets hold every point
   * except those equal to the maximum.
   */
  lemma MaximumIsNotCounted(rs: seq<real>)
    requires |rs| > 0 && SeqMin(rs) < SeqMax(rs)
    ensures var ix := Indices(Nums(rs), MinOf(Nums(rs)), BucketSize(Nums(rs)));
      SumInts(Tally(ix)) == |rs| - multiset(rs)[SeqMax(rs)] &&
      |Strays(ix)| == multiset(rs)[SeqMax(rs)] >= 1 &&
      forall s :: s in Strays(ix) ==> s == Fin(BucketCount as real)
  {
    var lo, hi := SeqMin(rs), SeqMax(rs);
    MinMaxOfReals(rs);
    BucketSizeOfReals(rs);
    StraysOfRange(rs, lo, hi);
    var ix := Indices(Nums(rs), Fin(lo), Fin((hi - lo) / 10.0));
    IndicesCount(Nums(rs), Fin(lo), Fin((hi - lo) / 10.0));
    FiniteCountOfReals(rs);
    TallyAccountsForEveryWrite(ix);
  }

  lemma {:induction false} FiniteCountOfReals(rs: seq<real>)
    ensures FiniteCount(Nums(rs)) == |rs|
  {
    if rs != [] {
      NumsInit(rs);
      FiniteCountOfReals(rs[..|rs| - 1]);
    }
  }

  /** Two points, 0 and 1: the bucket width is 0.1 and the point 1 is written at index 10. */
  lemma TwoPointsOneCounted(rs: seq<real>)
    requires rs == [0.0, 1.0]
    ensures var ix := Indices(Nums(rs), MinOf(Nums(rs)), BucketSize(Nums(rs)));
      SumInts(Tally(ix)) == 1 && Strays(ix) == [Fin(10.0)]
  {
    assert rs[..1] == [0.0];
    assert SeqMin(rs) == 0.0 && SeqMax(rs) == 1.0;
    assert multiset(rs)[1.0] == 1;
    MaximumIsNotCounted(rs);
    var strays := Strays(Indices(Nums(rs), MinOf(Nums(rs)), BucketSize(Nums(rs))));
    assert |strays| == 1 && strays[0] in strays;
  }

  /**
   * All points equal: the width is 0, every index is floor(0 / 0) = NaN, no
   * bucket is incremented and every point is a stray write at "NaN".
   */
  lemma {:induction false} EqualPointsAreNotCounted(rs: seq<real>, c: real)
    requires forall i :: 0 <= i < |rs| ==> rs[i] == c
    ensures var ix := Indices(Nums(rs), Fin(c), Fin(0.0));
      Tally(ix) == Zeros(BucketCount) && Strays(ix) == seq(|rs|, _ => NaN)
  {
    if rs != [] {
      var n := |rs|;
      NumsInit(rs);
      EqualPointsAreNotCounted(rs[..n - 1], c);
      var before := Indices(Nums(rs[..n - 1]), Fin(c), Fin(0.0));
      assert BucketIndex(Fin(c), Fin(c), Fin(0.0)) == NaN;
      WriteStep(before, NaN);
    }
  }

  /** Equal data reach EqualPointsAreNotCounted: the offset is the value and the width is 0. */
  lemma EqualData(rs: seq<real>)
    requires |rs| > 0 && SeqMin(rs) == SeqMax(rs)
    ensures var ix := Indices(Nums(rs), MinOf(Nums(rs)), BucketSize(Nums(rs)));
      Tally(ix) == Zeros(BucketCount) && |Strays(ix)| == |rs|
  {
    var c := SeqMin(rs);
    MinMaxOfReals(rs);
    BucketSizeOfReals(rs);
    EqualPointsAreNotCounted(rs, c);
  }

  /**
   * A NaN offset makes every index NaN: `dataPoint - NaN` is NaN, and so are
   * its quotient, its floor and the clamp's comparison.
   */
  lemma {:induction false} NaNOffsetIsNotCounted(data: seq<Num>, size: Num)
    ensures var ix := Indices(data, NaN, size);
      Tally(ix) == Zeros(BucketCount) && Strays(ix) == ix
      && |ix| == FiniteCount(data) && forall i :: 0 <= i < |ix| ==> ix[i] == NaN
  {
    if data != [] {
      var init := data[..|data| - 1];
      NaNOffsetIsNotCounted(init, size);
      var before := Indices(init, NaN, size);
      if IsFinite(data[|data| - 1]) {
        assert BucketIndex(data[|data| - 1], NaN, size) == NaN;
        assert Indices(data, NaN, size) == before + [NaN];
        WriteStep(before, NaN);
      } else {
        assert Indices(data, NaN, size) == before + [];
        assert before + [] == before;
      }
    }
  }

  /**
   * One missing value (NaN) makes `min()` NaN, so no finite point is counted:
   * every one of them is a stray write at "NaN".
   */
  lemma NaNDataIsNotCounted(data: seq<Num>, j: nat)
    requires j < |data| && data[j].NaN?
    ensures var ix := Indices(data, MinOf(data), BucketSize(data));
      Tally(ix) == Zeros(BucketCount) && |Strays(ix)| == FiniteCount(data)
      && forall s :: s in Strays(ix) ==> s == NaN
  {
    NaNAbsorbs(data, j);
    NaNOffsetIsNotCounted(data, BucketSize(data));
  }

  /** Two cards with a value and one without: the chart counts neither value. */
  lemma OneMissingValueEmptiesTheChart()
    ensures var data := [Fin(1.0), NaN, Fin(2.0)];
      var ix := Indices(data, MinOf(data), BucketSize(data));
      Tally(ix) == Zeros(BucketCount) && |Strays(ix)| == 2
  {
    var data := [Fin(1.0), NaN, Fin(2.0)];
    NaNDataIsNotCounted(data, 1);
    assert data[..2] == [Fin(1.0), NaN] && [Fin(1.0), NaN][..1] == [Fin(1.0)] && [Fin(1.0)][..0] == [];
    assert FiniteCount([Fin(1.0)]) == 1;
    assert FiniteCount([Fin(1.0), NaN]) == 1;
    assert FiniteCount(data) == 2;
  }

  // ------------------------------------------------------------ the intended histogram

  /**
   * The index the histogram evidently means: a zero width puts every point in
   * bucket 0, and the top of the range goes to the last bucket, 9.
   */
  function IntendedIndex(x: Num, offset: Num, size: Num): Num {
    if size == Fin(0.0) then Fin(0.0)
    else
      var idx := Floor(Div(Sub(x, offset), size));
      if AtLeast(idx, Fin(BucketCount as real)) then Fin((BucketCount - 1) as real) else idx
  }

  function IntendedIndices(data: seq<Num>, offset: Num, size: Num): seq<Num> {
    if data == [] then []
    else
      var x := data[|data| - 1];
      IntendedIndices(data[..|data| - 1], offset, size) + (if IsFinite(x) then [IntendedIndex(x, offset, size)] else [])
  }

  /** The histogram of finite data with the intended index. */
  function IntendedHistogram(rs: seq<real>): (counts: seq<int>)
    requires |rs| > 0
    ensures |counts| == BucketCount
  {
    Tally(IntendedIndices(Nums(rs), MinOf(Nums(rs)), BucketSize(Nums(rs))))
  }

  /** Inside [lo, hi] the intended index is always a slot, and agrees with the written one below hi. */
  lemma IntendedPointIndex(x: real, lo: real, hi: real)
    requires lo <= x <= hi
    ensures IsSlot(IntendedIndex(Fin(x), Fin(lo), Fin((hi - lo) / 10.0)))
    ensures lo < x < hi ==> IntendedIndex(Fin(x), Fin(lo), Fin((hi - lo) / 10.0)) == BucketIndex(Fin(x), Fin(lo), Fin((hi - lo) / 10.0))
  {
    if lo < hi {
      PointIndex(x, lo, hi);
    }
  }

  lemma {:induction false} IntendedIndicesAreSlots(rs: seq<real>, lo: real, hi: real)
    requires InRange(rs, lo, hi)
    ensures var ix := IntendedIndices(Nums(rs), Fin(lo), Fin((hi - lo) / 10.0));
      |ix| == |rs| && forall i :: 0 <= i < |ix| ==> IsSlot(ix[i])
  {
    if rs != [] {
      var n := |rs|;
      NumsInit(rs);
      IntendedIndicesAreSlots(rs[..n - 1], lo, hi);
      IntendedPointIndex(rs[n - 1], lo, hi);
    }
  }

  /** With the intended index every point of the data is counted in one of the ten buckets. */
  lemma IntendedHistogramCountsEveryPoint(rs: seq<real>)
    requires |rs| > 0
    ensures SumInts(IntendedHistogram(rs)) == |rs|
  {
    var lo, hi := SeqMin(rs), SeqMax(rs);
    MinMaxOfReals(rs);
    BucketSizeOfReals(rs);
    var ix := IntendedIndices(Nums(rs), Fin(lo), Fin((hi - lo) / 10.0));
    IntendedIndicesAreSlots(rs, lo, hi);
    StraysAreNotSlots(ix);
    TallyAccountsForEveryWrite(ix);
  }

  /** For the data [0, 1] the intended histogram counts both points. */
  lemma TwoPointsBothCounted()
    ensures SumInts(IntendedHistogram([0.0, 1.0])) == 2
  {
    IntendedHistogramCountsEveryPoint([0.0, 1.0]);
  }

  /** With all points equal the intended index puts every point in bucket 0. */
  lemma {:induction false} IntendedEqualPoints(rs: seq<real>, c: real)
    requires forall i :: 0 <= i < |rs| ==> rs[i] == c
    ensures Tally(IntendedIndices(Nums(rs), Fin(c), Fin(0.0))) == Zeros(BucketCount)[0 := |rs|]
  {
    if rs != [] {
      var n := |rs|;
      NumsInit(rs);
      IntendedEqualPoints(rs[..n - 1], c);
      WriteStep(IntendedIndices(Nums(rs[..n - 1]), Fin(c), Fin(0.0)), Fin(0.0));
    }
  }

  /** [5, 5, 5, 5] with the intended index: all four points in bucket 0. */
  lemma UniformSampleInFirstBucket(rs: seq<real>)
    requires rs == [5.0, 5.0, 5.0, 5.0]
    ensures IntendedHistogram(rs) == [4, 0, 0, 0, 0, 0, 0, 0, 0, 0]
  {
    assert SeqMin(rs) == 5.0 && SeqMax(rs) == 5.0;
    MinMaxOfReals(rs);
    BucketSizeOfReals(rs);
    IntendedEqualPoints(rs, 5.0);
  }

  /** The finite values of the data, in order: the samples the histogram evidently means. */
  function FiniteValues(data: seq<Num>): (rs: seq<real>)
    ensures |rs| == FiniteCount(data)
    ensures forall r :: r in rs ==> Fin(r) in data
  {
    if data == [] then []
    else
      var x := data[|data| - 1];
      FiniteValues(data[..|data| - 1]) + (if x.Fin? then [x.v] else [])
  }

  /** The intended histogram of data with missing values: those are left out, not allowed to poison `min()`. */
  function IntendedHistogramOf(data: seq<Num>): (counts: seq<int>)
    ensures |counts| == BucketCount
  {
    var rs := FiniteValues(data);
    if rs == [] then Zeros(BucketCount) else IntendedHistogram(rs)
  }

  /** The intended histogram counts every finite point, whatever else the data hold. */
  lemma IntendedHistogramSkipsMissingValues(data: seq<Num>)
    ensures SumInts(IntendedHistogramOf(data)) == FiniteCount(data)
  {
    var rs := FiniteValues(data);
    if rs == [] {
      SumIntsZeros(BucketCount);
    } else {
      IntendedHistogramCountsEveryPoint(rs);
    }
  }

  /** With the intended histogram the two values beside a missing one are both counted. */
  lemma MissingValueKeepsTheOthers()
    ensures SumInts(IntendedHistogramOf([Fin(1.0), NaN, Fin(2.0)])) == 2
  {
    var data := [Fin(1.0), NaN, Fin(2.0)];
    IntendedHistogramSkipsMissingValues(data);
    assert data[..2] == [Fin(1.0), NaN] && [Fin(1.0), NaN][..1] == [Fin(1.0)] && [Fin(1.0)][..0] == [];
    assert FiniteCount([Fin(1.0)]) == 1;
    assert FiniteCount([Fin(1.0), NaN]) == 1;
    assert FiniteCount(data) == 2;
  }
}
