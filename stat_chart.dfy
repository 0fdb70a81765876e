/**
 * What `StatChart` (and its twin `StatReport`) shows for one statistic besides
 * the bucket counts: the label of each bucket, the colour of each bar, and the
 * `Total` and `Average` rows; and the data `ChartSlide` hands it.
 */
module StatChart {
  import opened Wrappers
  import opened JsNumber
  import opened Folds
  import opened Histogram
  import opened Metric
  import opened Util
  import opened EdhrecRepo

  // ------------------------------------------------------------ labels

  /** `min() + bucketSize() * (index + 0.5)`. */
  function Midpoint(data: seq<Num>, index: nat): Num {
    Offset(MinOf(data), BucketSize(data), index as real + 0.5)
  }

  /** `offset + size * h` in JavaScript arithmetic. */
  function Offset(offset: Num, size: Num, h: real): Num {
    Add(offset, Mul(size, Fin(h)))
  }

  /** `` `~${props.stat.display(mid)}` `` for the ten bucket indices; `display` formats a number. */
  function Labels(data: seq<Num>, display: Num -> string): (labels: seq<string>)
    ensures |labels| == BucketCount
    ensures forall i :: 0 <= i < BucketCount ==> |labels[i]| >= 1 && labels[i][0] == '~'
    ensures forall i :: 0 <= i < BucketCount ==> labels[i][1..] == display(Midpoint(data, i))
  {
    seq(BucketCount, i requires 0 <= i < BucketCount => "~" + display(Midpoint(data, i)))
  }

  /** `Math.min` and `Math.max` of the data are finite and differ. */
  predicate Spread(data: seq<Num>, lo: real, hi: real) {
    MinOf(data) == Fin(lo) && MaxOf(data) == Fin(hi) && lo < hi
  }

  /**
   * When the smallest and largest values are finite and differ, the label of
   * bucket i names a value strictly inside the data's range that the
   * histogram itself puts in bucket i.
   */
  lemma MidpointInsideBucket(data: seq<Num>, i: nat, lo: real, hi: real)
    requires Spread(data, lo, hi) && i < BucketCount
    ensures var mid := Midpoint(data, i);
      mid.Fin? && lo < mid.v < hi &&
      BucketIndex(mid, MinOf(data), BucketSize(data)) == Fin(i as real)
  {
    var x := MidpointValue(data, i, lo, hi);
    HalfFloor(i);
    IndexOfQuotient(x, lo, (hi - lo) / 10.0, i as real + 0.5);
  }

  /** Finite data whose values are not all equal have a Spread. */
  lemma RealsSpread(rs: seq<real>)
    requires |rs| > 0 && SeqMin(rs) < SeqMax(rs)
    ensures Spread(Nums(rs), SeqMin(rs), SeqMax(rs))
  {
    MinMaxOfReals(rs);
  }

  /** The midpoint of bucket i, as a value whose offset from the minimum is i + 0.5 widths. */
  lemma MidpointValue(data: seq<Num>, i: nat, lo: real, hi: real) returns (x: real)
    requires Spread(data, lo, hi) && i < BucketCount
    ensures Midpoint(data, i) == Fin(x) && lo < x < hi
    ensures (x - lo) / ((hi - lo) / 10.0) == i as real + 0.5
  {
    var d, h := (hi - lo) / 10.0, i as real + 0.5;
    WidthOf(data, lo, hi);
    MidpointOfFinite(data, i, lo, d);
    HalfFloor(i);
    x := OffsetQuotient(lo, hi, h);
  }

  /** The midpoint of bucket i is the offset plus the width times i + 0.5. */
  lemma MidpointOfFinite(data: seq<Num>, i: nat, lo: real, d: real)
    requires MinOf(data) == Fin(lo) && BucketSize(data) == Fin(d)
    ensures Midpoint(data, i) == Fin(lo + d * (i as real + 0.5))
  {
    OffsetOfFinite(lo, d, i as real + 0.5);
  }

  lemma OffsetOfFinite(lo: real, d: real, h: real)
    ensures Offset(Fin(lo), Fin(d), h) == Fin(lo + d * h)
  {
  }

  lemma HalfFloor(i: nat)
    ensures 0.0 < i as real + 0.5 && (i as real + 0.5).Floor == i
    ensures i < BucketCount ==> i as real + 0.5 < 10.0
  {
  }

  /** A point at `q` widths from the offset, with 0 <= q < 10, is written at index floor(q). */
  lemma IndexOfQuotient(x: real, lo: real, d: real, q: real)
    requires d != 0.0 && (x - lo) / d == q && 0.0 <= q < 10.0
    ensures BucketIndex(Fin(x), Fin(lo), Fin(d)) == Fin(q.Floor as real)
  {
    assert Sub(Fin(x), Fin(lo)) == Fin(x - lo);
    assert q.Floor < 10;
  }

  /** Between 0 and 10 widths from lo lies strictly inside (lo, hi). */
  lemma OffsetQuotient(lo: real, hi: real, h: real) returns (x: real)
    requires lo < hi && 0.0 < h < 10.0
    ensures x == lo + (hi - lo) / 10.0 * h
    ensures lo < x < hi && (x - lo) / ((hi - lo) / 10.0) == h
  {
    var d := (hi - lo) / 10.0;
    assert d * 10.0 == hi - lo;
    PositiveProduct(d, h);
    ProductBelow(d, h);
    x := lo + d * h;
    QuotientOf(x - lo, d, h);
  }

  lemma QuotientOf(m: real, d: real, h: real)
    requires d != 0.0 && m == d * h
    ensures m / d == h
  {
  }

  lemma ProductBelow(d: real, h: real)
    requires 0.0 < d && h < 10.0
    ensures d * h < d * 10.0
  {
    PositiveProduct(d, 10.0 - h);
    assert d * (10.0 - h) == d * 10.0 - d * h;
  }

  lemma PositiveProduct(a: real, b: real)
    requires 0.0 < a && 0.0 < b
    ensures 0.0 < a * b
  {
  }

  lemma QuotientOrder(a: real, b: real, d: real)
    requires 0.0 < d && a / d <= b / d
    ensures a <= b
  {
    assert a == (a / d) * d && b == (b / d) * d;
  }

  /** With all values equal every label shows that value (the width is 0). */
  lemma EqualDataMidpoints(rs: seq<real>, i: nat)
    requires |rs| > 0 && SeqMin(rs) == SeqMax(rs)
    ensures Midpoint(Nums(rs), i) == Fin(SeqMin(rs))
  {
    MinMaxOfReals(rs);
    BucketSizeOfReals(rs);
  }

  /** With no data `min()` is +Infinity and `max()` -Infinity, so every midpoint is NaN. */
  lemma EmptyDataMidpoints(i: nat)
    ensures Midpoint([], i) == NaN
  {
    assert BucketSize([]) == NegInf;
  }

  /** A NaN value (a card missing the field) makes every midpoint NaN. */
  lemma NaNDataMidpoints(data: seq<Num>, j: nat, i: nat)
    requires j < |data| && data[j].NaN?
    ensures Midpoint(data, i) == NaN
  {
    NaNAbsorbs(data, j);
  }

  // ------------------------------------------------------------ bar colours

  /**
   * `colorLerp` on a JavaScript number: an infinity is clamped like any value
   * beyond the range; NaN passes both comparisons and gives NaN channels,
   * written here as None.
   */
  function LerpAt(c1: Color, c2: Color, v: Num): (c: Option<Color>)
    ensures c.None? <==> v.NaN?
    ensures v.NegInf? ==> c == Some(c1)
    ensures v.PosInf? ==> c == Some(c2)
    ensures v.Fin? ==> c == Some(ColorLerp(c1, c2, v.v))
  {
    match v
    case NaN => None
    case NegInf => Some(ColorLerp(c1, c2, 0.0))
    case PosInf => Some(ColorLerp(c1, c2, 1.0))
    case Fin(a) => Some(ColorLerp(c1, c2, a))
  }

  /** `(mid - stat.range[0]) / (stat.range[1] - stat.range[0])`. */
  function ColorParameter(mid: Num, stat: Stat): Num {
    var (low, high) := Range(stat);
    Div(Sub(mid, Fin(low)), Fin(high - low))
  }

  /** The colour of a bar whose bucket midpoint is `mid`; None stands for NaN channels. */
  function ColorOf(mid: Num, stat: Stat): (c: Option<Color>)
    ensures c.None? <==> mid.NaN?
    ensures mid.PosInf? ==> c == Some(HighColor)
    ensures mid.NegInf? ==> c == Some(LowColor)
  {
    LerpAt(LowColor, HighColor, ColorParameter(mid, stat))
  }

  /** `backgroundColor` of bar i: the bucket midpoint placed on the statistic's range, from green to red. */
  function BarColor(data: seq<Num>, stat: Stat, i: nat): (c: Option<Color>)
    ensures c.None? <==> Midpoint(data, i).NaN?
  {
    ColorOf(Midpoint(data, i), stat)
  }

  /** The colour parameter rises with the value. */
  lemma ColorParameterMonotone(stat: Stat, a: real, b: real)
    requires a <= b
    ensures var (low, high) := Range(stat);
      (a - low) / (high - low) <= (b - low) / (high - low)
  {
    var (low, high) := Range(stat);
    var w := high - low;
    assert (b - low) / w - (a - low) / w == (b - a) / w;
  }

  /**
   * The colour parameter places a value on the statistic's range: 0 at its
   * lower bound and 1 at its upper bound.
   */
  lemma ColorParameterEnds(stat: Stat)
    ensures ColorParameter(Fin(Range(stat).0), stat) == Fin(0.0)
    ensures ColorParameter(Fin(Range(stat).1), stat) == Fin(1.0)
  {
    var w := Range(stat).1 - Range(stat).0;
    ParameterOfFinite(stat, Range(stat).0);
    ParameterOfFinite(stat, Range(stat).1);
    assert Range(stat).0 - Range(stat).0 == 0.0;
    QuotientOf(0.0, w, 0.0);
    QuotientOf(w, w, 1.0);
  }

  /** The lowest value of a statistic's range is coloured green, the highest red. */
  lemma RangeEndColors(stat: Stat)
    ensures ColorOf(Fin(Range(stat).0), stat) == Some(LowColor)
    ensures ColorOf(Fin(Range(stat).1), stat) == Some(HighColor)
  {
    ColorParameterEnds(stat);
  }

  lemma ParameterOfFinite(stat: Stat, x: real)
    ensures ColorParameter(Fin(x), stat) == Fin((x - Range(stat).0) / (Range(stat).1 - Range(stat).0))
  {
    var (low, high) := Range(stat);
    assert Sub(Fin(x), Fin(low)) == Fin(x - low);
  }

  /**
   * When the smallest and largest values are finite and differ, the bars
   * redden from left to right: red and blue never fall and green never rises
   * as the bucket index grows.
   */
  lemma BarsReddenToTheRight(data: seq<Num>, stat: Stat, i: nat, j: nat, lo: real, hi: real)
    requires Spread(data, lo, hi) && i <= j < BucketCount
    ensures var ci, cj := BarColor(data, stat, i), BarColor(data, stat, j);
      ci.Some? && cj.Some? &&
      ci.value.r <= cj.value.r && ci.value.g >= cj.value.g && ci.value.b <= cj.value.b
  {
    var a := MidpointValue(data, i, lo, hi);
    var b := MidpointValue(data, j, lo, hi);
    QuotientOrder(a - lo, b - lo, (hi - lo) / 10.0);
    ColorOfFinite(a, stat);
    ColorOfFinite(b, stat);
    ColoursRedden(stat, a, b);
  }

  /** A finite midpoint is coloured by its position on the statistic's range. */
  lemma ColorOfFinite(x: real, stat: Stat)
    ensures ColorOf(Fin(x), stat) == Some(ColorAt(stat, x))
  {
    var low, high := Range(stat).0, Range(stat).1;
    var t := (x - low) / (high - low);
    assert Sub(Fin(x), Fin(low)) == Fin(x - low);
    assert ColorParameter(Fin(x), stat) == Fin(t);
    assert ColorAt(stat, x) == ColorLerp(LowColor, HighColor, t);
  }

  /** The colour `colorLerp` gives a finite value of a statistic. */
  function ColorAt(stat: Stat, x: real): Color {
    ColorLerp(LowColor, HighColor, (x - Range(stat).0) / (Range(stat).1 - Range(stat).0))
  }

  lemma ColoursRedden(stat: Stat, a: real, b: real)
    requires a <= b
    ensures ColorAt(stat, a).r <= ColorAt(stat, b).r
    ensures ColorAt(stat, a).g >= ColorAt(stat, b).g
    ensures ColorAt(stat, a).b <= ColorAt(stat, b).b
  {
    var (low, high) := Range(stat);
    ColorParameterMonotone(stat, a, b);
    LowToHighIsMonotone((a - low) / (high - low), (b - low) / (high - low));
  }

  // ------------------------------------------------------------ total and average

  /** `data.reduce((accum, next) => accum + next)` on a non-empty array. */
  function TotalFold(data: seq<Num>): Num
    requires |data| > 0
  {
    if |data| == 1 then data[0] else Add(TotalFold(data[..|data| - 1]), data[|data| - 1])
  }

  /** `data.reduce((accum, next) => (accum + next) / 2.0)` on a non-empty array. */
  function AverageFold(data: seq<Num>): Num
    requires |data| > 0
  {
    if |data| == 1 then data[0] else Div(Add(AverageFold(data[..|data| - 1]), data[|data| - 1]), Fin(2.0))
  }

  /** `total()`: `reduce` without an initial value throws a TypeError on an empty array (None). */
  function Total(data: seq<Num>): (t: Option<Num>)
    ensures t.None? <==> data == []
  {
    if data == [] then None else Some(TotalFold(data))
  }

  /** `average()`: None for the TypeError on an empty array. */
  function Average(data: seq<Num>): (a: Option<Num>)
    ensures a.None? <==> data == []
  {
    if data == [] then None else Some(AverageFold(data))
  }

  /** On finite data the total is the sum of the values. */
  lemma {:induction false} TotalOfReals(rs: seq<real>)
    requires |rs| > 0
    ensures Total(Nums(rs)) == Some(Fin(Sum(rs)))
  {
    var n := |rs|;
    NumsInit(rs);
    if n == 1 {
      assert rs[..0] == [];
    } else {
      TotalOfReals(rs[..n - 1]);
    }
  }

  /**
   * On finite data the displayed average is the halving fold of the values,
   * which lies between the smallest and the largest value but is not their
   * mean (Folds.HalvingFoldIsNotMean).
   */
  lemma {:induction false} AverageOfReals(rs: seq<real>)
    requires |rs| > 0
    ensures Average(Nums(rs)) == Some(Fin(HalvingFold(rs)))
    ensures SeqMin(rs) <= HalvingFold(rs) <= SeqMax(rs)
  {
    var n := |rs|;
    NumsInit(rs);
    if n > 1 {
      AverageOfReals(rs[..n - 1]);
    }
    HalvingFoldBounds(rs);
  }

  /** One NaN value (a card without the field) makes both the total and the average NaN. */
  lemma {:induction false} NaNPoisonsTotals(data: seq<Num>, j: nat)
    requires j < |data| && data[j].NaN?
    ensures Total(data) == Some(NaN) && Average(data) == Some(NaN)
  {
    var n := |data|;
    if n > 1 && j < n - 1 {
      NaNPoisonsTotals(data[..n - 1], j);
    }
  }

  // ------------------------------------------------------------ the data of ChartSlide

  /**
   * The points the histogram counts for a statistic are the cards that have a
   * value for it: every other card is NaN and is skipped by `isFinite`.
   */
  lemma {:induction false} ChartedPointsAreCardsWithValue(cards: seq<CardRecord>, stat: Stat)
    ensures FiniteCount(Project(cards, stat)) == CountWithValue(cards, stat)
  {
    if cards != [] {
      var n := |cards|;
      ChartedPointsAreCardsWithValue(cards[..n - 1], stat);
      assert Project(cards, stat)[..n - 1] == Project(cards[..n - 1], stat);
    }
  }
}
