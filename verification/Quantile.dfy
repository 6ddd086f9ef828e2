/** Histogram quantiles: `computeQuantiles` and `histogramQuantile` in traffic_metrics_service.go,
    over exact reals.
 */
module Quantile {
  import opened Wrappers
  import opened Sorting

  datatype Bound = Finite(le: real) | Infinite {
    predicate AtMost(other: Bound) {
      other.Infinite? || (Finite? && le <= other.le)
    }
  }

  datatype Bucket = Bucket(bound: Bound, count: int)

  ghost predicate Sorted(bs: seq<Bucket>) {
    forall i, j :: 0 <= i < j < |bs| ==> bs[i].bound.AtMost(bs[j].bound)
  }

  /** What the caller passes on good data: sorted, bounds not negative, the last bucket is +Inf
      and holds a positive total. Counts need not be monotone. */
  ghost predicate WellFormed(bs: seq<Bucket>, total: int) {
    && Sorted(bs) && bs != [] && bs[|bs| - 1] == Bucket(Infinite, total) && total > 0
    && forall i :: 0 <= i < |bs| && bs[i].bound.Finite? ==> bs[i].bound.le >= 0.0
  }

  // ------------------------------------------------------------ reference

  /** Index of the first bucket that reaches the rank, or the length. */
  ghost function First(bs: seq<Bucket>, rank: real): (i: nat)
    ensures i <= |bs|
    ensures forall k :: 0 <= k < i ==> bs[k].count as real < rank
    ensures i < |bs| ==> bs[i].count as real >= rank
  {
    if bs == [] || bs[0].count as real >= rank then 0 else First(bs[1..], rank) + 1
  }

  /** The largest finite bound, and at least zero. */
  ghost function LargestFinite(bs: seq<Bucket>): (m: real)
    ensures m >= 0.0
    ensures forall b :: b in bs && b.bound.Finite? ==> b.bound.le <= m
    ensures m == 0.0 || exists b :: b in bs && b.bound == Finite(m)
  {
    if bs == [] then 0.0
    else
      var m, b := LargestFinite(bs[..|bs| - 1]), bs[|bs| - 1];
      if b.bound.Finite? && b.bound.le > m then b.bound.le else m
  }

  ghost function LowerBound(bs: seq<Bucket>, i: nat): real
    requires i <= |bs|
  {
    if i == 0 || bs[i - 1].bound.Infinite? then 0.0 else bs[i - 1].bound.le
  }

  ghost function LowerCount(bs: seq<Bucket>, i: nat): int
    requires i <= |bs|
  {
    if i == 0 then 0 else bs[i - 1].count
  }

  /** The point between two bounds that divides them as the rank divides two counts. */
  function Lerp(lo: real, hi: real, lowCount: real, highCount: real, rank: real): real
    requires highCount != lowCount
  {
    lo + (rank - lowCount) / (highCount - lowCount) * (hi - lo)
  }

  function Rank(q: real, total: int): real {
    q * total as real
  }

  /** The value at a rank, by linear interpolation inside the first bucket that reaches it. */
  ghost function Value(bs: seq<Bucket>, rank: real): real {
    var i := First(bs, rank);
    if i == |bs| || bs[i].bound.Infinite? then LargestFinite(bs)
    else if bs[i].count == LowerCount(bs, i) then LowerBound(bs, i)
    else Lerp(LowerBound(bs, i), bs[i].bound.le, LowerCount(bs, i) as real, bs[i].count as real, rank)
  }

  // ------------------------------------------------------------ the code

  lemma {:induction false} FirstIs(bs: seq<Bucket>, rank: real, i: nat)
    requires i <= |bs| && (i < |bs| ==> bs[i].count as real >= rank)
    requires forall k :: 0 <= k < i ==> !(bs[k].count as real >= rank)
    ensures First(bs, rank) == i
  {
  }

  method LargestFiniteBound(bs: seq<Bucket>) returns (m: real)
    ensures m == LargestFinite(bs)
  {
    m := 0.0;
    assert bs[..|bs|] == bs;
    for i := 0 to |bs|
      invariant m == LargestFinite(bs[..i])
    {
      assert bs[..i + 1][..i] == bs[..i];
      if bs[i].bound.Finite? && bs[i].bound.le > m {
        m := bs[i].bound.le;
      }
    }
  }

  /** The interpolation loop of `histogramQuantile`, for a given rank. */
  method ValueAtRank(bs: seq<Bucket>, rank: real) returns (v: real)
    requires Sorted(bs)
    ensures v == Value(bs, rank)
  {
    var largestFinite := LargestFiniteBound(bs);
    var lowerBound := 0.0;
    var lowerCount := 0;
    for i := 0 to |bs|
      invariant lowerBound == LowerBound(bs, i) && lowerCount == LowerCount(bs, i)
      invariant forall k :: 0 <= k < i ==> !(bs[k].count as real >= rank)
    {
      var b := bs[i];
      if b.count as real >= rank {
        FirstIs(bs, rank, i);
        if b.bound.Infinite? {
          return largestFinite;
        }
        if b.count == lowerCount {
          return lowerBound;
        }
        return Lerp(lowerBound, b.bound.le, lowerCount as real, b.count as real, rank);
      }
      lowerBound := if b.bound.Finite? then b.bound.le else 0.0;
      lowerCount := b.count;
    }
    FirstIs(bs, rank, |bs|);
    return largestFinite;
  }

  /** `histogramQuantile`. */
  method HistogramQuantile(q: real, bs: seq<Bucket>, total: int) returns (v: real)
    requires Sorted(bs)
    ensures v == Value(bs, Rank(q, total))
  {
    v := ValueAtRank(bs, Rank(q, total));
  }

  // ------------------------------------------------------------ properties

  lemma Grow(x: real, y: real, d: real)
    requires x <= y && 0.0 <= d
    ensures x * d <= y * d
  {
  }

  lemma DivideMonotone(x: real, y: real, d: real)
    requires x <= y && 0.0 < d
    ensures x / d <= y / d
  {
    Grow(x, y, 1.0 / d);
    assert x / d == x * (1.0 / d) && y / d == y * (1.0 / d);
  }

  lemma LerpMonotone(lo: real, hi: real, lowCount: real, highCount: real, r: real, r': real)
    requires lo <= hi && lowCount < highCount && r <= r'
    ensures Lerp(lo, hi, lowCount, highCount, r) <= Lerp(lo, hi, lowCount, highCount, r')
  {
    var d := highCount - lowCount;
    DivideMonotone(r - lowCount, r' - lowCount, d);
    Grow((r - lowCount) / d, (r' - lowCount) / d, hi - lo);
  }

  /** The value divides the bracket as the rank divides the counts. */
  predicate Proportional(v: real, lo: real, hi: real, lowCount: real, highCount: real, rank: real) {
    (v - lo) * (highCount - lowCount) == (rank - lowCount) * (hi - lo)
  }

  /** Interpolation is linear: the parts of the bracket stand in the proportion of the counts. */
  lemma LerpProportional(lo: real, hi: real, lowCount: real, highCount: real, rank: real)
    requires highCount != lowCount
    ensures Proportional(Lerp(lo, hi, lowCount, highCount, rank), lo, hi, lowCount, highCount, rank)
  {
    var a, d, w := rank - lowCount, highCount - lowCount, hi - lo;
    assert a / d * d == a;
    assert (a / d * w) * d == (a / d * d) * w;
  }

  lemma LerpBounds(lo: real, hi: real, lowCount: real, highCount: real, rank: real)
    requires lo <= hi && lowCount < rank <= highCount
    ensures lo <= Lerp(lo, hi, lowCount, highCount, rank) <= hi
  {
    var d := highCount - lowCount;
    LerpMonotone(lo, hi, lowCount, highCount, lowCount, rank);
    LerpMonotone(lo, hi, lowCount, highCount, rank, highCount);
    assert 0.0 / d == 0.0 && d / d == 1.0;
  }

  /** Between zero and the total, the first bucket that reaches the rank exists, holds more than
      the one before it, and its bounds are in order. */
  lemma SelectsBracket(bs: seq<Bucket>, total: int, rank: real)
    requires WellFormed(bs, total) && 0.0 < rank <= total as real
    ensures var i := First(bs, rank);
            && i < |bs| && LowerCount(bs, i) as real < rank <= bs[i].count as real
            && 0.0 <= LowerBound(bs, i) <= LargestFinite(bs)
            && (bs[i].bound.Finite? ==> LowerBound(bs, i) <= bs[i].bound.le <= LargestFinite(bs))
  {
    var i := First(bs, rank);
    assert i < |bs| by {
      assert bs[|bs| - 1].count as real >= rank;
    }
    assert bs[i] in bs;
    if i > 0 {
      assert bs[i - 1] in bs && bs[i - 1].bound.AtMost(bs[i].bound);
    }
  }

  /** The answer lies in the bracket of the bucket it selects and below the largest finite bound;
      the guard against equal counts and the return after the loop are never taken. */
  lemma InBracket(bs: seq<Bucket>, total: int, rank: real)
    requires WellFormed(bs, total) && 0.0 < rank <= total as real
    ensures var i := First(bs, rank);
            && i < |bs| && bs[i].count != LowerCount(bs, i)
            && 0.0 <= LowerBound(bs, i) <= Value(bs, rank) <= LargestFinite(bs)
            && (bs[i].bound.Finite? ==> Value(bs, rank) <= bs[i].bound.le)
  {
    SelectsBracket(bs, total, rank);
    var i := First(bs, rank);
    if bs[i].bound.Finite? {
      LerpBounds(LowerBound(bs, i), bs[i].bound.le, LowerCount(bs, i) as real, bs[i].count as real, rank);
    }
  }

  /** What the value is, in terms of the listing alone: the first bucket i that reaches the rank is cut at
      the point that divides its width, from the bound before it or zero, as the rank divides its
      observations; in the +Inf bucket it is the largest finite bound. */
  ghost predicate Interpolates(bs: seq<Bucket>, rank: real, v: real) {
    exists i :: 0 <= i < |bs| && bs[i].count as real >= rank
                && (forall k :: 0 <= k < i ==> (bs[k].count as real) < rank)
                && DividesAt(bs, i, rank, v)
  }

  ghost predicate DividesAt(bs: seq<Bucket>, i: nat, rank: real, v: real)
    requires i < |bs|
  {
    if bs[i].bound.Infinite? then v == LargestFinite(bs)
    else if i == 0 then Proportional(v, 0.0, bs[0].bound.le, 0.0, bs[0].count as real, rank)
    else
      && bs[i - 1].bound.Finite?
      && Proportional(v, bs[i - 1].bound.le, bs[i].bound.le, bs[i - 1].count as real, bs[i].count as real, rank)
  }

  lemma ValueInterpolates(bs: seq<Bucket>, total: int, rank: real)
    requires WellFormed(bs, total) && 0.0 < rank <= total as real
    ensures Interpolates(bs, rank, Value(bs, rank))
  {
    SelectsBracket(bs, total, rank);
    var i := First(bs, rank);
    if bs[i].bound.Finite? {
      if i > 0 {
        BoundsAscend(bs, i - 1, i);
      }
      LerpProportional(LowerBound(bs, i), bs[i].bound.le, LowerCount(bs, i) as real, bs[i].count as real, rank);
    }
    assert DividesAt(bs, i, rank, Value(bs, rank));
  }

  /** Values are monotone in the rank. */
  lemma MonotoneInRank(bs: seq<Bucket>, total: int, r: real, r': real)
    requires WellFormed(bs, total) && 0.0 < r <= r' <= total as real
    ensures Value(bs, r) <= Value(bs, r')
  {
    var i, j := First(bs, r), First(bs, r');
    InBracket(bs, total, r);
    InBracket(bs, total, r');
    assert i <= j;
    if bs[j].bound.Finite? {
      if i == j {
        SelectsBracket(bs, total, r);
        LerpMonotone(LowerBound(bs, i), bs[i].bound.le, LowerCount(bs, i) as real, bs[i].count as real, r, r');
      } else {
        BoundsAscend(bs, i, j);
      }
    }
  }

  lemma BoundsAscend(bs: seq<Bucket>, i: nat, j: nat)
    requires Sorted(bs) && i < j < |bs| && bs[j].bound.Finite?
    ensures bs[i].bound.Finite? && bs[i].bound.le <= LowerBound(bs, j)
  {
    assert bs[i].bound.AtMost(bs[j].bound) && bs[j - 1].bound.AtMost(bs[j].bound);
    assert i < j - 1 ==> bs[i].bound.AtMost(bs[j - 1].bound);
  }

  /** Quantiles are monotone in q, not negative and never above the largest finite bound. */
  lemma Monotone(q: real, q': real, bs: seq<Bucket>, total: int)
    requires WellFormed(bs, total) && 0.0 < q <= q' <= 1.0
    ensures 0.0 <= Value(bs, Rank(q, total)) <= Value(bs, Rank(q', total)) <= LargestFinite(bs)
  {
    var r, r' := Rank(q, total), Rank(q', total);
    assert 0.0 < r <= r' <= total as real;
    InBracket(bs, total, r);
    InBracket(bs, total, r');
    MonotoneInRank(bs, total, r, r');
  }

  // ------------------------------------------------------------ from labels to quantiles

  /** A bucket label as a bound; `parse` reads a number. */
  function BoundOf(parse: string -> Option<real>, le: string): Option<Bound> {
    if le == "+Inf" then Some(Infinite)
    else match parse(le) case Some(x) => Some(Finite(x)) case None => None
  }

  /** The list holds exactly the buckets whose labels parse. */
  ghost predicate Lists(parse: string -> Option<real>, hist: map<string, int>, bs: seq<Bucket>) {
    && (forall b :: b in bs ==> exists l :: l in hist && BoundOf(parse, l) == Some(b.bound) && hist[l] == b.count)
    && (forall l :: l in hist && BoundOf(parse, l).Some? ==> Bucket(BoundOf(parse, l).value, hist[l]) in bs)
  }

  /** A sorted listing of the histogram that ends in its +Inf bucket. */
  ghost predicate ListsUpTo(parse: string -> Option<real>, hist: map<string, int>, total: int, bs: seq<Bucket>) {
    Lists(parse, hist, bs) && Sorted(bs) && bs != [] && bs[|bs| - 1] == Bucket(Infinite, total)
  }

  /** p50 and p95 in milliseconds of a histogram, or zeros if it has no observations or no +Inf bucket. */
  ghost predicate QuantilesOf(parse: string -> Option<real>, hist: map<string, int>, p50: real, p95: real) {
    if "+Inf" !in hist || hist["+Inf"] == 0 then p50 == p95 == 0.0
    else
      var total := hist["+Inf"];
      exists bs :: ListsUpTo(parse, hist, total, bs) && QuantilesIn(bs, total, p50, p95)
  }

  ghost predicate QuantilesIn(bs: seq<Bucket>, total: int, p50: real, p95: real) {
    p50 == Value(bs, Rank(0.5, total)) * 1000.0 && p95 == Value(bs, Rank(0.95, total)) * 1000.0
  }

  predicate AtMost(a: Bucket, b: Bucket) { a.bound.AtMost(b.bound) }

  method SortBuckets(bs: seq<Bucket>) returns (r: seq<Bucket>)
    ensures Sorted(r) && multiset(r) == multiset(bs)
    ensures forall b :: b in r <==> b in bs
  {
    r := Sort(bs, AtMost);
    PermutationHasSame(bs, r);
    assert forall i, j :: 0 <= i < j < |r| ==> AtMost(r[i], r[j]);
  }

  /** The parsed buckets of the histogram in some order. */
  method ParseBuckets(parse: string -> Option<real>, hist: map<string, int>) returns (bs: seq<Bucket>)
    ensures Lists(parse, hist, bs)
  {
    bs := [];
    var todo := hist.Keys;
    while todo != {}
      invariant todo <= hist.Keys
      invariant forall b :: b in bs ==>
                  exists l :: l in hist && BoundOf(parse, l) == Some(b.bound) && hist[l] == b.count
      invariant forall l :: l in hist && l !in todo && BoundOf(parse, l).Some? ==>
                  Bucket(BoundOf(parse, l).value, hist[l]) in bs
    {
      var le :| le in todo;
      todo := todo - {le};
      var bound := BoundOf(parse, le);
      if bound.Some? {
        bs := bs + [Bucket(bound.value, hist[le])];
      }
    }
  }

  /** The guards of computeQuantiles see the +Inf bucket exactly when the histogram has one. */
  lemma LastIsInfinite(parse: string -> Option<real>, hist: map<string, int>, bs: seq<Bucket>)
    requires Lists(parse, hist, bs) && Sorted(bs)
    ensures "+Inf" in hist <==> bs != [] && bs[|bs| - 1].bound.Infinite?
    ensures "+Inf" in hist ==> ListsUpTo(parse, hist, hist["+Inf"], bs)
  {
    if "+Inf" in hist {
      var b := Bucket(Infinite, hist["+Inf"]);
      assert BoundOf(parse, "+Inf") == Some(Infinite);
      var k :| 0 <= k < |bs| && bs[k] == b;
      assert bs[k].bound.AtMost(bs[|bs| - 1].bound);
    }
    if bs != [] {
      assert bs[|bs| - 1] in bs;
    }
  }

  /** `computeQuantiles`. */
  method ComputeQuantiles(parse: string -> Option<real>, hist: map<string, int>) returns (p50: real, p95: real)
    ensures QuantilesOf(parse, hist, p50, p95)
  {
    if |hist| == 0 {
      return 0.0, 0.0;
    }
    var parsed := ParseBuckets(parse, hist);
    if |parsed| == 0 {
      LastIsInfinite(parse, hist, parsed);
      return 0.0, 0.0;
    }
    var bs := SortBuckets(parsed);
    LastIsInfinite(parse, hist, bs);
    if bs[|bs| - 1].bound.Finite? {
      return 0.0, 0.0;
    }
    var total := bs[|bs| - 1].count;
    if total == 0 {
      return 0.0, 0.0;
    }
    var u := HistogramQuantile(0.5, bs, total);
    var v := HistogramQuantile(0.95, bs, total);
    return u * 1000.0, v * 1000.0;
  }

  /** No label of the histogram reads as a negative bound. */
  ghost predicate NotNegative(parse: string -> Option<real>, hist: map<string, int>) {
    forall le :: le in hist && le != "+Inf" && parse(le).Some? ==> parse(le).value >= 0.0
  }

  /** A listing is good data when the labels are not negative and there are observations. */
  lemma ListingIsWellFormed(parse: string -> Option<real>, hist: map<string, int>, total: int, bs: seq<Bucket>)
    requires ListsUpTo(parse, hist, total, bs) && total > 0
    requires NotNegative(parse, hist)
    ensures WellFormed(bs, total)
  {
    forall i | 0 <= i < |bs| && bs[i].bound.Finite?
      ensures bs[i].bound.le >= 0.0
    {
      assert bs[i] in bs;
    }
  }

  lemma Ranks(total: int)
    requires total > 0
    ensures Rank(0.5, total) == total as real / 2.0 && Rank(0.95, total) == total as real * 19.0 / 20.0
    ensures 0.0 < Rank(0.5, total) <= total as real && 0.0 < Rank(0.95, total) <= total as real
  {
  }

  /** The interpolated value at a rank, in milliseconds. */
  ghost predicate MillisAt(bs: seq<Bucket>, rank: real, p: real) {
    exists v :: Interpolates(bs, rank, v) && p == v * 1000.0
  }

  /** The values at one half and at nineteen twentieths of the observations. */
  ghost predicate HalfAndMost(bs: seq<Bucket>, total: int, p50: real, p95: real) {
    MillisAt(bs, total as real / 2.0, p50) && MillisAt(bs, total as real * 19.0 / 20.0, p95)
  }

  lemma MillisOfValue(bs: seq<Bucket>, total: int, rank: real)
    requires WellFormed(bs, total) && 0.0 < rank <= total as real
    ensures MillisAt(bs, rank, Value(bs, rank) * 1000.0)
  {
    ValueInterpolates(bs, total, rank);
  }

  lemma QuantilesInMean(bs: seq<Bucket>, total: int, p50: real, p95: real)
    requires WellFormed(bs, total) && QuantilesIn(bs, total, p50, p95)
    ensures HalfAndMost(bs, total, p50, p95)
  {
    Ranks(total);
    MillisOfValue(bs, total, Rank(0.5, total));
    MillisOfValue(bs, total, Rank(0.95, total));
  }

  /** What the two numbers mean, in some sorted listing of the histogram. */
  lemma QuantilesMean(parse: string -> Option<real>, hist: map<string, int>, p50: real, p95: real)
    requires QuantilesOf(parse, hist, p50, p95) && NotNegative(parse, hist)
    requires "+Inf" in hist && hist["+Inf"] > 0
    ensures exists bs :: ListsUpTo(parse, hist, hist["+Inf"], bs) && HalfAndMost(bs, hist["+Inf"], p50, p95)
  {
    var total := hist["+Inf"];
    var bs :| ListsUpTo(parse, hist, total, bs) && QuantilesIn(bs, total, p50, p95);
    ListingIsWellFormed(parse, hist, total, bs);
    QuantilesInMean(bs, total, p50, p95);
  }

  /** With labels and observations that are not negative, 0 <= p50 <= p95. */
  lemma MedianBelowP95(parse: string -> Option<real>, hist: map<string, int>, p50: real, p95: real)
    requires QuantilesOf(parse, hist, p50, p95) && NotNegative(parse, hist)
    requires "+Inf" in hist ==> hist["+Inf"] >= 0
    ensures 0.0 <= p50 <= p95
  {
    if "+Inf" in hist && hist["+Inf"] > 0 {
      var total := hist["+Inf"];
      var bs :| ListsUpTo(parse, hist, total, bs) && QuantilesIn(bs, total, p50, p95);
      ListingIsWellFormed(parse, hist, total, bs);
      Monotone(0.5, 0.95, bs, total);
    }
  }
}
