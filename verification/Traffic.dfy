/** Traffic series: `computeSeries` turns cumulative samples into per-step deltas.
    Times count from Go's zero time, in the unit of the step.
 */
module Traffic {
  import opened Wrappers
  import opened Quantile
  import opened Sorting

  datatype Counts = Counts(req2xx: int, req3xx: int, req4xx: int, req5xx: int, reqOther: int,
                           bytesIn: int, bytesOut: int)

  const ZERO := Counts(0, 0, 0, 0, 0, 0, 0)

  datatype Counter = Req2xx | Req3xx | Req4xx | Req5xx | ReqOther | BytesIn | BytesOut

  function Get(c: Counts, k: Counter): int {
    match k
    case Req2xx => c.req2xx
    case Req3xx => c.req3xx
    case Req4xx => c.req4xx
    case Req5xx => c.req5xx
    case ReqOther => c.reqOther
    case BytesIn => c.bytesIn
    case BytesOut => c.bytesOut
  }

  datatype Sample = Sample(at: int, counts: Counts, durationCount: int, durations: map<string, int>, inFlight: int)

  datatype Accumulator = Accumulator(counts: Counts, hist: map<string, int>, inFlight: int)

  datatype Point = Point(t: int, counts: Counts, p50: real, p95: real, inFlight: int)

  function ClampNeg(delta: int): int { if delta < 0 then 0 else delta }

  function Add(a: Counts, b: Counts): Counts {
    Counts(a.req2xx + b.req2xx, a.req3xx + b.req3xx, a.req4xx + b.req4xx, a.req5xx + b.req5xx,
           a.reqOther + b.reqOther, a.bytesIn + b.bytesIn, a.bytesOut + b.bytesOut)
  }

  predicate IsReset(prev: Sample, cur: Sample) { cur.durationCount < prev.durationCount }

  /** A pair across a counter reset contributes nothing; otherwise each counter its clamped growth. */
  function Delta(prev: Sample, cur: Sample): Counts {
    if IsReset(prev, cur) then ZERO
    else
      Counts(ClampNeg(cur.counts.req2xx - prev.counts.req2xx), ClampNeg(cur.counts.req3xx - prev.counts.req3xx),
             ClampNeg(cur.counts.req4xx - prev.counts.req4xx), ClampNeg(cur.counts.req5xx - prev.counts.req5xx),
             ClampNeg(cur.counts.reqOther - prev.counts.reqOther), ClampNeg(cur.counts.bytesIn - prev.counts.bytesIn),
             ClampNeg(cur.counts.bytesOut - prev.counts.bytesOut))
  }

  /** `bucketDeltas`. */
  function DurationDeltas(prev: map<string, int>, cur: map<string, int>): map<string, int> {
    map le | le in cur :: ClampNeg(cur[le] - if le in prev then prev[le] else 0)
  }

  function HistDelta(prev: Sample, cur: Sample): map<string, int> {
    if IsReset(prev, cur) then map[] else DurationDeltas(prev.durations, cur.durations)
  }

  function Merge(into: map<string, int>, deltas: map<string, int>): map<string, int> {
    map le | le in into.Keys + deltas.Keys ::
      (if le in into then into[le] else 0) + (if le in deltas then deltas[le] else 0)
  }

  /** `Truncate` of a time to the step. */
  function Boundary(at: int, step: nat): int
    requires step > 0
  {
    at - at % step
  }

  // ------------------------------------------------------------ reference

  /** What the first n samples put into the step that begins at t. */
  ghost function InStep(samples: seq<Sample>, n: nat, step: nat, t: int): Accumulator
    requires n <= |samples| && step > 0
  {
    if n <= 1 then Accumulator(ZERO, map[], 0)
    else
      var acc := InStep(samples, n - 1, step, t);
      var prev, cur := samples[n - 2], samples[n - 1];
      if Boundary(cur.at, step) == t
      then Accumulator(Add(acc.counts, Delta(prev, cur)), Merge(acc.hist, HistDelta(prev, cur)), cur.inFlight)
      else acc
  }

  /** Some sample after the first falls into the step. */
  ghost predicate Hit(samples: seq<Sample>, n: nat, step: nat, t: int)
    requires n <= |samples| && step > 0
  {
    exists k :: 1 <= k < n && Boundary(samples[k].at, step) == t
  }

  /** All growth between neighbouring samples. */
  ghost function TotalGrowth(samples: seq<Sample>, n: nat): Counts
    requires n <= |samples|
  {
    if n <= 1 then ZERO else Add(TotalGrowth(samples, n - 1), Delta(samples[n - 2], samples[n - 1]))
  }

  ghost function SumOfPoints(points: seq<Point>): Counts {
    if points == [] then ZERO else Add(SumOfPoints(points[..|points| - 1]), points[|points| - 1].counts)
  }

  ghost predicate Ascending(ts: seq<int>) {
    forall i, j :: 0 <= i < j < |ts| ==> ts[i] < ts[j]
  }

  /** The point states what its step received. */
  ghost predicate Describes(parse: string -> Option<real>, samples: seq<Sample>, step: nat, p: Point)
    requires step > 0
  {
    var acc := InStep(samples, |samples|, step, p.t);
    p.counts == acc.counts && p.inFlight == acc.inFlight && QuantilesOf(parse, acc.hist, p.p50, p.p95)
  }

  /** One point for each step hit, in ascending order. */
  ghost predicate IsSeries(parse: string -> Option<real>, samples: seq<Sample>, step: nat, points: seq<Point>)
    requires step > 0
  {
    && (forall i, j :: 0 <= i < j < |points| ==> points[i].t < points[j].t)
    && (forall i :: 0 <= i < |points| ==> Hit(samples, |samples|, step, points[i].t))
    && (forall k :: 1 <= k < |samples| ==>
          exists i :: 0 <= i < |points| && points[i].t == Boundary(samples[k].at, step))
    && (forall i :: 0 <= i < |points| ==> Describes(parse, samples, step, points[i]))
  }

  // ------------------------------------------------------------ the code

  predicate AtMost(a: int, b: int) { a <= b }

  /** `sort.Slice` on distinct keys. */
  method SortTimes(keys: seq<int>) returns (r: seq<int>)
    requires forall i, j :: 0 <= i < j < |keys| ==> keys[i] != keys[j]
    ensures Ascending(r) && multiset(r) == multiset(keys)
    ensures forall t :: t in r <==> t in keys
  {
    r := Sort(keys, AtMost);
    PermutationHasSame(keys, r);
    PermutationIsDistinct(keys, r);
    assert forall i, j :: 0 <= i < j < |r| ==> AtMost(r[i], r[j]) && r[i] != r[j];
  }

  /** The accumulation loop: one accumulator for each step hit. */
  method Accumulate(samples: seq<Sample>, step: nat) returns (keys: seq<int>, buckets: map<int, Accumulator>)
    requires step > 0
    ensures forall i, j :: 0 <= i < j < |keys| ==> keys[i] != keys[j]
    ensures forall t :: t in keys <==> t in buckets
    ensures forall t :: t in buckets <==> Hit(samples, |samples|, step, t)
    ensures forall t :: t in buckets ==> buckets[t] == InStep(samples, |samples|, step, t)
  {
    keys, buckets := [], map[];
    if |samples| == 0 {
      return;
    }
    for i := 1 to |samples|
      invariant forall a, b :: 0 <= a < b < |keys| ==> keys[a] != keys[b]
      invariant forall t :: t in keys <==> t in buckets
      invariant forall t :: t in buckets <==> Hit(samples, i, step, t)
      invariant forall t :: t in buckets ==> buckets[t] == InStep(samples, i, step, t)
    {
      var prev, cur := samples[i - 1], samples[i];
      var boundary := Boundary(cur.at, step);
      HitStep(samples, i, step);
      if boundary !in buckets {
        InStepEmpty(samples, i, step, boundary);
        buckets := buckets[boundary := Accumulator(ZERO, map[], 0)];
        keys := keys + [boundary];
      }
      var acc := buckets[boundary];
      acc := acc.(counts := Add(acc.counts, Delta(prev, cur)));
      acc := acc.(inFlight := cur.inFlight);
      acc := acc.(hist := Merge(acc.hist, HistDelta(prev, cur)));
      buckets := buckets[boundary := acc];
    }
  }

  lemma HitStep(samples: seq<Sample>, i: nat, step: nat)
    requires 1 <= i < |samples| && step > 0
    ensures forall t :: Hit(samples, i + 1, step, t) <==> Hit(samples, i, step, t) || t == Boundary(samples[i].at, step)
  {
  }

  lemma {:induction false} InStepEmpty(samples: seq<Sample>, n: nat, step: nat, t: int)
    requires n <= |samples| && step > 0 && !Hit(samples, n, step, t)
    ensures InStep(samples, n, step, t) == Accumulator(ZERO, map[], 0)
  {
    if n > 1 {
      InStepEmpty(samples, n - 1, step, t);
    }
  }

  function StepSeconds(rng: string): Option<nat> {
    if rng == "1h" then Some(30) else if rng == "24h" then Some(300) else if rng == "7d" then Some(3600) else None
  }

  /** `computeSeries`; the samples may come in any order. */
  method ComputeSeries(parse: string -> Option<real>, samples: seq<Sample>, rng: string) returns (r: Option<seq<Point>>)
    ensures r.None? <==> rng !in {"1h", "24h", "7d"}
    ensures rng == "1h" ==> IsSeries(parse, samples, 30, r.value)
    ensures rng == "24h" ==> IsSeries(parse, samples, 300, r.value)
    ensures rng == "7d" ==> IsSeries(parse, samples, 3600, r.value)
    ensures r.Some? ==> SumOfPoints(r.value) == TotalGrowth(samples, |samples|)
    ensures r.Some? ==> forall i, c :: 0 <= i < |r.value| ==>
              Get(r.value[i].counts, c) == StepGrowth(samples, |samples|, StepSeconds(rng).value, r.value[i].t, c)
    ensures r.Some? && LabelsNotNegative(parse, samples) ==>
              forall i :: 0 <= i < |r.value| ==> 0.0 <= r.value[i].p50 <= r.value[i].p95
  {
    var cfg := StepSeconds(rng);
    if cfg.None? {
      return None;
    }
    var step := cfg.value;
    var bucketKeys, buckets := Accumulate(samples, step);
    var keys := SortTimes(bucketKeys);
    var points := PointsAt(parse, samples, step, keys, buckets);
    OnePointPerStep(parse, samples, step, keys, points);
    Conservation(parse, samples, step, points);
    PointsCollect(parse, samples, step, points);
    if LabelsNotNegative(parse, samples) {
      PointsInOrder(parse, samples, step, points);
    }
    return Some(points);
  }

  /** The second loop of computeSeries: a point for each key. */
  method PointsAt(parse: string -> Option<real>, ghost samples: seq<Sample>, ghost step: nat, keys: seq<int>,
                  buckets: map<int, Accumulator>)
    returns (points: seq<Point>)
    requires step > 0 && forall t :: t in keys ==> t in buckets && buckets[t] == InStep(samples, |samples|, step, t)
    ensures |points| == |keys|
    ensures forall k :: 0 <= k < |keys| ==> points[k].t == keys[k] && Describes(parse, samples, step, points[k])
  {
    points := [];
    for i := 0 to |keys|
      invariant |points| == i
      invariant forall k :: 0 <= k < i ==> points[k].t == keys[k] && Describes(parse, samples, step, points[k])
    {
      assert keys[i] in keys;
      var acc := buckets[keys[i]];
      var p50, p95 := ComputeQuantiles(parse, acc.hist);
      points := points + [Point(keys[i], acc.counts, p50, p95, acc.inFlight)];
    }
  }

  lemma OnePointPerStep(parse: string -> Option<real>, samples: seq<Sample>, step: nat, keys: seq<int>,
                        points: seq<Point>)
    requires step > 0 && Ascending(keys) && |points| == |keys|
    requires forall t :: t in keys <==> Hit(samples, |samples|, step, t)
    requires forall k :: 0 <= k < |keys| ==> points[k].t == keys[k] && Describes(parse, samples, step, points[k])
    ensures IsSeries(parse, samples, step, points)
  {
    forall k | 1 <= k < |samples|
      ensures exists i :: 0 <= i < |points| && points[i].t == Boundary(samples[k].at, step)
    {
      assert Hit(samples, |samples|, step, Boundary(samples[k].at, step));
      var i :| 0 <= i < |keys| && keys[i] == Boundary(samples[k].at, step);
      assert points[i].t == keys[i];
    }
    forall i | 0 <= i < |points|
      ensures Hit(samples, |samples|, step, points[i].t)
    {
      assert keys[i] in keys;
    }
  }

  // ------------------------------------------------------------ quantiles in order

  ghost predicate LabelsNotNegative(parse: string -> Option<real>, samples: seq<Sample>) {
    forall k :: 0 <= k < |samples| ==> NotNegative(parse, samples[k].durations)
  }

  /** What a step's histogram holds is not negative and under labels that some sample has. */
  lemma {:induction false} HistogramIsGood(parse: string -> Option<real>, samples: seq<Sample>, n: nat, step: nat,
      t: int)
    requires n <= |samples| && step > 0 && LabelsNotNegative(parse, samples)
    ensures var hist := InStep(samples, n, step, t).hist;
            NotNegative(parse, hist) && forall le :: le in hist ==> hist[le] >= 0
    decreases n
  {
    if n > 1 {
      HistogramIsGood(parse, samples, n - 1, step, t);
      assert NotNegative(parse, samples[n - 1].durations);
      MergeIsGood(parse, InStep(samples, n - 1, step, t).hist, samples[n - 2], samples[n - 1]);
    }
  }

  lemma MergeIsGood(parse: string -> Option<real>, hist: map<string, int>, prev: Sample, cur: Sample)
    requires NotNegative(parse, hist) && NotNegative(parse, cur.durations) && forall le :: le in hist ==> hist[le] >= 0
    ensures var sum := Merge(hist, HistDelta(prev, cur));
            NotNegative(parse, sum) && forall le :: le in sum ==> sum[le] >= 0
  {
    var delta := HistDelta(prev, cur);
    assert delta.Keys <= cur.durations.Keys;
    assert forall le :: le in delta ==> delta[le] >= 0;
  }

  /** For labels that are not negative the median of a step is not negative and at most its p95. */
  lemma PointsInOrder(parse: string -> Option<real>, samples: seq<Sample>, step: nat, points: seq<Point>)
    requires step > 0 && LabelsNotNegative(parse, samples) && IsSeries(parse, samples, step, points)
    ensures forall i :: 0 <= i < |points| ==> 0.0 <= points[i].p50 <= points[i].p95
  {
    forall i | 0 <= i < |points| ensures 0.0 <= points[i].p50 <= points[i].p95 {
      var p := points[i];
      assert Describes(parse, samples, step, p);
      HistogramIsGood(parse, samples, |samples|, step, p.t);
      MedianBelowP95(parse, InStep(samples, |samples|, step, p.t).hist, p.p50, p.p95);
    }
  }

  // ------------------------------------------------------------ conservation

  /** Growth collected in the steps named by the keys. */
  ghost function SumOverKeys(samples: seq<Sample>, n: nat, step: nat, keys: seq<int>): Counts
    requires n <= |samples| && step > 0
  {
    if keys == [] then ZERO
    else Add(SumOverKeys(samples, n, step, keys[..|keys| - 1]), InStep(samples, n, step, keys[|keys| - 1]).counts)
  }

  /** One more pair adds its delta to exactly one of the distinct keys. */
  lemma {:induction false} OnePairOneKey(samples: seq<Sample>, n: nat, step: nat, keys: seq<int>)
    requires 1 < n <= |samples| && step > 0
    requires forall i, j :: 0 <= i < j < |keys| ==> keys[i] != keys[j]
    ensures SumOverKeys(samples, n, step, keys) ==
            if Boundary(samples[n - 1].at, step) in keys
            then Add(SumOverKeys(samples, n - 1, step, keys), Delta(samples[n - 2], samples[n - 1]))
            else SumOverKeys(samples, n - 1, step, keys)
    decreases |keys|
  {
    if keys != [] {
      var init, last := keys[..|keys| - 1], keys[|keys| - 1];
      OnePairOneKey(samples, n, step, init);
      assert keys == init + [last];
      assert last !in init;
      var before, delta := SumOverKeys(samples, n - 1, step, init), Delta(samples[n - 2], samples[n - 1]);
      var acc := InStep(samples, n - 1, step, last).counts;
      AddSwaps(before, acc, delta);
    }
  }

  lemma AddSwaps(a: Counts, b: Counts, c: Counts)
    ensures Add(Add(a, c), b) == Add(Add(a, b), c) == Add(a, Add(b, c))
  {
  }

  lemma {:induction false} KeysCollectAll(samples: seq<Sample>, n: nat, step: nat, keys: seq<int>)
    requires n <= |samples| && step > 0
    requires forall i, j :: 0 <= i < j < |keys| ==> keys[i] != keys[j]
    requires forall k :: 1 <= k < n ==> Boundary(samples[k].at, step) in keys
    ensures SumOverKeys(samples, n, step, keys) == TotalGrowth(samples, n)
    decreases n
  {
    if n <= 1 {
      NothingYet(samples, n, step, keys);
    } else {
      KeysCollectAll(samples, n - 1, step, keys);
      OnePairOneKey(samples, n, step, keys);
    }
  }

  lemma AddZero(c: Counts)
    ensures Add(ZERO, c) == c
  {
  }

  lemma NothingYetIn(samples: seq<Sample>, n: nat, step: nat, t: int)
    requires n <= 1 && n <= |samples| && step > 0
    ensures InStep(samples, n, step, t).counts == ZERO
  {
  }

  lemma {:induction false} NothingYet(samples: seq<Sample>, n: nat, step: nat, keys: seq<int>)
    requires n <= 1 && n <= |samples| && step > 0
    ensures SumOverKeys(samples, n, step, keys) == ZERO
    decreases |keys|
  {
    if keys != [] {
      NothingYet(samples, n, step, keys[..|keys| - 1]);
      NothingYetIn(samples, n, step, keys[|keys| - 1]);
      AddZero(ZERO);
    }
  }

  lemma {:induction false} PointsSumOverKeys(parse: string -> Option<real>, samples: seq<Sample>, step: nat,
      points: seq<Point>, keys: seq<int>)
    requires step > 0 && |keys| == |points|
    requires forall i :: 0 <= i < |points| ==> points[i].t == keys[i] && Describes(parse, samples, step, points[i])
    ensures SumOfPoints(points) == SumOverKeys(samples, |samples|, step, keys)
    decreases |points|
  {
    if points != [] {
      PointsSumOverKeys(parse, samples, step, points[..|points| - 1], keys[..|keys| - 1]);
    }
  }

  /** Nothing is lost or counted twice: the points of a series add up to all the growth between
      neighbouring samples, and each point begins at a multiple of the step. */
  lemma Conservation(parse: string -> Option<real>, samples: seq<Sample>, step: nat, points: seq<Point>)
    requires step > 0 && IsSeries(parse, samples, step, points)
    ensures SumOfPoints(points) == TotalGrowth(samples, |samples|)
    ensures forall i :: 0 <= i < |points| ==> points[i].t % step == 0
  {
    var keys := seq(|points|, i requires 0 <= i < |points| => points[i].t);
    forall k | 1 <= k < |samples|
      ensures Boundary(samples[k].at, step) in keys
    {
      var i :| 0 <= i < |points| && points[i].t == Boundary(samples[k].at, step);
      assert keys[i] == points[i].t;
    }
    PointsSumOverKeys(parse, samples, step, points, keys);
    KeysCollectAll(samples, |samples|, step, keys);
    forall i | 0 <= i < |points|
      ensures points[i].t % step == 0
    {
      var k :| 1 <= k < |samples| && Boundary(samples[k].at, step) == points[i].t;
      BoundaryIsMultiple(samples[k].at, step);
    }
  }

  lemma BoundaryIsMultiple(at: int, step: nat)
    requires step > 0
    ensures Boundary(at, step) % step == 0 && Boundary(at, step) <= at < Boundary(at, step) + step
  {
    var b := Boundary(at, step);
    var d := at / step - b / step;
    assert d * step == b % step;
    assert d > 0 ==> d * step >= step;
    assert d < 0 ==> d * step < 0;
  }

  // ------------------------------------------------------------ what a pair adds

  /** What one pair of samples adds to a counter: nothing when the number of observed durations fell, which
      is a restart, and otherwise the growth if it is positive. */
  ghost function Growth(prev: Sample, cur: Sample, c: Counter): int {
    if cur.durationCount >= prev.durationCount && Get(cur.counts, c) > Get(prev.counts, c)
    then Get(cur.counts, c) - Get(prev.counts, c) else 0
  }

  lemma DeltaIsGrowth(prev: Sample, cur: Sample, c: Counter)
    ensures Get(Delta(prev, cur), c) == Growth(prev, cur, c)
  {
  }

  lemma AddsUp(a: Counts, b: Counts, c: Counter)
    ensures Get(Add(a, b), c) == Get(a, c) + Get(b, c)
  {
  }

  /** The total grows by what the last pair adds. */
  lemma TotalCollects(samples: seq<Sample>, n: nat, c: Counter)
    requires 1 < n <= |samples|
    ensures Get(TotalGrowth(samples, n), c) ==
            Get(TotalGrowth(samples, n - 1), c) + Growth(samples[n - 2], samples[n - 1], c)
    ensures samples[n - 1].durationCount < samples[n - 2].durationCount ==>
              TotalGrowth(samples, n) == TotalGrowth(samples, n - 1)
  {
    DeltaIsGrowth(samples[n - 2], samples[n - 1], c);
    AddsUp(TotalGrowth(samples, n - 1), Delta(samples[n - 2], samples[n - 1]), c);
  }

  /** The growth of a counter over the pairs that end in a step. */
  ghost function StepGrowth(samples: seq<Sample>, n: nat, step: nat, t: int, c: Counter): int
    requires n <= |samples| && step > 0
  {
    if n <= 1 then 0
    else StepGrowth(samples, n - 1, step, t, c)
         + if Boundary(samples[n - 1].at, step) == t then Growth(samples[n - 2], samples[n - 1], c) else 0
  }

  /** Each counter of a point is its growth over the pairs that end in the point's step. */
  lemma {:induction false} StepCollects(samples: seq<Sample>, n: nat, step: nat, t: int, c: Counter)
    requires n <= |samples| && step > 0
    ensures Get(InStep(samples, n, step, t).counts, c) == StepGrowth(samples, n, step, t, c)
    decreases n
  {
    if n > 1 {
      StepCollects(samples, n - 1, step, t, c);
      DeltaIsGrowth(samples[n - 2], samples[n - 1], c);
      AddsUp(InStep(samples, n - 1, step, t).counts, Delta(samples[n - 2], samples[n - 1]), c);
    }
  }

  lemma PointsCollect(parse: string -> Option<real>, samples: seq<Sample>, step: nat, points: seq<Point>)
    requires step > 0 && IsSeries(parse, samples, step, points)
    ensures forall i, c :: 0 <= i < |points| ==>
              Get(points[i].counts, c) == StepGrowth(samples, |samples|, step, points[i].t, c)
  {
    forall i, c | 0 <= i < |points|
      ensures Get(points[i].counts, c) == StepGrowth(samples, |samples|, step, points[i].t, c)
    {
      assert Describes(parse, samples, step, points[i]);
      StepCollects(samples, |samples|, step, points[i].t, c);
    }
  }

  /** A counter that never falls, with no reset, grows by its last value minus its first. */
  lemma {:induction false} Telescopes(samples: seq<Sample>, n: nat, c: Counter)
    requires 1 <= n <= |samples|
    requires forall k :: 1 <= k < n ==> !IsReset(samples[k - 1], samples[k])
    requires forall k :: 1 <= k < n ==> Get(samples[k - 1].counts, c) <= Get(samples[k].counts, c)
    ensures Get(TotalGrowth(samples, n), c) == Get(samples[n - 1].counts, c) - Get(samples[0].counts, c)
    decreases n
  {
    if n > 1 {
      Telescopes(samples, n - 1, c);
      assert Get(Delta(samples[n - 2], samples[n - 1]), c) == Get(samples[n - 1].counts,
          c) - Get(samples[n - 2].counts, c) by {
        assert Get(samples[(n - 1) - 1].counts, c) <= Get(samples[n - 1].counts, c);
        assert !IsReset(samples[(n - 1) - 1], samples[n - 1]);
      }
    }
  }

  /** The in-flight value of a step is that of its last sample. */
  lemma {:induction false} LastGauge(samples: seq<Sample>, n: nat, step: nat, t: int, k: nat)
    requires 1 <= k < n <= |samples| && step > 0
    requires Boundary(samples[k].at, step) == t
    requires forall j :: k < j < n ==> Boundary(samples[j].at, step) != t
    ensures InStep(samples, n, step, t).inFlight == samples[k].inFlight
    decreases n
  {
    if n - 1 > k {
      LastGauge(samples, n - 1, step, t, k);
    }
  }

  /** Growth of one histogram label between two samples; a label that is gone does not grow. */
  ghost function LabelDelta(prev: Sample, cur: Sample, le: string): int {
    if cur.durationCount < prev.durationCount || le !in cur.durations then 0
    else
      var before := if le in prev.durations then prev.durations[le] else 0;
      if cur.durations[le] >= before then cur.durations[le] - before else 0
  }

  ghost function LabelGrowth(samples: seq<Sample>, n: nat, step: nat, t: int, le: string): int
    requires n <= |samples| && step > 0
  {
    if n <= 1 then 0
    else LabelGrowth(samples, n - 1, step, t, le)
         + if Boundary(samples[n - 1].at, step) == t then LabelDelta(samples[n - 2], samples[n - 1], le) else 0
  }

  /** The histogram from which a point's quantiles come holds, for each label, all its growth in the step. */
  lemma {:induction false} HistogramCollects(samples: seq<Sample>, n: nat, step: nat, t: int, le: string)
    requires n <= |samples| && step > 0
    ensures Lookup(InStep(samples, n, step, t).hist, le) == LabelGrowth(samples, n, step, t, le)
    decreases n
  {
    if n > 1 {
      HistogramCollects(samples, n - 1, step, t, le);
      MergeAdds(InStep(samples, n - 1, step, t).hist, samples[n - 2], samples[n - 1], le);
    }
  }

  function Lookup(hist: map<string, int>, le: string): int { if le in hist then hist[le] else 0 }

  lemma MergeAdds(hist: map<string, int>, prev: Sample, cur: Sample, le: string)
    ensures Lookup(Merge(hist, HistDelta(prev, cur)), le) == Lookup(hist, le) + LabelDelta(prev, cur, le)
  {
  }
}
