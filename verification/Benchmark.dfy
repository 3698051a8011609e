/**
 The statistics of a benchmark run: interpolated percentiles, distribution summaries and the
 stability score, over real numbers.
 */
module Benchmark {
  import opened Numbers

  function Least(x: real, y: real): real {
    if x < y then x else y
  }

  function Greatest(x: real, y: real): real {
    if x < y then y else x
  }

  // ---------------------------------------------------------------- sorting

  ghost predicate Ascending(s: seq<real>) {
    forall i, j :: 0 <= i <= j < |s| ==> s[i] <= s[j]
  }

  function Insert(x: real, s: seq<real>): (t: seq<real>)
    ensures |t| == |s| + 1
  {
    if s == [] || x <= s[0] then [x] + s else [s[0]] + Insert(x, s[1..])
  }

  function Sort(s: seq<real>): (t: seq<real>)
    ensures |t| == |s|
  {
    if s == [] then [] else Insert(s[0], Sort(s[1..]))
  }

  lemma {:induction false} InsertKeepsOrder(x: real, s: seq<real>)
    requires Ascending(s)
    ensures Ascending(Insert(x, s))
    ensures Insert(x, s)[0] == x || (s != [] && Insert(x, s)[0] == s[0] && s[0] < x)
    decreases |s|
  {
    if s != [] && s[0] < x {
      InsertKeepsOrder(x, s[1..]);
      var t := Insert(x, s[1..]);
      assert s[0] <= t[0] by {
        if t[0] != x {
          assert t[0] == s[1..][0] == s[1];
        }
      }
      forall i, j | 0 <= i <= j < |t| + 1
        ensures ([s[0]] + t)[i] <= ([s[0]] + t)[j]
      {
        if i == 0 && j > 0 {
          assert t[0] <= t[j - 1];
        }
      }
    }
  }

  lemma {:induction false} InsertKeepsValues(x: real, s: seq<real>)
    ensures multiset(Insert(x, s)) == multiset(s) + multiset{x}
    decreases |s|
  {
    if s != [] && s[0] < x {
      InsertKeepsValues(x, s[1..]);
      assert s == [s[0]] + s[1..];
    }
  }

  lemma {:induction false} SortSorts(s: seq<real>)
    ensures Ascending(Sort(s)) && multiset(Sort(s)) == multiset(s)
    decreases |s|
  {
    if s != [] {
      SortSorts(s[1..]);
      InsertKeepsOrder(s[0], Sort(s[1..]));
      InsertKeepsValues(s[0], Sort(s[1..]));
      assert s == [s[0]] + s[1..];
    }
  }

  lemma LeastComesFirst(a: seq<real>, b: seq<real>)
    requires Ascending(a) && Ascending(b) && multiset(a) == multiset(b) && a != [] && b != []
    ensures a[0] == b[0]
  {
    assert a[0] in multiset(a) && b[0] in multiset(b);
    assert a[0] in b && b[0] in a;
  }

  lemma TailsAgree(a: seq<real>, b: seq<real>)
    requires multiset(a) == multiset(b) && a != [] && b != [] && a[0] == b[0]
    ensures multiset(a[1..]) == multiset(b[1..])
  {
    assert a == [a[0]] + a[1..] && b == [b[0]] + b[1..];
    assert multiset(a[1..]) == multiset(a) - multiset{a[0]};
    assert multiset(b[1..]) == multiset(b) - multiset{b[0]};
  }

  /** There is one ascending arrangement of given values. */
  lemma {:induction false} ArrangementIsUnique(a: seq<real>, b: seq<real>)
    requires Ascending(a) && Ascending(b) && multiset(a) == multiset(b)
    ensures a == b
    decreases |a|
  {
    assert |a| == |multiset(a)| == |multiset(b)| == |b|;
    if a != [] {
      LeastComesFirst(a, b);
      TailsAgree(a, b);
      ArrangementIsUnique(a[1..], b[1..]);
      assert a == [a[0]] + a[1..] && b == [b[0]] + b[1..];
    }
  }

  // ---------------------------------------------------------------- percentiles

  function Ceiling(x: real): int {
    if x.Floor as real == x then x.Floor else x.Floor + 1
  }

  /** The value at a fractional position of a sequence. */
  function Interpolated(s: seq<real>, index: real): real
    requires 0.0 <= index <= (|s| - 1) as real
  {
    var lower, upper := index.Floor, Ceiling(index);
    if lower == upper then s[lower]
    else
      var weight := index - lower as real;
      s[lower] * (1.0 - weight) + s[upper] * weight
  }

  /** The position of a percentile among values up to index `last`. */
  function Position(percentile01: real, last: nat): (index: real)
    ensures 0.0 <= index <= last as real
  {
    PositionInRange(Clamp(percentile01, 0.0, 1.0), last);
    Clamp(percentile01, 0.0, 1.0) * last as real
  }

  function Percentile(values: seq<real>, percentile01: real): real {
    if values == [] then 0.0
    else
      var sorted := Sort(values);
      if |values| == 1 then sorted[0]
      else Interpolated(sorted, Position(percentile01, |values| - 1))
  }

  lemma PositionInRange(p: real, last: nat)
    requires 0.0 <= p <= 1.0
    ensures 0.0 <= p * last as real <= last as real
  {
    assert (1.0 - p) * last as real >= 0.0;
  }

  lemma PositionsGrow(p: real, q: real, last: nat)
    requires p <= q
    ensures Position(p, last) <= Position(q, last)
    ensures p <= 0.0 ==> Position(p, last) == 0.0
    ensures 1.0 <= q ==> Position(q, last) == last as real
  {
    var a, b := Clamp(p, 0.0, 1.0), Clamp(q, 0.0, 1.0);
    assert (b - a) * last as real >= 0.0;
    assert b * last as real - a * last as real == (b - a) * last as real;
  }

  lemma PercentileIsInterpolated(values: seq<real>, p: real)
    requires values != []
    ensures Percentile(values, p) == Interpolated(Sort(values), Position(p, |values| - 1))
  {
  }

  lemma ProductIsNotNegative(x: real, y: real)
    requires 0.0 <= x && 0.0 <= y
    ensures 0.0 <= x * y
  {
  }

  /** A weighted mean lies between its two values, and grows with the weight of the larger. */
  lemma Between(a: real, b: real, v: real, w: real)
    requires a <= b && 0.0 <= v <= w <= 1.0
    ensures a <= a * (1.0 - v) + b * v <= a * (1.0 - w) + b * w <= b
  {
    assert a * (1.0 - v) + b * v == a + (b - a) * v;
    assert a * (1.0 - w) + b * w == a + (b - a) * w;
    ProductIsNotNegative(b - a, v);
    ProductIsNotNegative(b - a, w - v);
    ProductIsNotNegative(b - a, 1.0 - w);
    assert (b - a) * (w - v) == (b - a) * w - (b - a) * v;
    assert (b - a) * (1.0 - w) == (b - a) - (b - a) * w;
  }

  /** The value at a position lies between its neighbours'. */
  lemma InterpolatedBetween(s: seq<real>, index: real)
    requires Ascending(s) && 0.0 <= index <= (|s| - 1) as real
    ensures s[index.Floor] <= Interpolated(s, index) <= s[Ceiling(index)]
  {
    var lower, upper := index.Floor, Ceiling(index);
    if lower != upper {
      Between(s[lower], s[upper], index - lower as real, index - lower as real);
    }
  }

  lemma InterpolatedGrows(s: seq<real>, i: real, j: real)
    requires Ascending(s) && 0.0 <= i <= j <= (|s| - 1) as real
    ensures Interpolated(s, i) <= Interpolated(s, j)
  {
    InterpolatedBetween(s, i);
    InterpolatedBetween(s, j);
    var k := i.Floor;
    if j.Floor == k {
      if Ceiling(i) != k {
        Between(s[k], s[k + 1], i - k as real, j - k as real);
      }
    } else {
      assert Ceiling(i) <= j.Floor;
      assert s[Ceiling(i)] <= s[j.Floor];
    }
  }

  function Minimum(values: seq<real>): (m: real)
    requires values != []
    ensures m in values && forall v :: v in values ==> m <= v
  {
    assert values == [values[0]] + values[1..];
    if |values| == 1 then values[0] else Least(values[0], Minimum(values[1..]))
  }

  function Maximum(values: seq<real>): (m: real)
    requires values != []
    ensures m in values && forall v :: v in values ==> v <= m
  {
    assert values == [values[0]] + values[1..];
    if |values| == 1 then values[0] else Greatest(values[0], Maximum(values[1..]))
  }

  lemma EndsOfSort(values: seq<real>)
    requires values != []
    ensures Sort(values)[0] == Minimum(values) && Sort(values)[|values| - 1] == Maximum(values)
  {
    var s, last := Sort(values), |values| - 1;
    SortSorts(values);
    assert s[0] in multiset(s) && s[last] in multiset(s);
    assert s[0] in values && s[last] in values;
    assert Minimum(values) in multiset(values) && Maximum(values) in multiset(values);
    assert Minimum(values) in s && Maximum(values) in s;
  }

  lemma InterpolatedEnds(s: seq<real>)
    requires s != []
    ensures Interpolated(s, 0.0) == s[0] && Interpolated(s, (|s| - 1) as real) == s[|s| - 1]
  {
  }

  /** Percentiles grow from the least to the greatest value, both of which they reach. */
  lemma PercentileIsMonotone(values: seq<real>, p: real, q: real)
    requires values != [] && p <= q
    ensures Minimum(values) <= Percentile(values, p) <= Percentile(values, q) <= Maximum(values)
    ensures p <= 0.0 ==> Percentile(values, p) == Minimum(values)
    ensures 1.0 <= q ==> Percentile(values, q) == Maximum(values)
  {
    var s, i, j := Sort(values), Position(p, |values| - 1), Position(q, |values| - 1);
    SortSorts(values);
    EndsOfSort(values);
    PercentileIsInterpolated(values, p);
    PercentileIsInterpolated(values, q);
    PositionsGrow(p, q, |values| - 1);
    InterpolatedEnds(s);
    InterpolatedGrows(s, 0.0, i);
    InterpolatedGrows(s, i, j);
    InterpolatedGrows(s, j, (|values| - 1) as real);
  }

  /** The ranks are spread evenly over the samples ... */
  lemma PositionIsProportional(p: real, last: nat)
    ensures Position(p, last) == (if p < 0.0 then 0.0 else if 1.0 < p then 1.0 else p) * last as real
  {
  }

  /** ... and between two of them the value goes in a straight line from the one to the other. */
  lemma InterpolatedIsLinear(s: seq<real>, index: real, k: nat, w: real)
    requires 0.0 <= index <= (|s| - 1) as real && index == k as real + w && 0.0 <= w < 1.0
    ensures k < |s| && (w > 0.0 ==> k + 1 < |s|)
    ensures Interpolated(s, index) == if w > 0.0 then s[k] + w * (s[k + 1] - s[k]) else s[k]
  {
    assert index.Floor == k;
    if w > 0.0 {
      Weighted(s[k], s[k + 1], w);
    }
  }

  lemma Weighted(a: real, b: real, w: real)
    ensures a * (1.0 - w) + b * w == a + w * (b - a)
  {
  }

  /** The order of the samples does not matter. */
  lemma PercentileIgnoresOrder(values: seq<real>, others: seq<real>, p: real)
    requires multiset(values) == multiset(others)
    ensures Percentile(values, p) == Percentile(others, p)
  {
    assert |values| == |multiset(values)| == |multiset(others)| == |others|;
    SortSorts(values);
    SortSorts(others);
    ArrangementIsUnique(Sort(values), Sort(others));
    if values != [] {
      PercentileIsInterpolated(values, p);
      PercentileIsInterpolated(others, p);
    }
  }

  // ---------------------------------------------------------------- summaries

  datatype DistributionSummary =
    DistributionSummary(mean: real, median: real, p95: real, p99: real, min: real, max: real)

  function Sum(values: seq<real>): real {
    if values == [] then 0.0 else Sum(values[..|values| - 1]) + values[|values| - 1]
  }

  function SummarizeValues(values: seq<real>): DistributionSummary {
    if values == [] then DistributionSummary(0.0, 0.0, 0.0, 0.0, 0.0, 0.0)
    else
      DistributionSummary(Sum(values) / |values| as real,
                          Percentile(values, 0.5), Percentile(values, 0.95), Percentile(values, 0.99),
                          Minimum(values), Maximum(values))
  }

  lemma {:induction false} SumIsBounded(values: seq<real>, low: real, high: real)
    requires forall v :: v in values ==> low <= v <= high
    ensures low * |values| as real <= Sum(values) <= high * |values| as real
    decreases |values|
  {
    if values != [] {
      var front, n := values[..|values| - 1], |values| as real;
      assert values[|values| - 1] in values;
      assert forall v :: v in front ==> v in values;
      SumIsBounded(front, low, high);
      assert |front| as real == n - 1.0;
      assert low * (n - 1.0) == low * n - low && high * (n - 1.0) == high * n - high;
    }
  }

  lemma QuotientIsBounded(sum: real, n: real, low: real, high: real)
    requires n > 0.0 && low * n <= sum <= high * n
    ensures low <= sum / n <= high
  {
    RatiosGrow(low * n, sum, n);
    RatiosGrow(sum, high * n, n);
    assert low * n / n == low && high * n / n == high;
  }

  lemma PercentilesAreOrdered(values: seq<real>, p: real, q: real, r: real)
    requires values != [] && p <= q <= r
    ensures Minimum(values) <= Percentile(values, p) <= Percentile(values, q)
    ensures Percentile(values, q) <= Percentile(values, r) <= Maximum(values)
  {
    PercentileIsMonotone(values, p, q);
    PercentileIsMonotone(values, q, r);
  }

  lemma {:induction false} MeanIsBetween(values: seq<real>)
    requires values != []
    ensures Minimum(values) <= Sum(values) / |values| as real <= Maximum(values)
  {
    SumIsBounded(values, Minimum(values), Maximum(values));
    QuotientIsBounded(Sum(values), |values| as real, Minimum(values), Maximum(values));
  }

  /** Every summary is ordered. */
  lemma SummaryIsOrdered(values: seq<real>)
    ensures var s := SummarizeValues(values);
            && s.min <= s.median <= s.p95 <= s.p99 <= s.max
            && s.min <= s.mean <= s.max
  {
    if values != [] {
      PercentilesAreOrdered(values, 0.5, 0.95, 0.99);
      MeanIsBetween(values);
    }
  }

  /** Every entry of a summary, told by the samples. */
  lemma SummaryTellsOfSamples(values: seq<real>)
    requires values != []
    ensures
      var s := SummarizeValues(values);
      && s.mean == Sum(values) / |values| as real && s.median == Percentile(values, 0.5)
      && s.p95 == Percentile(values, 0.95) && s.p99 == Percentile(values, 0.99)
      && s.min == Percentile(values, 0.0) && s.max == Percentile(values, 1.0)
  {
    PercentileIsMonotone(values, 0.0, 1.0);
  }

  /** The middle one of three samples is their median, whatever their order. */
  lemma MedianOfThree(a: real, b: real, c: real)
    requires a <= b <= c
    ensures forall values :: multiset(values) == multiset{a, b, c} ==> SummarizeValues(values).median == b
  {
    forall values | multiset(values) == multiset{a, b, c}
      ensures SummarizeValues(values).median == b
    {
      assert |values| == |multiset(values)| == 3;
      SortSorts(values);
      ArrangementIsUnique(Sort(values), [a, b, c]);
      PositionIsProportional(0.5, 2);
      PercentileIsInterpolated(values, 0.5);
      InterpolatedIsLinear(Sort(values), 1.0, 1, 0.0);
    }
  }

  // ---------------------------------------------------------------- the stability score

  /** The parts of a benchmark summary that the score looks at. */
  datatype Scored =
    Scored(sampleCount: nat, renderedMean: real, networkDropPercent: real, processingP99: real, queueFaults: nat)

  function FpsPenalty(s: Scored, targetFps: int): real
    requires targetFps > 0
  {
    var fpsRatio := s.renderedMean / targetFps as real;
    if fpsRatio < 0.995 then Least(35.0, (0.995 - fpsRatio) * 140.0) else 0.0
  }

  function LatencyPenalty(s: Scored, targetFps: int): real
    requires targetFps > 0
  {
    var p99Ratio := s.processingP99 / (1000.0 / targetFps as real);
    if p99Ratio > 0.55 then Least(20.0, (p99Ratio - 0.55) * 30.0) else 0.0
  }

  function DropPenalty(s: Scored): real {
    Least(45.0, s.networkDropPercent * 25.0)
  }

  function FaultPenalty(s: Scored): real {
    Least(15.0, s.queueFaults as real * 0.75)
  }

  function StabilityScore(s: Scored, targetFps: int): (score: real)
    ensures 0.0 <= score <= 100.0
  {
    if s.sampleCount == 0 || targetFps <= 0 then 0.0
    else
      Clamp(100.0 - FpsPenalty(s, targetFps) - DropPenalty(s) - LatencyPenalty(s, targetFps) - FaultPenalty(s),
        0.0, 100.0)
  }

  lemma RatiosGrow(a: real, b: real, d: real)
    requires d > 0.0 && a <= b
    ensures a / d <= b / d
  {
    assert (b - a) / d >= 0.0;
    assert b / d - a / d == (b - a) / d;
  }

  /** A run that is nowhere worse scores no less. */
  lemma BetterRunsScoreHigher(good: Scored, bad: Scored, targetFps: int)
    requires good.sampleCount > 0
    requires bad.renderedMean <= good.renderedMean && good.networkDropPercent <= bad.networkDropPercent
    requires good.processingP99 <= bad.processingP99 && good.queueFaults <= bad.queueFaults
    ensures StabilityScore(bad, targetFps) <= StabilityScore(good, targetFps)
  {
    if targetFps > 0 {
      RatiosGrow(bad.renderedMean, good.renderedMean, targetFps as real);
      RatiosGrow(good.processingP99, bad.processingP99, 1000.0 / targetFps as real);
    }
  }

  /** What single faults cost: 25 points for each percent of frames dropped, up to 45; 0.75 for each queue
      fault, up to 15; 1.4 for each percent of the frame rate short of 99.5, up to 35; 0.3 for each
      percent of a frame time that the slowest decoding takes over 55, up to 20. */
  lemma SingleFaults(s: Scored, targetFps: int)
    requires s.sampleCount > 0 && targetFps > 0 && s.networkDropPercent >= 0.0
    ensures
      var short := 0.995 - s.renderedMean / targetFps as real;
      var slow := s.processingP99 / (1000.0 / targetFps as real) - 0.55;
      var score := StabilityScore(s, targetFps);
      && (short <= 0.0 && slow <= 0.0 && s.queueFaults == 0 ==>
            score == 100.0 - if s.networkDropPercent <= 1.8 then 25.0 * s.networkDropPercent else 45.0)
      && (short <= 0.0 && slow <= 0.0 && s.networkDropPercent == 0.0 ==>
            score == 100.0 - if s.queueFaults <= 20 then 0.75 * s.queueFaults as real else 15.0)
      && (0.0 <= short && slow <= 0.0 && s.networkDropPercent == 0.0 && s.queueFaults == 0 ==>
            score == 100.0 - if short <= 0.25 then 140.0 * short else 35.0)
      && (short <= 0.0 && 0.0 <= slow && s.networkDropPercent == 0.0 && s.queueFaults == 0 ==>
            score == 100.0 - if 3.0 * slow <= 2.0 then 30.0 * slow else 20.0)
  {
  }

  /** Together they add up, down to nothing. */
  lemma FaultsAddUp(s: Scored, targetFps: int)
    requires s.sampleCount > 0 && targetFps > 0
    ensures
      var penalties := FpsPenalty(s, targetFps) + DropPenalty(s) + LatencyPenalty(s, targetFps) + FaultPenalty(s);
      0.0 <= penalties <= 100.0 ==> StabilityScore(s, targetFps) == 100.0 - penalties
  {
  }

  /** The full score goes to exactly the runs without a fault. */
  lemma FullScore(s: Scored, targetFps: int)
    requires s.sampleCount > 0 && targetFps > 0 && s.networkDropPercent >= 0.0
    ensures StabilityScore(s, targetFps) == 100.0 <==>
            && s.renderedMean / targetFps as real >= 0.995 && s.networkDropPercent == 0.0
            && s.processingP99 / (1000.0 / targetFps as real) <= 0.55 && s.queueFaults == 0
  {
  }
}
