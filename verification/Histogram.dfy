/**
 * The bounded-memory latency histogram and its percentiles (perf/lib/stats.js).
 * Durations are reals; the counters do not overflow.
 */
module Histogram {
  import opened Text
  import opened Numbers
  import Sorting

  // ---- The samples themselves ------------------------------------------------------

  function Total(samples: seq<real>): real {
    if samples == [] then 0.0 else Total(samples[..|samples| - 1]) + samples[|samples| - 1]
  }

  ghost predicate Least(samples: seq<real>, min: real) { min in samples && forall x :: x in samples ==> min <= x }

  ghost predicate Greatest(samples: seq<real>, max: real) {
    (samples == [] ==> max == 0.0) && (samples != [] ==> max in samples) && forall x :: x in samples ==> x <= max
  }

  ghost predicate NonNegative(samples: seq<real>) { forall x :: x in samples ==> x >= 0.0 }

  /** How many samples round down to at most `i`. */
  function AtMost(samples: seq<real>, i: int): (n: nat)
    ensures n <= |samples|
  {
    if samples == [] then 0 else (if samples[0].Floor <= i then 1 else 0) + AtMost(samples[1..], i)
  }

  lemma {:induction false} AtMostSnoc(samples: seq<real>, x: real, i: int)
    ensures AtMost(samples + [x], i) == AtMost(samples, i) + if x.Floor <= i then 1 else 0
  {
    if samples != [] {
      AtMostSnoc(samples[1..], x, i);
      assert (samples + [x])[1..] == samples[1..] + [x];
    }
  }

  lemma {:induction false} NoneBelowZero(samples: seq<real>)
    requires NonNegative(samples)
    ensures AtMost(samples, -1) == 0
  {
    if samples != [] {
      assert samples[0] in samples && forall x :: x in samples[1..] ==> x in samples;
      NoneBelowZero(samples[1..]);
    }
  }

  predicate RealLe(x: real, y: real) { x <= y }

  /** The samples in ascending order. */
  function Ascending(samples: seq<real>): seq<real> { Sorting.Sort(samples, RealLe) }

  lemma AscendingSorts(samples: seq<real>)
    ensures |Ascending(samples)| == |samples|
    ensures forall i, j :: 0 <= i < j < |samples| ==> Ascending(samples)[i] <= Ascending(samples)[j]
    ensures multiset(Ascending(samples)) == multiset(samples)
    ensures forall x :: x in Ascending(samples) <==> x in samples
  {
    Sorting.SortIsPermutation(samples, RealLe);
    Sorting.SortSorts(samples, RealLe);
    assert forall x :: x in Ascending(samples) <==> x in multiset(samples);
  }

  lemma {:induction false} AtMostInsert(x: real, s: seq<real>, i: int)
    ensures AtMost(Sorting.Insert(x, s, RealLe), i) == AtMost(s, i) + if x.Floor <= i then 1 else 0
  {
    if s == [] || x <= s[0] {
      assert ([x] + s)[1..] == s;
    } else {
      AtMostInsert(x, s[1..], i);
      assert ([s[0]] + Sorting.Insert(x, s[1..], RealLe))[1..] == Sorting.Insert(x, s[1..], RealLe);
    }
  }

  lemma {:induction false} AtMostAscending(samples: seq<real>, i: int)
    ensures AtMost(Ascending(samples), i) == AtMost(samples, i)
  {
    if samples != [] {
      AtMostAscending(samples[1..], i);
      AtMostInsert(samples[0], Ascending(samples[1..]), i);
    }
  }

  /** In an ascending list, `k` samples are at most `i` exactly when the k-th is. */
  lemma {:induction false} RankByCount(t: seq<real>, k: nat, i: int)
    requires 1 <= k <= |t|
    requires forall a, b :: 0 <= a < b < |t| ==> t[a] <= t[b]
    ensures AtMost(t, i) >= k <==> t[k - 1].Floor <= i
  {
    if t[0].Floor > i {
      NoneAtMost(t, i);
      assert t[k - 1] >= t[0];
    } else if k > 1 {
      RankByCount(t[1..], k - 1, i);
    }
  }

  lemma {:induction false} NoneAtMost(t: seq<real>, i: int)
    requires forall a :: 0 <= a < |t| ==> t[a].Floor > i
    ensures AtMost(t, i) == 0
  {
    if t != [] { NoneAtMost(t[1..], i); }
  }

  // ---- The histogram ---------------------------------------------------------------

  /** Halves round up. */
  function Round(x: real): int { (x + 0.5).Floor }

  function Ceiling(x: real): int { -((-x).Floor) }

  /** The rank a percentile asks for. */
  function Rank(p: real, count: nat): int { Ceiling(p / 100.0 * count as real) }

  /** Floor of the k-th smallest sample; the rounded maximum when that is beyond the buckets. */
  function NearestRank(samples: seq<real>, k: nat, maxMs: nat, max: real): int
    requires 1 <= k <= |samples|
  {
    AscendingSorts(samples);
    var sample := Ascending(samples)[k - 1];
    if sample.Floor <= maxMs then sample.Floor else Round(max)
  }

  /** The percentile for every p: ranks below one read as 0, ranks beyond the samples as the maximum. */
  function PercentileOf(samples: seq<real>, p: real, maxMs: nat, max: real): int {
    var k := Rank(p, |samples|);
    if samples == [] || k <= 0 then 0
    else if k > |samples| then Round(max)
    else NearestRank(samples, k, maxMs, max)
  }

  /** The least whole number that is at least p percent of n. */
  ghost predicate IsRank(k: int, p: real, n: nat) {
    1 <= k <= n && 100.0 * (k - 1) as real < p * n as real <= 100.0 * k as real
  }

  ghost predicate IsRounded(x: real, r: int) { x - 0.5 < r as real <= x + 0.5 }

  /** The k-th smallest sample rounded down, when that is within the buckets, else the maximum rounded. */
  ghost predicate Reads(samples: seq<real>, k: int, maxMs: nat, max: real, r: int)
    requires 1 <= k <= |samples|
  {
    AscendingSorts(samples);
    var sample := Ascending(samples)[k - 1];
    if sample < (maxMs + 1) as real then r as real <= sample < (r + 1) as real else IsRounded(max, r)
  }

  lemma RankMeans(p: real, n: nat)
    requires n >= 1
    ensures 100.0 * (Rank(p, n) - 1) as real < p * n as real <= 100.0 * Rank(p, n) as real
  {
    var x := p / 100.0 * n as real;
    assert 100.0 * x == p * n as real;
    assert (Rank(p, n) - 1) as real < x <= Rank(p, n) as real;
  }

  lemma RankIsOutside(p: real, n: nat)
    requires n >= 1
    ensures p <= 0.0 ==> Rank(p, n) <= 0
    ensures p > 100.0 ==> Rank(p, n) > n
  {
    var m := n as real;
    RankMeans(p, n);
    if p <= 0.0 { assert p * m <= 0.0; }
    if p > 100.0 { assert (p - 100.0) * m > 0.0; }
  }

  lemma Rounds(x: real)
    ensures IsRounded(x, Round(x))
  {
  }

  /** What the percentile is, for every p. */
  lemma PercentileMeans(samples: seq<real>, p: real, maxMs: nat, max: real)
    ensures
      var r := PercentileOf(samples, p, maxMs, max);
      && (samples == [] || p <= 0.0 ==> r == 0)
      && (samples != [] && 0.0 < p <= 100.0 ==>
          exists k :: IsRank(k, p, |samples|) && Reads(samples, k, maxMs, max, r))
      && (samples != [] && p > 100.0 ==> IsRounded(max, r))
  {
    Rounds(max);
    if samples != [] {
      var k := Rank(p, |samples|);
      RankMeans(p, |samples|);
      RankIsOutside(p, |samples|);
      AscendingSorts(samples);
      if 0.0 < p <= 100.0 {
        RankInRange(p, |samples|);
        hide Rank, Round, Ascending;
        assert IsRank(k, p, |samples|) && Reads(samples, k, maxMs, max, PercentileOf(samples, p, maxMs, max));
      }
    }
  }

  /** No other rank will do. */
  lemma RankIsUnique(j: int, k: int, p: real, n: nat)
    requires IsRank(j, p, n) && IsRank(k, p, n)
    ensures j == k
  {
  }

  function Sum(counts: seq<nat>): nat {
    if counts == [] then 0 else Sum(counts[..|counts| - 1]) + counts[|counts| - 1]
  }

  class Histogram {
    const maxMs: nat
    const buckets: array<nat>
    var overflow: nat
    var count: nat
    var sum: real
    /** None stands for Infinity. */
    var min: Option<real>
    var max: real
    ghost var samples: seq<real>

    ghost predicate Valid()
      reads this, buckets
    {
      && buckets.Length == maxMs + 1
      && NonNegative(samples)
      && (forall i :: 0 <= i <= maxMs ==> buckets[i] == AtMost(samples, i) - AtMost(samples, i - 1))
      && overflow == |samples| - AtMost(samples, maxMs)
      && count == |samples|
      && sum == Total(samples)
      && (if min.None? then samples == [] else Least(samples, min.value))
      && Greatest(samples, max)
    }

    constructor (maxMs: nat)
      ensures Valid() && samples == [] && this.maxMs == maxMs && fresh(buckets)
    {
      this.maxMs := maxMs;
      buckets := new nat[maxMs + 1](_ => 0);
      overflow := 0;
      count := 0;
      sum := 0.0;
      min := None;
      max := 0.0;
      samples := [];
    }

    method Record(ms: real)
      requires Valid()
      modifies this, buckets
      ensures Valid() && samples == old(samples) + [if ms < 0.0 then 0.0 else ms]
    {
      var value := if ms < 0.0 then 0.0 else ms;
      hide AtMost, Total, Least, Greatest;
      RecordedCounts(samples, value);
      LeastSnoc(samples, min, value);
      GreatestSnoc(samples, max, value);
      TotalSnoc(samples, value);
      count := count + 1;
      sum := sum + value;
      if min.None? || value < min.value { min := Some(value); }
      if value > max { max := value; }
      var idx := value.Floor;
      if idx > maxMs {
        overflow := overflow + 1;
      } else {
        buckets[idx] := buckets[idx] + 1;
      }
      samples := samples + [value];
    }

    /** The least bucket at which enough samples have been seen, else the rounded maximum. */
    method Percentile(p: real) returns (r: int)
      requires Valid()
      ensures r == PercentileOf(samples, p, maxMs, max)
      ensures samples == [] || p <= 0.0 ==> r == 0
      ensures samples != [] && 0.0 < p <= 100.0 ==>
        exists k :: IsRank(k, p, |samples|) && Reads(samples, k, maxMs, max, r)
      ensures samples != [] && p > 100.0 ==> IsRounded(max, r)
    {
      PercentileMeans(samples, p, maxMs, max);
      if count == 0 { return 0; }
      var target := Rank(p, count);
      NoneBelowZero(samples);
      hide AtMost, Rank, NearestRank, Total, Least, Greatest, Round;
      var cumulative := 0;
      for i := 0 to maxMs + 1
        invariant cumulative == AtMost(samples, i - 1)
        invariant i > 0 ==> cumulative < target
      {
        cumulative := cumulative + buckets[i];
        if cumulative >= target {
          FoundRank(samples, target, i, maxMs, max);
          return i;
        }
      }
      NotFoundRank(samples, target, maxMs, max);
      return Round(max);
    }

    method Average() returns (r: real)
      requires Valid()
      ensures count == 0 ==> r == 0.0
      ensures count > 0 ==> r == Mean(Total(samples), count) && min.Some? && min.value <= r <= max
    {
      if count == 0 { return 0.0; }
      MeanOfSamples(samples, min.value, max);
      hide AtMost, Total, Least, Greatest, Mean;
      r := Mean(sum, count);
    }

    /** No sample is lost: the buckets and the overflow add up to the count. */
    lemma BucketsAddUp()
      requires Valid()
      ensures Sum(buckets[..]) + overflow == count
    {
      NoneBelowZero(samples);
      SumIsAtMost(buckets[..], samples);
    }
  }

  lemma RecordedCounts(samples: seq<real>, x: real)
    ensures forall i :: AtMost(samples + [x], i) == AtMost(samples, i) + if x.Floor <= i then 1 else 0
  {
    forall i ensures AtMost(samples + [x], i) == AtMost(samples, i) + if x.Floor <= i then 1 else 0 {
      AtMostSnoc(samples, x, i);
    }
  }

  lemma {:induction false} SumIsAtMost(counts: seq<nat>, samples: seq<real>)
    requires AtMost(samples, -1) == 0
    requires forall i :: 0 <= i < |counts| ==> counts[i] == AtMost(samples, i) - AtMost(samples, i - 1)
    ensures Sum(counts) == AtMost(samples, |counts| - 1)
  {
    if counts != [] { SumIsAtMost(counts[..|counts| - 1], samples); }
  }

  lemma FoundRank(samples: seq<real>, target: int, i: nat, maxMs: nat, max: real)
    requires NonNegative(samples) && i <= maxMs && samples != []
    requires AtMost(samples, i) >= target && (i > 0 ==> AtMost(samples, i - 1) < target)
    ensures target <= 0 ==> i == 0
    ensures target >= 1 ==> target <= |samples| && NearestRank(samples, target, maxMs, max) == i
  {
    if target >= 1 {
      AscendingSorts(samples);
      AtMostAscending(samples, i);
      AtMostAscending(samples, i - 1);
      RankByCount(Ascending(samples), target, i);
      RankByCount(Ascending(samples), target, i - 1);
      assert Ascending(samples)[target - 1] in Ascending(samples);
      hide AtMost;
    }
  }

  lemma NotFoundRank(samples: seq<real>, target: int, maxMs: nat, max: real)
    requires samples != [] && AtMost(samples, maxMs) < target
    ensures target >= 1
    ensures target <= |samples| ==> NearestRank(samples, target, maxMs, max) == Round(max)
  {
    if target <= |samples| {
      AscendingSorts(samples);
      AtMostAscending(samples, maxMs);
      RankByCount(Ascending(samples), target, maxMs);
      hide AtMost;
    }
  }

  // ---- What a percentile means -----------------------------------------------------

  lemma RankInRange(p: real, n: nat)
    requires 0.0 < p <= 100.0 && n >= 1
    ensures 1 <= Rank(p, n) <= n
  {
    var x := p / 100.0;
    assert 0.0 < x <= 1.0;
    assert 0.0 < x * n as real <= n as real;
  }

  lemma RankMonotone(p: real, q: real, n: nat)
    requires p <= q
    ensures Rank(p, n) <= Rank(q, n)
  {
    var x, y, m := p / 100.0, q / 100.0, n as real;
    assert x * m <= y * m;
  }

  lemma RoundAbove(x: real, max: real)
    requires x <= max
    ensures x.Floor <= Round(max)
  {
  }

  /** A higher percentile is never smaller. */
  lemma PercentileMonotone(samples: seq<real>, p: real, q: real, maxMs: nat, max: real)
    requires NonNegative(samples) && Greatest(samples, max) && p <= q
    ensures PercentileOf(samples, p, maxMs, max) <= PercentileOf(samples, q, maxMs, max)
  {
    hide Rank, Ascending;
    AscendingSorts(samples);
    RankMonotone(p, q, |samples|);
    var t := Ascending(samples);
    assert forall i :: 0 <= i < |t| ==> t[i] in t;
    var j, k := Rank(p, |samples|), Rank(q, |samples|);
    if samples != [] {
      assert t[0] in t;
      if 1 <= j <= |t| { RoundAbove(t[j - 1], max); }
      if 1 <= k <= |t| { RoundAbove(t[k - 1], max); }
      RoundAbove(0.0, max);
    }
  }

  lemma {:induction false} TotalBetween(samples: seq<real>, min: real, max: real)
    requires forall x :: x in samples ==> min <= x <= max
    ensures Times(min, |samples|) <= Total(samples) <= Times(max, |samples|)
  {
    if samples != [] {
      var n := |samples|;
      assert samples[n - 1] in samples;
      var before := samples[..n - 1];
      forall x | x in before ensures min <= x <= max { assert x in samples; }
      TotalBetween(before, min, max);
      OneMore(min, n - 1);
      OneMore(max, n - 1);
      hide Times;
    } else {
      OneMore(min, 0);
      OneMore(max, 0);
    }
  }

  /** The mean lies between the least and the greatest sample. */
  lemma MeanOfSamples(samples: seq<real>, min: real, max: real)
    requires samples != [] && Least(samples, min) && Greatest(samples, max)
    ensures min <= Mean(Total(samples), |samples|) <= max
  {
    TotalBetween(samples, min, max);
    hide Total, Mean;
    MeanBetween(Total(samples), |samples|, min, max);
  }

  lemma LeastSnoc(samples: seq<real>, min: Option<real>, x: real)
    requires if min.None? then samples == [] else Least(samples, min.value)
    ensures Least(samples + [x], if min.None? || x < min.value then x else min.value)
  {
  }

  lemma GreatestSnoc(samples: seq<real>, max: real, x: real)
    requires Greatest(samples, max) && x >= 0.0
    ensures Greatest(samples + [x], if x > max then x else max)
  {
  }

  lemma TotalSnoc(samples: seq<real>, x: real)
    ensures Total(samples + [x]) == Total(samples) + x
  {
    assert (samples + [x])[..|samples|] == samples;
  }
}
