/**
 * Queue rates derived from stored bind snapshots (backend/src/connectivity/queue-metrics.ts).
 * Numbers are reals; instants are milliseconds, None when the text is not a date.
 */
module QueueMetrics {
  import opened Text
  import Sorting

  datatype QueueSample = QueueSample(queued: real, sent: real, observedAt: Option<real>)

  function At(s: QueueSample): real { if s.observedAt.Some? then s.observedAt.value else 0.0 }

  predicate Earlier(a: QueueSample, b: QueueSample) { At(a) <= At(b) }

  /** The samples with a readable instant. */
  function Timed(samples: seq<QueueSample>): seq<QueueSample> {
    if samples == [] then []
    else
      var s := samples[|samples| - 1];
      Timed(samples[..|samples| - 1]) + if s.observedAt.Some? then [s] else []
  }

  /** Oldest first; samples of the same instant keep their order. */
  function Ordered(samples: seq<QueueSample>): seq<QueueSample> { Sorting.Sort(Timed(samples), Earlier) }

  // ---- Intervals -------------------------------------------------------------------

  datatype Interval = Interval(sent: real, seconds: real)

  function Between(a: QueueSample, b: QueueSample): Interval { Interval(b.sent - a.sent, (At(b) - At(a)) / 1000.0) }

  predicate Kept(i: Interval) { i.seconds > 0.0 && i.sent >= 0.0 }

  /** The intervals a rate is measured on: those in which time passed and the counter did not go back. */
  function Intervals(o: seq<QueueSample>): seq<Interval> {
    if |o| < 2 then []
    else
      var i := Between(o[|o| - 2], o[|o| - 1]);
      Intervals(o[..|o| - 1]) + if Kept(i) then [i] else []
  }

  /** How often the counter went back while time passed. */
  function Resets(o: seq<QueueSample>): nat {
    if |o| < 2 then 0
    else
      var i := Between(o[|o| - 2], o[|o| - 1]);
      Resets(o[..|o| - 1]) + if i.seconds > 0.0 && i.sent < 0.0 then 1 else 0
  }

  function Sent(ks: seq<Interval>): real { if ks == [] then 0.0 else Sent(ks[..|ks| - 1]) + ks[|ks| - 1].sent }

  function Seconds(ks: seq<Interval>): real { if ks == [] then 0.0 else Seconds(ks[..|ks| - 1]) + ks[|ks| - 1].seconds }

  function Quotient(a: real, b: real): real
    requires b != 0.0
  {
    a / b
  }

  function RateOf(i: Interval): real { if i.seconds > 0.0 then Quotient(i.sent, i.seconds) else 0.0 }

  function Rates(ks: seq<Interval>): seq<real> { seq(|ks|, k requires 0 <= k < |ks| => RateOf(ks[k])) }

  // ---- Volatility ------------------------------------------------------------------

  function Total(xs: seq<real>): real { if xs == [] then 0.0 else Total(xs[..|xs| - 1]) + xs[|xs| - 1] }

  function SquaredDeviations(xs: seq<real>, mean: real): real {
    if xs == [] then 0.0 else SquaredDeviations(xs[..|xs| - 1], mean) + (xs[|xs| - 1] - mean) * (xs[|xs| - 1] - mean)
  }

  const VOLATILITY_LIMIT := 0.6

  /** Relative standard deviation above the limit, without taking the root. */
  predicate IsVolatile(rates: seq<real>) {
    |rates| >= 3 &&
    var mean := Quotient(Total(rates), |rates| as real);
    mean <= 0.0 ||
      Quotient(SquaredDeviations(rates, mean), |rates| as real) > VOLATILITY_LIMIT * VOLATILITY_LIMIT * mean * mean
  }

  /** The test on squares is the source's test on the standard deviation. */
  lemma RootTest(variance: real, root: real, mean: real)
    requires mean > 0.0 && root >= 0.0 && root * root == variance
    ensures root / mean > VOLATILITY_LIMIT <==> variance > VOLATILITY_LIMIT * VOLATILITY_LIMIT * mean * mean
  {
    var q := Quotient(root, mean);
    var bound := Times(VOLATILITY_LIMIT, mean);
    assert root / mean == q;
    assert VOLATILITY_LIMIT * VOLATILITY_LIMIT * mean * mean == Square(bound);
    assert variance == Square(root) && bound > 0.0;
    QuotientTimes(root, mean);
    hide Quotient, Square, Times;
    Product(q, VOLATILITY_LIMIT, mean);
    SquaresCompare(root, bound);
  }

  function Times(a: real, b: real): real { a * b }

  function Square(x: real): real { x * x }

  lemma Product(a: real, b: real, m: real)
    requires m > 0.0
    ensures a > b <==> Times(a, m) > Times(b, m)
  {
    if a > b { assert (a - b) * m > 0.0; }
    if b >= a { assert (b - a) * m >= 0.0; }
  }

  lemma SquaresCompare(a: real, b: real)
    requires a >= 0.0 && b > 0.0
    ensures a > b <==> Square(a) > Square(b)
  {
    if a > b { assert (a - b) * (a + b) > 0.0; }
    if b >= a { assert (b - a) * (a + b) >= 0.0; }
    assert (a - b) * (a + b) == a * a - b * b;
  }

  lemma QuotientTimes(a: real, b: real)
    requires b != 0.0
    ensures Times(Quotient(a, b), b) == a
  {
  }

  function Squares(xs: seq<real>): real { if xs == [] then 0.0 else Squares(xs[..|xs| - 1]) + Square(xs[|xs| - 1]) }

  lemma {:induction false} DeviationsExpand(xs: seq<real>, mean: real)
    ensures SquaredDeviations(xs, mean) ==
      Squares(xs) - Times(2.0 * mean, Total(xs)) + Times(|xs| as real, Square(mean))
  {
    if xs != [] {
      var n := |xs| - 1;
      var x := xs[n];
      DeviationsExpand(xs[..n], mean);
      assert (x - mean) * (x - mean) == x * x - 2.0 * mean * x + mean * mean;
      assert 2.0 * mean * (Total(xs[..n]) + x) == 2.0 * mean * Total(xs[..n]) + 2.0 * mean * x;
      assert (n as real + 1.0) * (mean * mean) == n as real * (mean * mean) + mean * mean;
    }
  }

  /**
   * Rates vary too much when there are three or more and their standard deviation is above 0.6 of
   * their mean: with n rates, when n times the sum of squares is above 1.36 of the squared sum.
   */
  lemma VolatileMeans(rates: seq<real>)
    ensures IsVolatile(rates) <==>
      |rates| >= 3 &&
      (Total(rates) <= 0.0 || Times(|rates| as real, Squares(rates)) > Times(1.36, Square(Total(rates))))
  {
    hide Total, Squares, SquaredDeviations, Times, Square, Quotient;
    if |rates| >= 3 {
      var n, total := |rates| as real, Total(rates);
      var mean := Quotient(total, n);
      var variance := Quotient(SquaredDeviations(rates, mean), n);
      DeviationsExpand(rates, mean);
      VarianceScaled(SquaredDeviations(rates, mean), Squares(rates), total, n);
    }
  }

  lemma VarianceScaled(deviations: real, squares: real, total: real, n: real)
    requires n > 0.0
    requires
      var mean := Quotient(total, n);
      deviations == squares - Times(2.0 * mean, total) + Times(n, Square(mean))
    ensures
      var mean := Quotient(total, n);
      && (mean <= 0.0 <==> total <= 0.0)
      && (Quotient(deviations, n) > 0.6 * 0.6 * mean * mean <==> Times(n, squares) > Times(1.36, Square(total)))
  {
    var mean, variance := Quotient(total, n), Quotient(deviations, n);
    QuotientTimes(total, n);
    QuotientTimes(deviations, n);
    MeanSquare(mean, total, n);
    Product(mean, 0.0, n);
    Product(variance, Times(0.36, Square(mean)), n);
    Product(deviations, Times(Times(0.36, Square(mean)), n), n);
    hide Quotient;
    assert 0.6 * 0.6 * mean * mean == Times(0.36, Square(mean));
    Rearranged(deviations, squares, mean, n);
  }

  lemma MeanSquare(mean: real, total: real, n: real)
    requires Times(mean, n) == total
    ensures Times(2.0 * mean, total) == 2.0 * Times(n, Square(mean))
    ensures Times(Times(n, Square(mean)), n) == Square(total)
    ensures mean == 0.0 ==> total == 0.0
  {
    assert total == mean * n;
    assert 2.0 * mean * (mean * n) == 2.0 * (n * (mean * mean));
    assert (n * (mean * mean)) * n == (mean * n) * (mean * n);
  }

  lemma Rearranged(deviations: real, squares: real, mean: real, n: real)
    requires deviations == squares - Times(n, Square(mean))
    ensures Times(deviations, n) == Times(n, squares) - Times(Times(n, Square(mean)), n)
    ensures Times(Times(Times(0.36, Square(mean)), n), n) == 0.36 * Times(Times(n, Square(mean)), n)
  {
    var m := Square(mean);
    assert (squares - n * m) * n == n * squares - (n * m) * n;
    assert ((0.36 * m) * n) * n == 0.36 * ((n * m) * n);
  }

  // ---- The derivation --------------------------------------------------------------

  datatype Reason =
    | NoObservations | OneObservation | EngineRestarted | NoUsableInterval
    | NothingLeaving | UnreliableAfterRestart | Varying

  datatype QueueRates = QueueRates(
    depth: Option<real>, ingress: Option<real>, egress: Option<real>, growth: Option<real>,
    drainSeconds: Option<real>, unavailable: Option<Reason>, windowSeconds: Option<real>, samples: nat, resets: nat)

  const EMPTY := QueueRates(None, None, None, None, None, Some(NoObservations), None, 0, 0)

  /** Drain seconds, or why there are none. */
  function DrainEstimate(depth: real, egress: real, rates: seq<real>, resets: nat): (Option<real>, Option<Reason>) {
    if depth <= 0.0 then (Some(0.0), None)
    else if egress <= 0.0 then (None, Some(NothingLeaving))
    else if resets > 0 then (None, Some(UnreliableAfterRestart))
    else if IsVolatile(rates) then (None, Some(Varying))
    else (Some(Quotient(depth, egress)), None)
  }

  function Window(o: seq<QueueSample>): real
    requires o != []
  {
    (At(o[|o| - 1]) - At(o[0])) / 1000.0
  }

  function Positive(x: real): real { if x > 0.0 then x else 0.0 }

  /** The rates of ordered samples. */
  function RatesFrom(o: seq<QueueSample>): QueueRates {
    if o == [] then EMPTY
    else
      var depth := o[|o| - 1].queued;
      if |o| < 2 then EMPTY.(depth := Some(depth), samples := 1, unavailable := Some(OneObservation))
      else
        var ks, resets, window := Intervals(o), Resets(o), Window(o);
        if ks == [] then
          EMPTY.(depth := Some(depth), samples := |o|, windowSeconds := Some(window), resets := resets,
                 unavailable := Some(if resets > 0 then EngineRestarted else NoUsableInterval))
        else
          IntervalsTakeTime(o);
          var egress := Quotient(Sent(ks), Seconds(ks));
          var growth := if window > 0.0 then Quotient(depth - o[0].queued, window) else 0.0;
          var drain := DrainEstimate(depth, egress, Rates(ks), resets);
          QueueRates(Some(depth), Some(Positive(growth + egress)), Some(egress), Some(growth), drain.0, drain.1,
            Some(window), |o|, resets)
  }

  lemma {:induction false} IntervalsTakeTime(o: seq<QueueSample>)
    ensures Intervals(o) != [] ==> Seconds(Intervals(o)) > 0.0
    ensures Seconds(Intervals(o)) >= 0.0
    ensures forall i :: i in Intervals(o) ==> Kept(i)
  {
    if |o| >= 2 {
      var before, i := Intervals(o[..|o| - 1]), Between(o[|o| - 2], o[|o| - 1]);
      IntervalsTakeTime(o[..|o| - 1]);
      SumsSnoc(before, i);
      assert Intervals(o) == before + (if Kept(i) then [i] else []);
      hide Intervals, Sent, Seconds, Rates, Between;
      if Kept(i) {} else { assert Intervals(o) == before; }
    }
  }

  lemma SumsSnoc(ks: seq<Interval>, i: Interval)
    ensures Sent(ks + [i]) == Sent(ks) + i.sent && Seconds(ks + [i]) == Seconds(ks) + i.seconds
    ensures Rates(ks + [i]) == Rates(ks) + [RateOf(i)]
  {
    assert (ks + [i])[..|ks|] == ks;
  }

  lemma IntervalsSnoc(o: seq<QueueSample>, k: nat)
    requires 1 <= k < |o|
    ensures
      var i := Between(o[k - 1], o[k]);
      && Intervals(o[..k + 1]) == Intervals(o[..k]) + (if Kept(i) then [i] else [])
      && Resets(o[..k + 1]) == Resets(o[..k]) + if i.seconds > 0.0 && i.sent < 0.0 then 1 else 0
  {
    var p := o[..k + 1];
    var i := Between(o[k - 1], o[k]);
    assert |p| == k + 1 && p[..k] == o[..k] && p[k - 1] == o[k - 1] && p[k] == o[k];
    if k == 1 { assert Intervals(o[..1]) == [] && Resets(o[..1]) == 0; }
    assert Intervals(p) == Intervals(o[..k]) + (if Kept(i) then [i] else []);
    assert Resets(p) == Resets(o[..k]) + if i.seconds > 0.0 && i.sent < 0.0 then 1 else 0;
  }

  /** The loop over neighbouring samples. */
  method MeasureIntervals(o: seq<QueueSample>)
    returns (perInterval: seq<real>, totalSent: real, totalSeconds: real, resets: nat)
    requires |o| >= 2
    ensures perInterval == Rates(Intervals(o)) && resets == Resets(o)
    ensures totalSent == Sent(Intervals(o)) && totalSeconds == Seconds(Intervals(o))
  {
    perInterval, resets, totalSent, totalSeconds := [], 0, 0.0, 0.0;
    assert Intervals(o[..1]) == [] && Resets(o[..1]) == 0;
    ghost var ks := [];
    hide Intervals, Resets, Sent, Seconds, Rates, Quotient;
    NoIntervals();
    for index := 1 to |o|
      invariant ks == Intervals(o[..index]) && resets == Resets(o[..index])
      invariant perInterval == Rates(ks) && totalSent == Sent(ks) && totalSeconds == Seconds(ks)
    {
      var previous, current := o[index - 1], o[index];
      var seconds := (At(current) - At(previous)) / 1000.0;
      var delta := current.sent - previous.sent;
      IntervalsSnoc(o, index);
      SumsSnoc(ks, Interval(delta, seconds));
      if seconds <= 0.0 {
        assert ks + [] == ks;
        continue;
      }
      if delta < 0.0 {
        assert ks + [] == ks;
        resets := resets + 1;
        continue;
      }
      ks := ks + [Interval(delta, seconds)];
      perInterval := perInterval + [Quotient(delta, seconds)];
      totalSent := totalSent + delta;
      totalSeconds := totalSeconds + seconds;
    }
    assert o[..|o|] == o;
  }

  method DeriveQueueRates(samples: seq<QueueSample>) returns (r: QueueRates)
    ensures r == RatesFrom(Ordered(samples))
  {
    var o := Ordered(samples);
    hide Intervals, Resets, Sent, Seconds, Rates, Quotient, DrainEstimate, Ordered, Window;
    if o == [] { return EMPTY; }
    var depth := o[|o| - 1].queued;
    if |o| < 2 { return EMPTY.(depth := Some(depth), samples := |o|, unavailable := Some(OneObservation)); }
    var perInterval, totalSent, totalSeconds, resets := MeasureIntervals(o);
    IntervalsTakeTime(o);
    SameCount(Intervals(o));
    var window := Window(o);
    if perInterval == [] {
      return EMPTY.(depth := Some(depth), samples := |o|, windowSeconds := Some(window), resets := resets,
                    unavailable := Some(if resets > 0 then EngineRestarted else NoUsableInterval));
    }
    var egress := Quotient(totalSent, totalSeconds);
    var depthChange := depth - o[0].queued;
    var growth := if window > 0.0 then Quotient(depthChange, window) else 0.0;
    var drain := DrainEstimate(depth, egress, perInterval, resets);
    return QueueRates(Some(depth), Some(Positive(growth + egress)), Some(egress), Some(growth), drain.0, drain.1,
      Some(window), |o|, resets);
  }

  lemma NoIntervals()
    ensures Rates([]) == [] && Sent([]) == 0.0 && Seconds([]) == 0.0
  {
  }

  lemma SameCount(ks: seq<Interval>)
    ensures |Rates(ks)| == |ks|
  {
  }

  // ---- Egress ----------------------------------------------------------------------

  lemma Scale(lo: real, a: real, seconds: real)
    requires seconds > 0.0
    ensures lo <= Quotient(a, seconds) <==> Times(lo, seconds) <= a
    ensures Quotient(a, seconds) <= lo <==> a <= Times(lo, seconds)
  {
    QuotientTimes(a, seconds);
    Product(lo, Quotient(a, seconds), seconds);
    Product(Quotient(a, seconds), lo, seconds);
  }

  lemma {:induction false} SumsBetween(ks: seq<Interval>, lo: real, hi: real)
    requires forall i :: i in ks ==> Kept(i) && lo <= RateOf(i) <= hi
    ensures Times(lo, Seconds(ks)) <= Sent(ks) <= Times(hi, Seconds(ks))
  {
    Distribute(lo, 0.0, 0.0);
    Distribute(hi, 0.0, 0.0);
    if ks != [] {
      var before, i := ks[..|ks| - 1], ks[|ks| - 1];
      assert i in ks;
      hide Times;
      SumsBetween(before, lo, hi);
      Scale(lo, i.sent, i.seconds);
      Scale(hi, i.sent, i.seconds);
      Distribute(lo, Seconds(before), i.seconds);
      Distribute(hi, Seconds(before), i.seconds);
      hide Quotient;
    }
  }

  lemma Distribute(a: real, b: real, c: real)
    ensures Times(a, b + c) == Times(a, b) + Times(a, c) && Times(b + c, a) == Times(b, a) + Times(c, a)
    ensures Times(a, 0.0) == 0.0 && Times(0.0, a) == 0.0
  {
  }

  lemma EgressIs(o: seq<QueueSample>)
    ensures RatesFrom(o).egress.Some? <==> Intervals(o) != []
    ensures Intervals(o) != [] ==>
      Seconds(Intervals(o)) > 0.0 && RatesFrom(o).egress == Some(Quotient(Sent(Intervals(o)), Seconds(Intervals(o))))
  {
    IntervalsTakeTime(o);
    if |o| < 2 { assert Intervals(o) == []; }
    hide Quotient, Intervals, Sent, Seconds, Rates, DrainEstimate, Window;
  }

  /** Egress is measured exactly when some interval is kept; it is not negative and lies among the interval rates. */
  lemma EgressIsAMean(o: seq<QueueSample>, lo: real, hi: real)
    requires forall i :: i in Intervals(o) ==> lo <= RateOf(i) <= hi
    ensures RatesFrom(o).egress.Some? <==> Intervals(o) != []
    ensures RatesFrom(o).egress.Some? ==> lo <= RatesFrom(o).egress.value <= hi && RatesFrom(o).egress.value >= 0.0
  {
    EgressIs(o);
    IntervalsTakeTime(o);
    hide *;
    if Intervals(o) != [] {
      var ks := Intervals(o);
      SumsBetween(ks, lo, hi);
      SentNotNegative(ks);
      Scale(lo, Sent(ks), Seconds(ks));
      Scale(hi, Sent(ks), Seconds(ks));
      Scale(0.0, Sent(ks), Seconds(ks));
      Distribute(Seconds(ks), 0.0, 0.0);
    }
  }

  lemma {:induction false} SentNotNegative(ks: seq<Interval>)
    requires forall i :: i in ks ==> Kept(i)
    ensures Sent(ks) >= 0.0
  {
    if ks != [] {
      assert ks[|ks| - 1] in ks;
      SentNotNegative(ks[..|ks| - 1]);
    }
  }

  ghost predicate Increasing(o: seq<QueueSample>) { forall k :: 0 < k < |o| ==> At(o[k - 1]) < At(o[k]) }

  /** Without a reset the interval counts and durations telescope. */
  lemma {:induction false} Telescopes(o: seq<QueueSample>)
    requires o != [] && Increasing(o) && Resets(o) == 0
    ensures Sent(Intervals(o)) == o[|o| - 1].sent - o[0].sent
    ensures Seconds(Intervals(o)) == Window(o)
    ensures |o| >= 2 ==> Intervals(o) != []
  {
    if |o| >= 2 {
      Telescopes(o[..|o| - 1]);
      SumsSnoc(Intervals(o[..|o| - 1]), Between(o[|o| - 2], o[|o| - 1]));
    }
  }

  /** With strictly increasing times and no reset, egress is the whole count over the whole window. */
  lemma EgressTelescopes(o: seq<QueueSample>)
    requires |o| >= 2 && Increasing(o) && Resets(o) == 0
    ensures RatesFrom(o).egress.Some? && Window(o) > 0.0
    ensures Times(RatesFrom(o).egress.value, Window(o)) == o[|o| - 1].sent - o[0].sent
  {
    Telescopes(o);
    IntervalsTakeTime(o);
    var ks := Intervals(o);
    QuotientTimes(Sent(ks), Seconds(ks));
    hide Quotient, Intervals, Sent, Seconds, Rates, DrainEstimate;
  }

  /** Then what entered is what left plus what the queue gained, unless that is negative. */
  lemma IngressTelescopes(o: seq<QueueSample>)
    requires |o| >= 2 && Increasing(o) && Resets(o) == 0
    ensures
      var r := RatesFrom(o);
      var entered := (o[|o| - 1].sent - o[0].sent) + (o[|o| - 1].queued - o[0].queued);
      r.ingress.Some? && Times(r.ingress.value, Window(o)) == Positive(entered)
  {
    hide RatesFrom, Quotient, Window, Resets, Increasing, Positive, Times, Intervals;
    EgressTelescopes(o);
    GrowthIs(o);
    var r := RatesFrom(o);
    var gained := o[|o| - 1].queued - o[0].queued;
    QuotientTimes(gained, Window(o));
    PositivePart(r.growth.value, r.egress.value, Window(o), gained, o[|o| - 1].sent - o[0].sent);
  }

  /** Messages over a span of samples at a rate per second. */
  ghost function Over(rate: Option<real>, o: seq<QueueSample>): real
    requires o != [] && rate.Some?
  {
    rate.value * ((At(o[|o| - 1]) - At(o[0])) / 1000.0)
  }

  lemma OverWindow(rate: Option<real>, o: seq<QueueSample>)
    requires o != [] && rate.Some?
    ensures Over(rate, o) == Times(rate.value, Window(o))
  {
  }

  /**
   * With strictly increasing times and no reset: over the whole span the egress is what left, and
   * the ingress what left plus what the queue gained, or nothing when that is negative.
   */
  lemma FlowIsConserved(o: seq<QueueSample>)
    requires |o| >= 2 && Increasing(o) && Resets(o) == 0
    ensures
      var r := RatesFrom(o);
      var left, gained := o[|o| - 1].sent - o[0].sent, o[|o| - 1].queued - o[0].queued;
      && r.egress.Some? && Over(r.egress, o) == left
      && r.ingress.Some? && Over(r.ingress, o) == if left + gained > 0.0 then left + gained else 0.0
  {
    hide RatesFrom, Resets, Increasing, Over, Times, Window;
    EgressTelescopes(o);
    IngressTelescopes(o);
    OverWindow(RatesFrom(o).egress, o);
    OverWindow(RatesFrom(o).ingress, o);
  }

  lemma PositivePart(growth: real, egress: real, w: real, gained: real, left: real)
    requires w > 0.0 && Times(growth, w) == gained && Times(egress, w) == left
    ensures Times(Positive(growth + egress), w) == Positive(left + gained)
  {
    hide Times;
    Distribute(w, growth, egress);
    Product(growth + egress, 0.0, w);
  }

  lemma GrowthIs(o: seq<QueueSample>)
    requires RatesFrom(o).egress.Some? && Window(o) > 0.0
    ensures |o| >= 2 && RatesFrom(o).growth == Some(Quotient(o[|o| - 1].queued - o[0].queued, Window(o)))
    ensures RatesFrom(o).ingress == Some(Positive(RatesFrom(o).growth.value + RatesFrom(o).egress.value))
  {
    hide Quotient, Intervals, Sent, Seconds, Rates, DrainEstimate, Window;
  }

  // ---- Drain -----------------------------------------------------------------------

  /**
   * An empty queue is drained. With a depth there is an estimate exactly when messages leave, no
   * reset was seen and the rates are steady, and it empties the queue at the measured egress;
   * otherwise the first of these that fails is the reason.
   */
  lemma DrainIsExact(o: seq<QueueSample>)
    requires RatesFrom(o).egress.Some?
    ensures
      var r := RatesFrom(o);
      var steady := !IsVolatile(Rates(Intervals(o)));
      && (r.depth.value <= 0.0 ==> r.drainSeconds == Some(0.0))
      && (r.depth.value > 0.0 ==> (r.drainSeconds.Some? <==> r.egress.value > 0.0 && r.resets == 0 && steady))
      && (r.depth.value > 0.0 && r.drainSeconds.Some? ==>
          r.drainSeconds.value > 0.0 && r.drainSeconds.value * r.egress.value == r.depth.value)
      && (r.drainSeconds.Some? ==> r.unavailable.None?)
      && (r.drainSeconds.None? ==> r.unavailable == Some(
          if r.egress.value <= 0.0 then NothingLeaving else if r.resets > 0 then UnreliableAfterRestart else Varying))
  {
    var r := RatesFrom(o);
    if r.depth.value > 0.0 && r.drainSeconds.Some? {
      assert r.egress.value > 0.0 && r.drainSeconds == Some(Quotient(r.depth.value, r.egress.value));
      QuotientTimes(r.depth.value, r.egress.value);
      Scale(0.0, r.depth.value, r.egress.value);
      Product(Quotient(r.depth.value, r.egress.value), 0.0, r.egress.value);
      Distribute(r.egress.value, 0.0, 0.0);
      TimesIs(r.drainSeconds.value, r.egress.value);
    }
    hide Quotient, Intervals, Sent, Seconds, Rates, IsVolatile, Times;
  }

  lemma TimesIs(a: real, b: real)
    ensures Times(a, b) == a * b
  {
  }

  // ---- What is reported beside the rates -------------------------------------------

  /** The counter went back while time passed. */
  predicate DropsAt(o: seq<QueueSample>, k: nat)
    requires 1 <= k < |o|
  {
    At(o[k]) > At(o[k - 1]) && o[k].sent < o[k - 1].sent
  }

  ghost function Drops(o: seq<QueueSample>): set<nat> { set k: nat | 1 <= k < |o| && DropsAt(o, k) }

  lemma DropsSnoc(o: seq<QueueSample>)
    requires |o| >= 2
    ensures
      var n := |o| - 1;
      n !in Drops(o[..n]) && Drops(o) == Drops(o[..n]) + if DropsAt(o, n) then {n} else {}
  {
    var n := |o| - 1;
    forall k: nat | 1 <= k < n ensures DropsAt(o[..n], k) == DropsAt(o, k) { }
    hide DropsAt;
  }

  lemma {:induction false} ResetsAreDrops(o: seq<QueueSample>)
    ensures Resets(o) == |Drops(o)|
  {
    if |o| >= 2 {
      hide Drops;
      ResetsAreDrops(o[..|o| - 1]);
      DropsSnoc(o);
    } else {
      assert Drops(o) == {};
    }
  }

  /** The latest depth, the samples, the span in seconds, the resets, and why there is no rate. */
  lemma ReportedBeside(o: seq<QueueSample>)
    ensures
      var r := RatesFrom(o);
      && r.samples == |o| && r.resets == (if |o| >= 2 then |Drops(o)| else 0)
      && r.depth == (if o == [] then None else Some(o[|o| - 1].queued))
      && r.windowSeconds == (if |o| < 2 then None else Some((At(o[|o| - 1]) - At(o[0])) / 1000.0))
      && (r.egress.None? ==> r.ingress.None? && r.growth.None? && r.drainSeconds.None? && r.unavailable.Some?)
      && (r.unavailable == Some(NoObservations) <==> o == [])
      && (r.unavailable == Some(OneObservation) <==> |o| == 1)
      && (|o| >= 2 && r.egress.None? ==>
          r.unavailable == Some(if Drops(o) != {} then EngineRestarted else NoUsableInterval))
  {
    ResetsAreDrops(o);
    hide Intervals, Sent, Seconds, Rates, Quotient, IsVolatile, Drops, Resets;
  }

  // ---- What the result does not depend on ------------------------------------------

  lemma {:induction false} TimedCount(samples: seq<QueueSample>, x: QueueSample)
    ensures multiset(Timed(samples))[x] == if x.observedAt.Some? then multiset(samples)[x] else 0
  {
    if samples != [] {
      var before, s := samples[..|samples| - 1], samples[|samples| - 1];
      TimedCount(before, x);
      assert samples == before + [s];
    }
  }

  /** The samples with a readable instant, each as often as given, in time order. */
  lemma OrderedIsInTime(samples: seq<QueueSample>)
    ensures
      var o := Ordered(samples);
      && (forall i, j :: 0 <= i < j < |o| ==> At(o[i]) <= At(o[j]))
      && (forall s :: multiset(o)[s] == if s.observedAt.Some? then multiset(samples)[s] else 0)
  {
    hide Timed, Sorting.Sort;
    Sorting.SortSorts(Timed(samples), Earlier);
    Sorting.SortIsPermutation(Timed(samples), Earlier);
    forall s ensures multiset(Timed(samples))[s] == if s.observedAt.Some? then multiset(samples)[s] else 0 {
      TimedCount(samples, s);
    }
  }

  ghost predicate DistinctTimes(samples: seq<QueueSample>) {
    forall a, b :: a in samples && b in samples && a.observedAt.Some? && a.observedAt == b.observedAt ==> a == b
  }

  lemma TimedSame(a: seq<QueueSample>, b: seq<QueueSample>)
    requires multiset(a) == multiset(b)
    ensures multiset(Timed(a)) == multiset(Timed(b))
  {
    hide Timed;
    forall x ensures multiset(Timed(a))[x] == multiset(Timed(b))[x] {
      TimedCount(a, x);
      TimedCount(b, x);
    }
  }

  lemma TimedIn(samples: seq<QueueSample>, x: QueueSample)
    requires x in Timed(samples)
    ensures x.observedAt.Some? && x in samples
  {
    hide Timed;
    TimedCount(samples, x);
    assert x in multiset(Timed(samples)) && x in multiset(samples);
  }

  lemma TimedNeverTie(samples: seq<QueueSample>)
    requires DistinctTimes(samples)
    ensures Sorting.Orders(Earlier, Timed(samples)) && Sorting.Antisymmetric(Earlier, Timed(samples))
  {
    hide Timed;
    forall x | x in Timed(samples) ensures x.observedAt.Some? && x in samples { TimedIn(samples, x); }
  }

  /** Samples of different instants may be given in any order. */
  lemma OrderDoesNotMatter(a: seq<QueueSample>, b: seq<QueueSample>)
    requires multiset(a) == multiset(b) && DistinctTimes(a)
    ensures Ordered(a) == Ordered(b)
  {
    hide Timed, Earlier, DistinctTimes, Sorting.Sort, Sorting.Orders, Sorting.Antisymmetric;
    TimedSame(a, b);
    TimedNeverTie(a);
    Sorting.SortCanonical(Timed(a), Timed(b), Earlier);
  }

  function Shifted(s: QueueSample, time: real, counter: real): QueueSample {
    QueueSample(s.queued, s.sent + counter, if s.observedAt.Some? then Some(s.observedAt.value + time) else None)
  }

  function AllShifted(samples: seq<QueueSample>, time: real, counter: real): seq<QueueSample> {
    seq(|samples|, k requires 0 <= k < |samples| => Shifted(samples[k], time, counter))
  }

  lemma {:induction false} TimedShifted(samples: seq<QueueSample>, time: real, counter: real)
    ensures Timed(AllShifted(samples, time, counter)) == AllShifted(Timed(samples), time, counter)
    ensures forall s :: s in Timed(samples) ==> s.observedAt.Some?
  {
    if samples != [] {
      TimedShifted(samples[..|samples| - 1], time, counter);
      var all := AllShifted(samples, time, counter);
      assert all[..|all| - 1] == AllShifted(samples[..|samples| - 1], time, counter);
    }
  }

  lemma {:induction false} InsertShifted(x: QueueSample, s: seq<QueueSample>, time: real, counter: real)
    requires x.observedAt.Some? && forall y :: y in s ==> y.observedAt.Some?
    ensures Sorting.Insert(Shifted(x, time, counter), AllShifted(s, time, counter), Earlier)
      == AllShifted(Sorting.Insert(x, s, Earlier), time, counter)
  {
    if s != [] {
      assert s[0] in s;
      assert AllShifted(s, time, counter)[1..] == AllShifted(s[1..], time, counter);
      assert Earlier(Shifted(x, time, counter), Shifted(s[0], time, counter)) == Earlier(x, s[0]);
      if !Earlier(x, s[0]) { InsertShifted(x, s[1..], time, counter); }
    }
  }

  lemma {:induction false} SortShifted(s: seq<QueueSample>, time: real, counter: real)
    requires forall y :: y in s ==> y.observedAt.Some?
    ensures Sorting.Sort(AllShifted(s, time, counter), Earlier) == AllShifted(Sorting.Sort(s, Earlier), time, counter)
  {
    if s != [] {
      assert s[0] in s;
      SortShifted(s[1..], time, counter);
      assert AllShifted(s, time, counter)[1..] == AllShifted(s[1..], time, counter);
      Sorting.SortIsPermutation(s[1..], Earlier);
      InsertShifted(s[0], Sorting.Sort(s[1..], Earlier), time, counter);
    }
  }

  lemma {:induction false} IntervalsShifted(o: seq<QueueSample>, time: real, counter: real)
    requires forall s :: s in o ==> s.observedAt.Some?
    ensures Intervals(AllShifted(o, time, counter)) == Intervals(o)
    ensures Resets(AllShifted(o, time, counter)) == Resets(o)
  {
    if |o| >= 2 {
      IntervalsShifted(o[..|o| - 1], time, counter);
      assert AllShifted(o, time, counter)[..|o| - 1] == AllShifted(o[..|o| - 1], time, counter);
      assert o[|o| - 2] in o && o[|o| - 1] in o;
      assert Between(Shifted(o[|o| - 2], time, counter), Shifted(o[|o| - 1], time, counter)) ==
        Between(o[|o| - 2], o[|o| - 1]);
    }
  }

  lemma OrderedShifted(samples: seq<QueueSample>, time: real, counter: real)
    ensures Ordered(AllShifted(samples, time, counter)) == AllShifted(Ordered(samples), time, counter)
    ensures forall s :: s in Ordered(samples) ==> s.observedAt.Some?
  {
    hide Timed, AllShifted, Sorting.Sort, Earlier;
    TimedShifted(samples, time, counter);
    SortShifted(Timed(samples), time, counter);
    Sorting.SortIsPermutation(Timed(samples), Earlier);
  }

  lemma EndsShifted(o: seq<QueueSample>, time: real, counter: real)
    requires forall s :: s in o ==> s.observedAt.Some?
    ensures
      var a := AllShifted(o, time, counter);
      && |a| == |o|
      && (o != [] ==> Window(a) == Window(o) && a[0].queued == o[0].queued && a[|a| - 1].queued == o[|o| - 1].queued)
  {
    if o != [] { assert o[0] in o && o[|o| - 1] in o; }
  }

  /** A constant offset of the clock and of the counter changes no result. */
  lemma ShiftDoesNotMatter(samples: seq<QueueSample>, time: real, counter: real)
    ensures RatesFrom(Ordered(AllShifted(samples, time, counter))) == RatesFrom(Ordered(samples))
  {
    hide *;
    var o := Ordered(samples);
    OrderedShifted(samples, time, counter);
    IntervalsShifted(o, time, counter);
    EndsShifted(o, time, counter);
    SameParts(AllShifted(o, time, counter), o);
  }

  /** All that the rates look at. */
  lemma SameParts(a: seq<QueueSample>, b: seq<QueueSample>)
    requires |a| == |b| && Intervals(a) == Intervals(b) && Resets(a) == Resets(b)
    requires a != [] ==> Window(a) == Window(b) && a[0].queued == b[0].queued && a[|a| - 1].queued == b[|b| - 1].queued
    ensures RatesFrom(a) == RatesFrom(b)
  {
    hide Intervals, Resets, Sent, Seconds, Rates, Quotient, DrainEstimate, Window;
  }
}
