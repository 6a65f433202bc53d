/** Arithmetic on reals that several models share. */
module Numbers {

  /** `Math.trunc`. */
  function Truncated(x: real): int { if x >= 0.0 then x.Floor else -((-x).Floor) }

  function Mean(sum: real, count: nat): real
    requires count > 0
  {
    sum / count as real
  }

  function Times(a: real, n: nat): real { a * n as real }

  lemma MeanTimesCount(sum: real, count: nat)
    requires count > 0
    ensures Times(Mean(sum, count), count) == sum
  {
  }

  lemma Signs(d: real, m: real)
    requires m > 0.0
    ensures d > 0.0 ==> d * m > 0.0
    ensures d <= 0.0 ==> d * m <= 0.0
  {
  }

  lemma Scaled(a: real, b: real, n: nat)
    requires n > 0
    ensures a < b <==> Times(a, n) < Times(b, n)
  {
    var m, d := n as real, b - a;
    assert b * m == a * m + d * m;
    Signs(d, m);
  }

  /** A total between `count` times two bounds has its mean between them. */
  lemma MeanBetween(sum: real, count: nat, min: real, max: real)
    requires count > 0 && Times(min, count) <= sum <= Times(max, count)
    ensures min <= Mean(sum, count) <= max
  {
    MeanTimesCount(sum, count);
    hide Mean, Times;
    Scaled(Mean(sum, count), min, count);
    Scaled(max, Mean(sum, count), count);
  }

  lemma OneMore(a: real, n: nat)
    ensures Times(a, n + 1) == Times(a, n) + a && Times(a, 0) == 0.0
  {
    var m := n as real;
    assert (n + 1) as real == m + 1.0;
    assert a * (m + 1.0) == a * m + a;
  }
}
