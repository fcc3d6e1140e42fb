/**
 Group-relative advantages over the reals (axrl/pipeline/controller.py:867-898). The sample standard deviation is
 taken as the non-negative number whose square times n - 1 is the sum of squared deviations.
 */
module Advantages {
  const STD_FLOOR := 0.00000001
  const STD_EPSILON := 0.000001
  const CLIP := 5.0

  function Abs(x: real): real { if x < 0.0 then -x else x }

  function Sum(xs: seq<real>): real {
    if xs == [] then 0.0 else Sum(xs[..|xs| - 1]) + xs[|xs| - 1]
  }

  function SumSquares(xs: seq<real>): real {
    if xs == [] then 0.0 else SumSquares(xs[..|xs| - 1]) + xs[|xs| - 1] * xs[|xs| - 1]
  }

  function Mean(xs: seq<real>): real
    requires xs != []
  {
    Sum(xs) / |xs| as real
  }

  function Deviations(xs: seq<real>): (ds: seq<real>)
    requires xs != []
    ensures |ds| == |xs|
  {
    seq(|xs|, i requires 0 <= i < |xs| => xs[i] - Mean(xs))
  }

  predicate IsStd(xs: seq<real>, std: real)
    requires |xs| > 1
  {
    std >= 0.0 && std * std * (|xs| - 1) as real == SumSquares(Deviations(xs))
  }

  function Clip(x: real): real {
    if x < -CLIP then -CLIP else if x > CLIP then CLIP else x
  }

  /** The value before clipping. */
  function Scaled(score: real, mean: real, std: real): real
    requires std >= 0.0
  {
    (score - mean) / (std + STD_EPSILON)
  }

  function Advantage(score: real, mean: real, std: real): real
    requires std >= 0.0
  {
    if std < STD_FLOOR then 0.0 else Clip(Scaled(score, mean, std))
  }

  // ---------------------------------------------------------------- sums

  lemma {:induction false} SumConcat(xs: seq<real>, ys: seq<real>)
    ensures Sum(xs + ys) == Sum(xs) + Sum(ys)
    ensures SumSquares(xs + ys) == SumSquares(xs) + SumSquares(ys)
  {
    if ys == [] {
      assert xs + ys == xs;
    } else {
      var n := |ys| - 1;
      SumConcat(xs, ys[..n]);
      assert (xs + ys)[..|xs| + n] == xs + ys[..n];
    }
  }

  /** The sum of (x - t)^2 is non-negative, whatever t. */
  lemma {:induction false} ShiftedSquares(xs: seq<real>, t: real)
    ensures SumSquares(xs) - 2.0 * t * Sum(xs) + |xs| as real * t * t >= 0.0
  {
    if xs != [] {
      var n := |xs| - 1;
      var x := xs[n];
      ShiftedSquares(xs[..n], t);
      assert (x - t) * (x - t) == x * x - 2.0 * t * x + t * t >= 0.0;
      assert 2.0 * t * Sum(xs) == 2.0 * t * Sum(xs[..n]) + 2.0 * t * x;
      assert |xs| as real * t * t == n as real * t * t + t * t;
    }
  }

  /** Cauchy-Schwarz against the all-ones vector. */
  lemma SquareOfSum(xs: seq<real>)
    ensures Sum(xs) * Sum(xs) <= |xs| as real * SumSquares(xs)
  {
    if xs != [] {
      var n, s := |xs| as real, Sum(xs);
      var t := s / n;
      assert n * t == s;
      ShiftedSquares(xs, t);
      assert n * t * t == s * t && 2.0 * t * s == 2.0 * (s * t);
      assert SumSquares(xs) >= s * t;
      assert n * SumSquares(xs) >= n * (s * t) by { ScaleLe(s * t, SumSquares(xs), n); }
      assert n * (s * t) == s * s;
    }
  }

  lemma ScaleLe(a: real, b: real, c: real)
    requires a <= b && c >= 0.0
    ensures c * a <= c * b
  {
    assert c * (b - a) >= 0.0;
  }

  lemma ScaleLt(a: real, b: real, c: real)
    requires a < b && c > 0.0
    ensures c * a < c * b
  {
    assert c * (b - a) > 0.0;
  }

  lemma {:induction false} SumOfShift(xs: seq<real>, ds: seq<real>, t: real)
    requires |ds| == |xs| && forall i :: 0 <= i < |xs| ==> ds[i] == xs[i] - t
    ensures Sum(ds) == Sum(xs) - |xs| as real * t
  {
    if xs != [] {
      SumOfShift(xs[..|xs| - 1], ds[..|xs| - 1], t);
      assert |xs| as real * t == (|xs| - 1) as real * t + t;
    }
  }

  lemma DeviationsSumToZero(xs: seq<real>)
    requires xs != []
    ensures Sum(Deviations(xs)) == 0.0
  {
    SumOfShift(xs, Deviations(xs), Mean(xs));
    assert |xs| as real * Mean(xs) == Sum(xs);
  }

  lemma WithoutOne(xs: seq<real>, i: nat)
    requires i < |xs|
    ensures Sum(xs[..i] + xs[i + 1..]) == Sum(xs) - xs[i]
    ensures SumSquares(xs[..i] + xs[i + 1..]) == SumSquares(xs) - xs[i] * xs[i]
  {
    hide Sum, SumSquares;
    assert xs == xs[..i] + [xs[i]] + xs[i + 1..];
    SumConcat(xs[..i] + [xs[i]], xs[i + 1..]);
    SumConcat(xs[..i], [xs[i]]);
    SumConcat(xs[..i], xs[i + 1..]);
    SumOfOne(xs[i]);
  }

  lemma SumOfOne(x: real)
    ensures Sum([x]) == x && SumSquares([x]) == x * x
  {
    assert [x][..0] == [];
  }

  lemma CollectSquares(m: real, d2: real, s2: real)
    requires d2 <= m * (s2 * m - d2)
    ensures (m + 1.0) * d2 <= m * m * s2
  {
    assert m * (s2 * m - d2) == m * m * s2 - m * d2;
    assert (m + 1.0) * d2 == m * d2 + d2;
  }

  /** No value lies further from the mean than (n - 1) / sqrt n standard deviations. */
  lemma DeviationBound(xs: seq<real>, std: real, i: nat)
    requires |xs| > 1 && i < |xs| && IsStd(xs, std)
    ensures var d := xs[i] - Mean(xs);
      |xs| as real * (d * d) <= (|xs| - 1) as real * (|xs| - 1) as real * (std * std)
  {
    hide Sum, SumSquares, Mean;
    var ds := Deviations(xs);
    var d, others := ds[i], ds[..i] + ds[i + 1..];
    WithoutOne(ds, i);
    DeviationsSumToZero(xs);
    SquareOfSum(others);
    assert Sum(others) == -d;
    assert Sum(others) * Sum(others) == d * d;
    CollectSquares((|xs| - 1) as real, d * d, std * std);
  }

  /** Every advantage is bounded, whatever the scores. */
  lemma AdvantageBounded(score: real, mean: real, std: real)
    requires std >= 0.0
    ensures Abs(Advantage(score, mean, std)) <= CLIP
  {
  }

  predicate Unclipped(xs: seq<real>, std: real)
    requires |xs| > 1 && std >= 0.0
  {
    forall i :: 0 <= i < |xs| ==> Abs(Scaled(xs[i], Mean(xs), std)) <= CLIP
  }

  /** This is where 26 comes from. */
  lemma AtMostFiveRoots(n: nat)
    requires 1 <= n <= 26
    ensures (n - 1) as real * (n - 1) as real <= 25.0 * n as real
  {
    assert (n - 1) * (n - 1) <= 25 * (n - 1);
    assert ((n - 1) * (n - 1)) as real == (n - 1) as real * (n - 1) as real;
  }

  lemma CancelScale(a: real, b: real, c: real)
    requires c > 0.0 && c * a <= c * b
    ensures a <= b
  {
    if b < a {
      ScaleLt(b, a, c);
    }
  }

  lemma WithinFiveStds(n: nat, d: real, std: real)
    requires 2 <= n <= 26 && std >= 0.0
    requires n as real * (d * d) <= (n - 1) as real * (n - 1) as real * (std * std)
    ensures Abs(d) <= CLIP * std
  {
    AtMostFiveRoots(n);
    FiveStdsScaled(n as real, (n - 1) as real * (n - 1) as real, d * d, std * std);
    assert Abs(d) * Abs(d) == d * d;
    assert CLIP * std * (CLIP * std) == 25.0 * (std * std);
    SquareRootMonotone(Abs(d), CLIP * std);
  }

  lemma FiveStdsScaled(r: real, m2: real, d2: real, s2: real)
    requires r > 0.0 && s2 >= 0.0 && m2 <= 25.0 * r && r * d2 <= m2 * s2
    ensures d2 <= 25.0 * s2
  {
    ScaleLe(m2, 25.0 * r, s2);
    assert s2 * (25.0 * r) == r * (25.0 * s2);
    CancelScale(d2, 25.0 * s2, r);
  }

  lemma SquareRootMonotone(a: real, b: real)
    requires a >= 0.0 && b >= 0.0 && a * a <= b * b
    ensures a <= b
  {
    assert (a + b) * a == a * a + a * b && (a + b) * b == a * b + b * b;
    if b < a {
      ScaleLt(b, a, a + b);
    }
  }

  lemma QuotientBound(d: real, std: real)
    requires std >= 0.0 && Abs(d) <= CLIP * std
    ensures Abs(d / (std + STD_EPSILON)) <= CLIP
  {
    var q, w := d / (std + STD_EPSILON), std + STD_EPSILON;
    assert q * w == d;
    if q > CLIP {
      ScaleLt(CLIP, q, w);
    } else if q < -CLIP {
      ScaleLt(q, -CLIP, w);
    }
  }

  /** In groups of at most 26 rollouts clipping never changes a value. */
  lemma SmallGroupsUnclipped(xs: seq<real>, std: real)
    requires 2 <= |xs| <= 26 && IsStd(xs, std)
    ensures Unclipped(xs, std)
  {
    forall i | 0 <= i < |xs| ensures Abs(Scaled(xs[i], Mean(xs), std)) <= CLIP {
      DeviationBound(xs, std, i);
      WithinFiveStds(|xs|, xs[i] - Mean(xs), std);
      QuotientBound(xs[i] - Mean(xs), std);
    }
  }

  function GroupAdvantages(xs: seq<real>, std: real): (advantages: seq<real>)
    requires |xs| > 1 && std >= 0.0
    ensures |advantages| == |xs|
  {
    seq(|xs|, i requires 0 <= i < |xs| => Advantage(xs[i], Mean(xs), std))
  }

  lemma {:induction false} SumOfScaled(ds: seq<real>, qs: seq<real>, c: real)
    requires |qs| == |ds| && forall i :: 0 <= i < |ds| ==> qs[i] == c * ds[i]
    ensures Sum(qs) == c * Sum(ds)
  {
    if ds != [] {
      SumOfScaled(ds[..|ds| - 1], qs[..|ds| - 1], c);
      assert c * Sum(ds) == c * Sum(ds[..|ds| - 1]) + c * ds[|ds| - 1];
    }
  }

  /** Where nothing is clipped the advantages of a group cancel exactly. */
  lemma UnclippedSumsToZero(xs: seq<real>, std: real)
    requires |xs| > 1 && std >= 0.0 && (std < STD_FLOOR || Unclipped(xs, std))
    ensures Sum(GroupAdvantages(xs, std)) == 0.0
  {
    var c := if std < STD_FLOOR then 0.0 else 1.0 / (std + STD_EPSILON);
    DeviationsSumToZero(xs);
    SumOfScaled(Deviations(xs), GroupAdvantages(xs, std), c);
  }

  /** Groups of 2 to 26 rollouts: the advantages sum to exactly zero. */
  lemma SmallGroupsSumToZero(xs: seq<real>, std: real)
    requires 2 <= |xs| <= 26 && IsStd(xs, std)
    ensures Sum(GroupAdvantages(xs, std)) == 0.0
  {
    SmallGroupsUnclipped(xs, std);
    UnclippedSumsToZero(xs, std);
  }

  // ---------------------------------------------------------------- what the group's advantages are

  /**
   Any group: zero below a deviation of 10^-8; otherwise the deviation from the mean in units of the standard deviation
   plus 10^-6, cut off at 5 and -5.
   */
  lemma AdvantageOfDeviation(xs: seq<real>, std: real, i: nat)
    requires |xs| > 1 && std >= 0.0 && i < |xs|
    ensures var a, d, unit := GroupAdvantages(xs, std)[i], xs[i] - Sum(xs) / |xs| as real, std + 0.000001;
      && (std < 0.00000001 ==> a == 0.0)
      && (std >= 0.00000001 ==> CutOff(a, d, unit))
  {
    hide Sum, Clip, Mean, Advantage, CutOff;
    MeanIs(xs);
    AdvantageCutOff(xs[i], Mean(xs), std);
  }

  lemma MeanIs(xs: seq<real>)
    requires xs != []
    ensures Mean(xs) == Sum(xs) / |xs| as real
  {
  }

  /** `a` is `d` in units of `unit`, cut off at 5 and -5. */
  ghost predicate CutOff(a: real, d: real, unit: real) {
    && (-5.0 * unit <= d <= 5.0 * unit ==> a * unit == d)
    && (d > 5.0 * unit ==> a == 5.0)
    && (d < -5.0 * unit ==> a == -5.0)
  }

  lemma AdvantageCutOff(score: real, mean: real, std: real)
    requires std >= 0.0
    ensures std < 0.00000001 ==> Advantage(score, mean, std) == 0.0
    ensures std >= 0.00000001 ==> CutOff(Advantage(score, mean, std), score - mean, std + 0.000001)
  {
    hide Clip;
    ClippedQuotient(score - mean, std + STD_EPSILON);
  }

  lemma ClippedQuotient(d: real, w: real)
    requires w > 0.0
    ensures CutOff(Clip(d / w), d, w)
  {
    var q := d / w;
    assert w * q == d;
    if q > 5.0 {
      ScaleLt(5.0, q, w);
      assert d > 5.0 * w;
    } else if q < -5.0 {
      ScaleLt(q, -5.0, w);
      assert d < -5.0 * w;
    } else {
      ScaleLe(q, 5.0, w);
      ScaleLe(-5.0, q, w);
      assert -5.0 * w <= d <= 5.0 * w && Clip(q) == q;
    }
  }

  /** Below the floor all advantages of a group are zero. */
  lemma FlatGroup(xs: seq<real>, std: real)
    requires |xs| > 1 && 0.0 <= std < 0.00000001
    ensures forall i :: 0 <= i < |xs| ==> GroupAdvantages(xs, std)[i] == 0.0
  {
    forall i | 0 <= i < |xs|
      ensures GroupAdvantages(xs, std)[i] == 0.0
    {
      AdvantageOfDeviation(xs, std, i);
    }
  }

  /** In groups of at most 26 every advantage is the exact quotient. */
  lemma SmallGroupQuotient(xs: seq<real>, std: real, i: nat)
    requires 2 <= |xs| <= 26 && IsStd(xs, std) && std >= 0.00000001 && i < |xs|
    ensures GroupAdvantages(xs, std)[i] * (std + 0.000001) == xs[i] - Mean(xs)
  {
    hide Sum, SumSquares;
    AdvantageOfDeviation(xs, std, i);
    DeviationBound(xs, std, i);
    WithinFiveStds(|xs|, xs[i] - Mean(xs), std);
  }

  /** In groups of at most 26 a higher score means a higher advantage, strictly. */
  lemma HigherScoreHigherAdvantage(xs: seq<real>, std: real, i: nat, j: nat)
    requires 2 <= |xs| <= 26 && IsStd(xs, std) && std >= 0.00000001
    requires i < |xs| && j < |xs| && xs[i] < xs[j]
    ensures GroupAdvantages(xs, std)[i] < GroupAdvantages(xs, std)[j]
  {
    hide Sum, SumSquares, Mean, GroupAdvantages;
    SmallGroupQuotient(xs, std, i);
    SmallGroupQuotient(xs, std, j);
    CancelLt(GroupAdvantages(xs, std)[i], GroupAdvantages(xs, std)[j], std + 0.000001);
  }

  lemma {:induction false} SquaresOfScaled(ds: seq<real>, qs: seq<real>, w: real)
    requires |qs| == |ds| && forall i :: 0 <= i < |ds| ==> qs[i] * w == ds[i]
    ensures SumSquares(qs) * (w * w) == SumSquares(ds)
  {
    if ds != [] {
      var n := |ds| - 1;
      SquaresOfScaled(ds[..n], qs[..n], w);
      assert qs[n] * qs[n] * (w * w) == qs[n] * w * (qs[n] * w);
      assert (SumSquares(qs[..n]) + qs[n] * qs[n]) * (w * w) ==
          SumSquares(qs[..n]) * (w * w) + qs[n] * qs[n] * (w * w);
    }
  }

  /** Groups of at most 26: the advantages have variance 1, up to the 10^-6 added to the deviation. */
  lemma SmallGroupsUnitVariance(xs: seq<real>, std: real)
    requires 2 <= |xs| <= 26 && IsStd(xs, std) && std >= 0.00000001
    ensures SumSquares(GroupAdvantages(xs, std)) * ((std + 0.000001) * (std + 0.000001))
         == (|xs| - 1) as real * (std * std)
  {
    hide Sum, SumSquares, Mean, GroupAdvantages;
    forall i | 0 <= i < |xs|
      ensures GroupAdvantages(xs, std)[i] * (std + 0.000001) == Deviations(xs)[i]
    {
      SmallGroupQuotient(xs, std, i);
    }
    SquaresOfScaled(Deviations(xs), GroupAdvantages(xs, std), std + 0.000001);
  }

  // ---------------------------------------------------------------- larger groups

  /** One success of the given score among failures. */
  function OneSuccess(n: nat, score: real): (xs: seq<real>)
    requires n > 0
    ensures |xs| == n
  {
    [score] + seq(n - 1, _ => 0.0)
  }

  lemma {:induction false} SumOfConstant(n: nat, c: real)
    ensures Sum(seq(n, _ => c)) == n as real * c
    ensures SumSquares(seq(n, _ => c)) == n as real * (c * c)
  {
    var xs := seq(n, _ => c);
    if n > 0 {
      SumOfConstant(n - 1, c);
      assert xs[..n - 1] == seq(n - 1, _ => c);
      assert n as real * c == (n - 1) as real * c + c;
      assert n as real * (c * c) == (n - 1) as real * (c * c) + c * c;
    }
  }

  lemma SumWithHead(head: real, n: nat, c: real)
    ensures Sum([head] + seq(n, _ => c)) == head + n as real * c
    ensures SumSquares([head] + seq(n, _ => c)) == head * head + n as real * (c * c)
  {
    SumConcat([head], seq(n, _ => c));
    SumOfConstant(n, c);
    assert [head][..0] == [];
  }

  lemma OneSuccessMean(n: nat, score: real)
    requires n > 0
    ensures Mean(OneSuccess(n, score)) * n as real == score
  {
    SumWithHead(score, n - 1, 0.0);
  }

  /** The variance of one success among failures is the square of its score over the size of the group. */
  lemma OneSuccessStd(n: nat, score: real, std: real)
    requires n >= 2 && std >= 0.0
    ensures IsStd(OneSuccess(n, score), std) <==> std * std * n as real == score * score
  {
    hide Sum, SumSquares, Mean;
    var xs, r := OneSuccess(n, score), n as real;
    OneSuccessMean(n, score);
    var mean := Mean(xs);
    var ds := [score - mean] + seq(n - 1, _ => -mean);
    assert Deviations(xs) == ds;
    SumWithHead(score - mean, n - 1, -mean);
    OneSuccessSquares(r, score, mean, std * std);
    assert SumSquares(ds) == (score - mean) * (score - mean) + (r - 1.0) * (mean * mean);
    assert std * std * (n - 1) as real == std * std * (r - 1.0);
  }

  lemma OneSuccessSquares(r: real, score: real, mean: real, variance: real)
    requires r >= 2.0 && mean * r == score
    ensures (score - mean) * (score - mean) + (r - 1.0) * (mean * mean) == (r - 1.0) * (mean * score)
    ensures variance * (r - 1.0) == (r - 1.0) * (mean * score) <==> variance * r == score * score
  {
    assert (score - mean) * (score - mean) == score * score - 2.0 * (mean * score) + mean * mean;
    assert r * (mean * mean) == mean * score && score * score == r * (mean * score);
    CancelEqual(variance, mean * score, r - 1.0);
    CancelEqual(variance, mean * score, r);
  }

  lemma CancelEqual(a: real, b: real, c: real)
    requires c > 0.0
    ensures c * a == c * b <==> a == b
  {
    if c * a == c * b {
      CancelScale(a, b, c);
      CancelScale(b, a, c);
    }
  }

  lemma CancelLt(a: real, b: real, c: real)
    requires c > 0.0 && c * a < c * b
    ensures a < b
  {
    if b <= a {
      ScaleLe(b, a, c);
    }
  }

  /** The mean and the squares in a group of 27 or more with one success. */
  lemma OneSuccessBounds(r: real, score: real, mean: real, std: real)
    requires r >= 27.0 && score >= 1.0
    requires mean * r == score && std * std * r == score * score
    ensures 0.0 <= 27.0 * mean <= score
    ensures mean * mean <= mean * score == std * std
    ensures 27.0 * (std * std) <= score * score
  {
    CancelScale(0.0, mean, r);
    ScaleLe(27.0, r, mean);
    ScaleLe(27.0, r, std * std);
    ScaleLe(mean, score, mean);
    assert score * score == r * (mean * score);
    CancelEqual(std * std, mean * score, r);
  }

  /** The inequality behind the limit: from 27 on a success lies more than five standard deviations out. */
  lemma BeyondFiveStds(r: real, score: real, mean: real, std: real)
    requires r >= 27.0 && score >= 1.0 && std >= 0.0
    requires mean * r == score && std * std * r == score * score
    ensures score - mean > CLIP * (std + STD_EPSILON)
  {
    OneSuccessBounds(r, score, mean, std);
    assert 0.19246 * score * (0.19246 * score) == 0.19246 * 0.19246 * (score * score);
    SquareRootMonotone(std, 0.19246 * score);
  }

  lemma QuotientAbove(d: real, w: real, c: real)
    requires w > 0.0 && d > c * w
    ensures d / w > c
  {
    var q := d / w;
    assert w * q == d;
    CancelLt(c, q, w);
  }

  lemma FailureQuotient(mean: real, std: real, w: real)
    requires 0.0 <= mean <= std < w
    ensures -CLIP <= -mean / w <= 0.0
  {
    var q := -mean / w;
    assert w * q == -mean;
    CancelScale(q, 0.0, w);
    CancelScale(-CLIP, q, w);
  }

  lemma QuotientsCancel(a: real, b: real, k: real, w: real)
    requires w > 0.0 && a + k * b == 0.0
    ensures a / w + k * (b / w) == 0.0
  {
    assert k * (b / w) == k * b / w;
    assert a / w + k * b / w == (a + k * b) / w;
  }

  lemma MeanWithinStd(r: real, score: real, mean: real, std: real)
    requires r >= 27.0 && score >= 1.0 && std >= 0.0
    requires mean * r == score && std * std * r == score * score
    ensures 0.0 <= mean <= std
  {
    OneSuccessBounds(r, score, mean, std);
    SquareRootMonotone(mean, std);
  }

  /** The success is clipped, a failure beside it is not. */
  lemma OneSuccessScaled(r: real, score: real, mean: real, std: real)
    requires r >= 27.0 && score >= 1.0 && std >= 0.0
    requires mean * r == score && std * std * r == score * score
    ensures Scaled(score, mean, std) > CLIP
    ensures -CLIP <= Scaled(0.0, mean, std) <= 0.0
    ensures Scaled(score, mean, std) + (r - 1.0) * Scaled(0.0, mean, std) == 0.0
  {
    var w := std + STD_EPSILON;
    assert Scaled(score, mean, std) > CLIP by {
      BeyondFiveStds(r, score, mean, std);
      QuotientAbove(score - mean, w, CLIP);
    }
    assert -CLIP <= Scaled(0.0, mean, std) <= 0.0 by {
      MeanWithinStd(r, score, mean, std);
      FailureQuotient(mean, std, w);
    }
    assert score - mean + (r - 1.0) * -mean == 0.0;
    QuotientsCancel(score - mean, -mean, r - 1.0, w);
  }

  /** In every group of 27 or more a single success is clipped, and the advantages sum to less than zero. */
  lemma LargeGroupsDoNotCancel(n: nat, score: real, std: real)
    requires n >= 27 && score >= 1.0 && std >= STD_FLOOR && std * std * n as real == score * score
    ensures GroupAdvantages(OneSuccess(n, score), std)[0] == CLIP < Scaled(score, Mean(OneSuccess(n, score)), std)
    ensures Sum(GroupAdvantages(OneSuccess(n, score), std)) < 0.0
  {
    hide Sum, SumSquares, Mean;
    var xs := OneSuccess(n, score);
    var mean := Mean(xs);
    OneSuccessMean(n, score);
    OneSuccessScaled(n as real, score, mean, std);
    var low := Scaled(0.0, mean, std);
    assert GroupAdvantages(xs, std) == [CLIP] + seq(n - 1, _ => low) by {
      hide Scaled;
    }
    SumWithHead(CLIP, n - 1, low);
  }

  /**
   One success among failures, whatever the size of the group: its advantages cancel exactly if there are at most 26
   rollouts or the deviation is below the floor under which all advantages are zero.
   */
  lemma OneSuccessCancelsIff(n: nat, score: real, std: real)
    requires n >= 2 && score >= 1.0 && IsStd(OneSuccess(n, score), std)
    ensures Sum(GroupAdvantages(OneSuccess(n, score), std)) == 0.0 <==> n <= 26 || std < STD_FLOOR
  {
    OneSuccessStd(n, score, std);
    if n <= 26 {
      SmallGroupsSumToZero(OneSuccess(n, score), std);
    } else if std < STD_FLOOR {
      UnclippedSumsToZero(OneSuccess(n, score), std);
    } else {
      LargeGroupsDoNotCancel(n, score, std);
    }
  }

  ghost predicate AlwaysCancels(n: nat)
    requires n >= 2
  {
    forall xs, std | |xs| == n && IsStd(xs, std) :: Sum(GroupAdvantages(xs, std)) == 0.0
  }

  /**
   The advantages of every group of `n` rollouts cancel if and only if there are at most 26; `root` is the square root
   of `n`.
   */
  lemma TwentySixIsTheLimit(n: nat, root: real)
    requires n >= 2 && root > 0.0 && root * root == n as real
    ensures AlwaysCancels(n) <==> n <= 26
  {
    if n <= 26 {
      forall xs, std | |xs| == n && IsStd(xs, std) ensures Sum(GroupAdvantages(xs, std)) == 0.0 {
        SmallGroupsSumToZero(xs, std);
      }
    } else {
      SquareRootMonotone(1.0, root);
      OneSuccessStd(n, root, 1.0);
      LargeGroupsDoNotCancel(n, root, 1.0);
    }
  }

  // ---------------------------------------------------------------- the in-place update

  /** The fields of one turn sample that normalization reads and writes. */
  class ScoredTurn {
    const lossMask: seq<bool>
    var reward: real
    var rewardBaseline: real
    var advantage: seq<real>

    constructor (lossMask: seq<bool>)
      ensures this.lossMask == lossMask
    {
      this.lossMask := lossMask;
      reward, rewardBaseline, advantage := 0.0, 0.0, [];
    }

    /** The result's reward and baseline, and its advantage on every trainable token and zero elsewhere. */
    ghost predicate Normalized(score: real, mean: real, value: real)
      reads this
    {
      && reward == score && rewardBaseline == mean
      && |advantage| == |lossMask|
      && forall k :: 0 <= k < |lossMask| ==> advantage[k] == if lossMask[k] then value else 0.0
    }

    method Normalize(score: real, mean: real, value: real)
      modifies this
      ensures Normalized(score, mean, value)
    {
      reward, rewardBaseline := score, mean;
      advantage := seq(|lossMask|, k requires 0 <= k < |lossMask| => if lossMask[k] then value else 0.0);
    }
  }

  /** One rollout result with its metric's fields, its own and its turn samples. */
  class ScoredResult {
    const score: real
    const turns: seq<ScoredTurn>
    var scoreMean: real
    var scoreStd: real
    var reward: real
    var rewardBaseline: real
    var scalarAdvantage: real

    constructor (score: real, turns: seq<ScoredTurn>)
      ensures this.score == score && this.turns == turns
    {
      this.score, this.turns := score, turns;
      scoreMean, scoreStd, reward, rewardBaseline, scalarAdvantage := 0.0, 0.0, 0.0, 0.0, 0.0;
    }

    ghost predicate Measured(mean: real, std: real)
      reads this
    {
      scoreMean == mean && scoreStd == std
    }

    ghost predicate Normalized(mean: real, value: real)
      reads this, turns
    {
      && reward == score && rewardBaseline == mean && scalarAdvantage == value
      && forall turn <- turns :: turn.Normalized(score, mean, value)
    }

    method Normalize(mean: real, std: real)
      requires std >= 0.0
      modifies this`reward, this`rewardBaseline, this`scalarAdvantage, turns
      ensures Normalized(mean, Advantage(score, mean, std))
    {
      var value;
      if std < STD_FLOOR {
        value := 0.0;
      } else {
        value := Clip((score - mean) / (std + STD_EPSILON));
      }
      reward, rewardBaseline, scalarAdvantage := score, mean, value;
      for t := 0 to |turns|
        invariant reward == score && rewardBaseline == mean && scalarAdvantage == value
        invariant forall u :: 0 <= u < t ==> turns[u].Normalized(score, mean, value)
      {
        turns[t].Normalize(score, mean, value);
      }
    }
  }

  function Scores(group: seq<ScoredResult>): (scores: seq<real>)
    ensures |scores| == |group|
  {
    seq(|group|, i requires 0 <= i < |group| => group[i].score)
  }

  ghost function Turns(group: seq<ScoredResult>): set<ScoredTurn> {
    set result, turn | result in group && turn in result.turns :: turn
  }

  /** No two results of the group are the same object or share a turn sample. */
  ghost predicate Separate(group: seq<ScoredResult>) {
    forall i, j :: 0 <= i < j < |group| ==>
      group[i] != group[j] && forall turn <- group[i].turns :: turn !in group[j].turns
  }

  /** The advantages the results of a group hold. */
  ghost function Held(group: seq<ScoredResult>): (advantages: seq<real>)
    reads group
    ensures |advantages| == |group|
  {
    seq(|group|, i requires 0 <= i < |group| reads group => group[i].scalarAdvantage)
  }

  /**
   What the advantages held by a group tell about its scores: nothing below a deviation of 10^-8; above it, in groups of
   at most 26, they cancel, order the rollouts as the scores do and have variance 1 up to the added 10^-6.
   */
  ghost predicate HoldsFor(group: seq<ScoredResult>, std: real)
    reads group
  {
    && (std < 0.00000001 ==> forall result <- group :: result.scalarAdvantage == 0.0)
    && (std >= 0.00000001 && |group| <= 26 ==>
          && Sum(Held(group)) == 0.0
          && SumSquares(Held(group)) * ((std + 0.000001) * (std + 0.000001)) == (|group| - 1) as real * (std * std)
          && forall i, j :: 0 <= i < |group| && 0 <= j < |group| && group[i].score < group[j].score ==>
                              group[i].scalarAdvantage < group[j].scalarAdvantage)
  }

  lemma HeldAdvantages(group: seq<ScoredResult>, std: real)
    requires |group| > 1 && IsStd(Scores(group), std)
    requires forall i :: 0 <= i < |group| ==> group[i].scalarAdvantage == GroupAdvantages(Scores(group), std)[i]
    ensures HoldsFor(group, std)
  {
    hide Sum, SumSquares, GroupAdvantages;
    var scores := Scores(group);
    assert Held(group) == GroupAdvantages(scores, std);
    if std < 0.00000001 {
      FlatGroup(scores, std);
    } else if |scores| <= 26 {
      SmallGroupsSumToZero(scores, std);
      SmallGroupsUnitVariance(scores, std);
      forall i, j | 0 <= i < |group| && 0 <= j < |group| && group[i].score < group[j].score
        ensures group[i].scalarAdvantage < group[j].scalarAdvantage
      {
        HigherScoreHigherAdvantage(scores, std, i, j);
      }
    }
  }

  /** Every result of the group, and every turn sample of it, gets its own advantage; the deviation is supplied. */
  method NormalizeGroupRewards(group: seq<ScoredResult>, std: real)
    requires |group| > 1 && IsStd(Scores(group), std) && Separate(group)
    modifies group, Turns(group)
    ensures forall i :: 0 <= i < |group| ==>
      && group[i].Measured(Mean(Scores(group)), std)
      && group[i].Normalized(Mean(Scores(group)), GroupAdvantages(Scores(group), std)[i])
    ensures HoldsFor(group, std)
  {
    hide Sum, SumSquares, Mean, Deviations, Clip, Advantage, HoldsFor;
    var groupMean := Mean(Scores(group));
    for i := 0 to |group|
      invariant forall j :: 0 <= j < i ==> group[j].Measured(groupMean, std)
    {
      group[i].scoreMean, group[i].scoreStd := groupMean, std;
    }
    for i := 0 to |group|
      invariant forall j :: 0 <= j < |group| ==> group[j].Measured(groupMean, std)
      invariant forall j :: 0 <= j < i ==> group[j].Normalized(groupMean, Advantage(group[j].score, groupMean, std))
    {
      assert forall turn <- group[i].turns :: turn in Turns(group);
      group[i].Normalize(groupMean, std);
    }
    HeldAdvantages(group, std);
  }
}
