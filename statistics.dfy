/**
 * The statistics of the IPbus performance suite (ipbus_perf_suite.py, lines 366-440): the
 * mean and RMS of a sample, their bootstrap errors, and the per-x series that the plots draw.
 *
 * Arithmetic is exact (real). math.sqrt is the parameter `sqrt`, about which nothing is
 * assumed unless a lemma says so; the properties are stated about the quantity under the
 * root. The indices random.randint would draw are the parameter `draws`: one list of n
 * indices in [0, n - 1] per bootstrap resample. A ZeroDivisionError is reported as None.
 */
module Statistics {
  import opened Wrappers

  /** The number of bootstrap resamples (`for i in range(100)`). */
  const BootstrapResamples: nat := 100

  function Sum(s: seq<real>): real
  {
    if s == [] then 0.0 else Sum(s[..|s| - 1]) + s[|s| - 1]
  }

  function SumSq(s: seq<real>): real
  {
    if s == [] then 0.0 else SumSq(s[..|s| - 1]) + s[|s| - 1] * s[|s| - 1]
  }

  /** The sum of squared deviations from m. */
  function SumSqDev(s: seq<real>, m: real): real
  {
    if s == [] then 0.0 else SumSqDev(s[..|s| - 1], m) + (s[|s| - 1] - m) * (s[|s| - 1] - m)
  }

  /** numpy.mean of a non-empty list. */
  function Mean(s: seq<real>): real
    requires |s| > 0
  {
    Sum(s) / |s| as real
  }

  /** The quantity under the root in calc_rms: the mean squared deviation from the mean. */
  function Variance(s: seq<real>): real
    requires |s| > 0
  {
    SumSqDev(s, Mean(s)) / |s| as real
  }

  /** calc_rms, lines 411-414; None is the ZeroDivisionError of an empty list. */
  function Rms(s: seq<real>, sqrt: real -> real): (r: Option<real>)
    ensures r.Some? <==> |s| > 0
    ensures r.Some? ==> r.value == sqrt(Variance(s)) && Variance(s) >= 0.0
  {
    if s == [] then None
    else
      VarianceNonNegative(s);
      Some(sqrt(Variance(s)))
  }

  lemma {:induction false} SumSqDevNonNegative(s: seq<real>, m: real)
    ensures SumSqDev(s, m) >= 0.0
    decreases |s|
  {
    if s != [] {
      SumSqDevNonNegative(s[..|s| - 1], m);
      var d := s[|s| - 1] - m;
      assert d * d >= 0.0;
    }
  }

  /** The radicand of calc_rms is never negative, so math.sqrt never rejects it. */
  lemma VarianceNonNegative(s: seq<real>)
    requires |s| > 0
    ensures Variance(s) >= 0.0
  {
    SumSqDevNonNegative(s, Mean(s));
  }

  /**
   * The sum of squared deviations expands as SumSq - 2 m Sum + n m m; d, q, t and n name
   * SumSqDev(s, m), SumSq(s), Sum(s) and |s|.
   */
  lemma {:induction false} SumSqDevExpand(s: seq<real>, m: real, d: real, q: real, t: real, n: real)
    requires d == SumSqDev(s, m) && q == SumSq(s) && t == Sum(s) && n == |s| as real
    ensures d == q - 2.0 * m * t + n * m * m
    decreases |s|
  {
    if s != [] {
      var init, y := s[..|s| - 1], s[|s| - 1];
      var d0, q0, t0, n0 := SumSqDev(init, m), SumSq(init), Sum(init), |init| as real;
      SumSqDevExpand(init, m, d0, q0, t0, n0);
      ExpandAlgebra(d0, q0, t0, n0, m, y, d, q, t, n);
    }
  }

  /** One step of SumSqDevExpand, on plain numbers. */
  lemma ExpandAlgebra(d: real, q: real, a: real, n: real, m: real, y: real, d': real, q': real, a': real, n': real)
    requires d == q - 2.0 * m * a + n * m * m
    requires d' == d + (y - m) * (y - m) && q' == q + y * y && a' == a + y && n' == n + 1.0
    ensures d' == q' - 2.0 * m * a' + n' * m * m
  {
    assert (y - m) * (y - m) == y * y - 2.0 * m * y + m * m;
    assert 2.0 * m * (a + y) == 2.0 * m * a + 2.0 * m * y;
    assert (n + 1.0) * m * m == n * m * m + m * m;
  }

  /** The algebra behind VarianceBySums, on plain numbers. */
  lemma MeanSquareAlgebra(v: real, d: real, q: real, t: real, n: real, m: real)
    requires n > 0.0 && m == t / n
    requires d == q - 2.0 * m * t + n * m * m && v == d / n
    ensures v == q / n - m * m
  {
    assert t == n * m;
    assert d == q - n * (m * m);
    assert (q - n * (m * m)) / n == q / n - m * m;
  }

  /*
   * The *Named lemmas take each sum as a plain variable tied to its function by a requires, so
   * the nonlinear real arithmetic of the algebra lemmas never sees the recursive definitions
   * (which otherwise makes the solver unfold them and exceed its resource budget).
   */

  /** VarianceBySums with Variance, SumSqDev, SumSq, Sum, |s| and Mean named v, d, q, t, n and m. */
  lemma VarianceBySumsNamed(s: seq<real>, v: real, d: real, q: real, t: real, n: real, m: real)
    requires |s| > 0
    requires v == Variance(s) && d == SumSqDev(s, Mean(s)) && q == SumSq(s) && t == Sum(s)
    requires n == |s| as real && m == Mean(s)
    ensures v == q / n - m * m
  {
    SumSqDevExpand(s, m, d, q, t, n);
    MeanNamed(s, m, t, n);
    VarianceNamed(s, v, d, n, m);
    MeanSquareAlgebra(v, d, q, t, n, m);
  }

  /** Mean(s) is Sum(s) / |s|, on the named values. */
  lemma MeanNamed(s: seq<real>, m: real, t: real, n: real)
    requires |s| > 0 && m == Mean(s) && t == Sum(s) && n == |s| as real
    ensures n > 0.0 && m == t / n
  {
  }

  /** Variance(s) is SumSqDev(s, Mean(s)) / |s|, on the named values. */
  lemma VarianceNamed(s: seq<real>, v: real, d: real, n: real, m: real)
    requires |s| > 0 && v == Variance(s) && d == SumSqDev(s, m) && m == Mean(s) && n == |s| as real
    ensures v == d / n
  {
  }

  /** SumsRadicand(s) is SumSq(s) / |s| - Mean(s)^2, on the named values. */
  lemma SumsRadicandNamed(s: seq<real>, r: real, q: real, n: real, m: real)
    requires |s| > 0
    requires r == SumsRadicand(s) && q == SumSq(s) && n == |s| as real && m == Mean(s)
    ensures r == q / n - m * m
  {
  }

  /**
   * The bootstrap loop of calc_rms_with_error computes the radicand as sum2/n - mean*mean;
   * in exact arithmetic that is the same quantity calc_rms takes the root of.
   */
  lemma VarianceBySums(s: seq<real>)
    requires |s| > 0
    ensures Variance(s) == SumsRadicand(s)
  {
    var v, d, q, t, n, m := Variance(s), SumSqDev(s, Mean(s)), SumSq(s), Sum(s), |s| as real, Mean(s);
    var r := SumsRadicand(s);
    VarianceBySumsNamed(s, v, d, q, t, n, m);
    SumsRadicandNamed(s, r, q, n, m);
  }

  lemma {:induction false} ConstantSum(s: seq<real>, c: real)
    requires forall i :: 0 <= i < |s| ==> s[i] == c
    ensures Sum(s) == (|s| as real) * c
    ensures SumSqDev(s, c) == 0.0
    decreases |s|
  {
    if s != [] {
      ConstantSum(s[..|s| - 1], c);
    }
  }

  /** A sample whose values are all c has mean c and radicand 0. */
  lemma ConstantMeanVariance(s: seq<real>, c: real)
    requires |s| > 0
    requires forall i :: 0 <= i < |s| ==> s[i] == c
    ensures Mean(s) == c && Variance(s) == 0.0
  {
    ConstantSum(s, c);
    assert Sum(s) / (|s| as real) == c;
  }

  /** A constant sample has calc_rms equal to sqrt(0), which math.sqrt makes 0. */
  lemma ConstantSampleRms(s: seq<real>, c: real, sqrt: real -> real)
    requires |s| > 0 && sqrt(0.0) == 0.0
    requires forall i :: 0 <= i < |s| ==> s[i] == c
    ensures Rms(s, sqrt) == Some(0.0)
  {
    ConstantMeanVariance(s, c);
  }

  // ---------------------------------------------------------------------------------------
  // Minimum and maximum, as the loop of calc_rms_with_error tracks them

  function MinOf(s: seq<real>): real
    requires |s| > 0
  {
    if |s| == 1 then s[0]
    else var m := MinOf(s[..|s| - 1]); if s[|s| - 1] < m then s[|s| - 1] else m
  }

  function MaxOf(s: seq<real>): real
    requires |s| > 0
  {
    if |s| == 1 then s[0]
    else var m := MaxOf(s[..|s| - 1]); if s[|s| - 1] > m then s[|s| - 1] else m
  }

  lemma {:induction false} MinMaxBound(s: seq<real>)
    requires |s| > 0
    ensures forall i :: 0 <= i < |s| ==> MinOf(s) <= s[i] <= MaxOf(s)
    decreases |s|
  {
    if |s| > 1 {
      MinMaxBound(s[..|s| - 1]);
      assert forall i :: 0 <= i < |s| - 1 ==> s[..|s| - 1][i] == s[i];
    }
  }

  /** The minimum equals the maximum exactly when every value is the same. */
  lemma MinEqualsMaxIff(s: seq<real>)
    requires |s| > 0
    ensures MinOf(s) == MaxOf(s) <==> forall i :: 0 <= i < |s| ==> s[i] == s[0]
  {
    MinMaxBound(s);
    if forall i :: 0 <= i < |s| ==> s[i] == s[0] {
      MinMaxAttained(s);
    }
  }

  lemma {:induction false} MinMaxAttained(s: seq<real>)
    requires |s| > 0
    ensures exists i :: 0 <= i < |s| && s[i] == MinOf(s)
    ensures exists i :: 0 <= i < |s| && s[i] == MaxOf(s)
    decreases |s|
  {
    if |s| > 1 {
      MinMaxAttained(s[..|s| - 1]);
      var i :| 0 <= i < |s| - 1 && s[..|s| - 1][i] == MinOf(s[..|s| - 1]);
      var j :| 0 <= j < |s| - 1 && s[..|s| - 1][j] == MaxOf(s[..|s| - 1]);
      assert s[i] == s[..|s| - 1][i] && s[j] == s[..|s| - 1][j];
    } else {
      assert s[0] == MinOf(s);
    }
  }

  // ---------------------------------------------------------------------------------------
  // Bootstrap resampling

  predicate IndicesBelow(ix: seq<nat>, n: nat)
  {
    forall k :: 0 <= k < |ix| ==> ix[k] < n
  }

  /** What randint(0, n-1) supplies: 100 resamples of n indices each, all in range. */
  predicate ValidDraws(draws: seq<seq<nat>>, n: nat)
  {
    |draws| == BootstrapResamples &&
    forall i :: 0 <= i < |draws| ==> |draws[i]| == n && IndicesBelow(draws[i], n)
  }

  /** The resample that one row of indices picks out of the data. */
  function Resample(data: seq<real>, ix: seq<nat>): (r: seq<real>)
    requires IndicesBelow(ix, |data|)
    ensures |r| == |ix| && forall k :: 0 <= k < |ix| ==> r[k] == data[ix[k]]
  {
    if ix == [] then [] else Resample(data, ix[..|ix| - 1]) + [data[ix[|ix| - 1]]]
  }

  lemma ResampleOfConstant(data: seq<real>, ix: seq<nat>, c: real)
    requires IndicesBelow(ix, |data|)
    requires forall i :: 0 <= i < |data| ==> data[i] == c
    ensures forall k :: 0 <= k < |ix| ==> Resample(data, ix)[k] == c
  {
  }

  /** Lines 402-405: the mean of one resample, its sum divided by n. */
  function ResampleMean(data: seq<real>, ix: seq<nat>): real
    requires |data| > 0 && IndicesBelow(ix, |data|)
  {
    Sum(Resample(data, ix)) / |data| as real
  }

  function BootstrapMeans(data: seq<real>, draws: seq<seq<nat>>): (r: seq<real>)
    requires |data| > 0 && ValidDraws(draws, |data|)
    ensures |r| == BootstrapResamples
  {
    seq(|draws|, i requires 0 <= i < |draws| => ResampleMean(data, draws[i]))
  }

  /** calc_mean_with_error, lines 397-408: the mean, and the RMS of the 100 resample means. */
  function MeanWithErrorSpec(data: seq<real>, draws: seq<seq<nat>>, sqrt: real -> real): Option<(real, real)>
    requires ValidDraws(draws, |data|)
  {
    if |data| == 0 then None
    else Some((Mean(data), Rms(BootstrapMeans(data, draws), sqrt).value))
  }

  method MeanWithError(data: seq<real>, draws: seq<seq<nat>>, sqrt: real -> real) returns (r: Option<(real, real)>)
    requires ValidDraws(draws, |data|)
    ensures r == MeanWithErrorSpec(data, draws, sqrt)
  {
    var n := |data|;
    var means: seq<real> := [];
    for i := 0 to BootstrapResamples
      invariant |means| == i
      invariant n > 0 ==> forall j :: 0 <= j < i ==> means[j] == ResampleMean(data, draws[j])
    {
      ghost var picked := Resample(data, draws[i]);
      var sum := 0.0;
      for k := 0 to n
        invariant sum == Sum(picked[..k])
      {
        assert picked[..k + 1][..k] == picked[..k];
        sum := sum + data[draws[i][k]];
      }
      if n == 0 {
        return None;
      }
      assert picked[..n] == picked;
      means := means + [sum / n as real];
    }
    if n == 0 {
      return None;
    }
    assert means == BootstrapMeans(data, draws);
    r := Some((Mean(data), Rms(means, sqrt).value));
  }

  /** Line 438: the radicand of one bootstrap RMS, computed from the running sums. */
  function SumsRadicand(s: seq<real>): real
    requires |s| > 0
  {
    SumSq(s) / (|s| as real) - Mean(s) * Mean(s)
  }

  /**
   * Lines 421-438: one bootstrap RMS. A resample whose minimum equals its maximum gives 0.0;
   * any other gives the root of sum2/n - mean*mean.
   */
  function ResampleRms(data: seq<real>, ix: seq<nat>, sqrt: real -> real): real
    requires |data| > 0 && |ix| == |data| && IndicesBelow(ix, |data|)
  {
    var picked := Resample(data, ix);
    if MinOf(picked) == MaxOf(picked) then 0.0 else sqrt(SumsRadicand(picked))
  }

  function BootstrapRms(data: seq<real>, draws: seq<seq<nat>>, sqrt: real -> real): (r: seq<real>)
    requires |data| > 0 && ValidDraws(draws, |data|)
    ensures |r| == BootstrapResamples
  {
    seq(|draws|, i requires 0 <= i < |draws| => ResampleRms(data, draws[i], sqrt))
  }

  /** calc_rms_with_error, lines 416-440: calc_rms, and the RMS of the 100 resample RMS values. */
  function RmsWithErrorSpec(data: seq<real>, draws: seq<seq<nat>>, sqrt: real -> real): Option<(real, real)>
    requires ValidDraws(draws, |data|)
  {
    if |data| == 0 then None
    else Some((Rms(data, sqrt).value, Rms(BootstrapRms(data, draws, sqrt), sqrt).value))
  }

  /**
   * The radicand of a bootstrap RMS is the resample's own calc_rms radicand, hence never
   * negative, and it is 0 when the minimum equals the maximum: the guard at line 435 only
   * replaces sqrt(0) by 0.0, so with sqrt(0) = 0 a bootstrap RMS is calc_rms of its resample.
   */
  lemma ResampleRmsIsRms(data: seq<real>, ix: seq<nat>, sqrt: real -> real)
    requires |data| > 0 && |ix| == |data| && IndicesBelow(ix, |data|)
    ensures SumsRadicand(Resample(data, ix)) == Variance(Resample(data, ix)) >= 0.0
    ensures MinOf(Resample(data, ix)) == MaxOf(Resample(data, ix)) ==> Variance(Resample(data, ix)) == 0.0
    ensures sqrt(0.0) == 0.0 ==> ResampleRms(data, ix, sqrt) == Rms(Resample(data, ix), sqrt).value
  {
    var picked := Resample(data, ix);
    VarianceBySums(picked);
    VarianceNonNegative(picked);
    if MinOf(picked) == MaxOf(picked) {
      MinEqualsMaxIff(picked);
      ConstantMeanVariance(picked, picked[0]);
    }
  }

  /** The inner loop of calc_rms_with_error (lines 424-433): the sums, minimum and maximum of one resample. */
  method ResampleSums(data: seq<real>, ix: seq<nat>) returns (sum: real, sum2: real, mn: real, mx: real)
    requires IndicesBelow(ix, |data|)
    ensures sum == Sum(Resample(data, ix)) && sum2 == SumSq(Resample(data, ix))
    ensures |ix| > 0 ==> mn == MinOf(Resample(data, ix)) && mx == MaxOf(Resample(data, ix))
  {
    ghost var picked := Resample(data, ix);
    mn, mx := 0.0, 0.0;
    sum, sum2 := 0.0, 0.0;
    for j := 0 to |ix|
      invariant sum == Sum(picked[..j]) && sum2 == SumSq(picked[..j])
      invariant j > 0 ==> mn == MinOf(picked[..j]) && mx == MaxOf(picked[..j]) && mn <= mx
    {
      assert picked[..j + 1][..j] == picked[..j];
      var val := data[ix[j]];
      sum := sum + val;
      sum2 := sum2 + val * val;
      if j == 0 {
        mn, mx := val, val;
      } else if val < mn {
        mn := val;
      } else if val > mx {
        mx := val;
      }
    }
    assert picked[..|ix|] == picked;
  }

  /** sum2/n - mean*mean with mean = sum/n, from the running sums, is SumsRadicand. */
  lemma RadicandFromSums(s: seq<real>, sum: real, sum2: real, n: real, mean: real, r: real)
    requires |s| > 0 && sum == Sum(s) && sum2 == SumSq(s) && n == |s| as real && mean == sum / n
    requires r == sum2 / n - mean * mean
    ensures r == SumsRadicand(s)
  {
    var r', m := SumsRadicand(s), Mean(s);
    SumsRadicandNamed(s, r', sum2, n, m);
    MeanNamed(s, m, sum, n);
  }

  /** What one pass of the outer loop of calc_rms_with_error appends is ResampleRms. */
  lemma BootstrapRmsValue(data: seq<real>, ix: seq<nat>, sqrt: real -> real, sum: real, sum2: real,
                          mn: real, mx: real, n: real, mean: real, r: real, value: real)
    requires |data| > 0 && |ix| == |data| && IndicesBelow(ix, |data|) && n == |data| as real
    requires sum == Sum(Resample(data, ix)) && sum2 == SumSq(Resample(data, ix))
    requires mn == MinOf(Resample(data, ix)) && mx == MaxOf(Resample(data, ix))
    requires mean == sum / n && r == sum2 / n - mean * mean
    requires value == if mn == mx then 0.0 else sqrt(r)
    ensures value == ResampleRms(data, ix, sqrt)
  {
    var picked := Resample(data, ix);
    RadicandFromSums(picked, sum, sum2, n, mean, r);
    RmsFromRadicand(data, ix, sqrt, mn, mx, r, value);
  }

  lemma RmsFromRadicand(data: seq<real>, ix: seq<nat>, sqrt: real -> real, mn: real, mx: real, r: real, value: real)
    requires |data| > 0 && |ix| == |data| && IndicesBelow(ix, |data|)
    requires mn == MinOf(Resample(data, ix)) && mx == MaxOf(Resample(data, ix))
    requires r == SumsRadicand(Resample(data, ix))
    requires value == if mn == mx then 0.0 else sqrt(r)
    ensures value == ResampleRms(data, ix, sqrt)
  {
  }

  method RmsWithError(data: seq<real>, draws: seq<seq<nat>>, sqrt: real -> real) returns (r: Option<(real, real)>)
    requires ValidDraws(draws, |data|)
    ensures r == RmsWithErrorSpec(data, draws, sqrt)
  {
    var rms := Rms(data, sqrt);
    var n := |data|;
    var rmsValues: seq<real> := [];
    for i := 0 to BootstrapResamples
      invariant |rmsValues| == i
      invariant n > 0 ==> forall j :: 0 <= j < i ==> rmsValues[j] == ResampleRms(data, draws[j], sqrt)
    {
      assert |draws[i]| == n && IndicesBelow(draws[i], n);
      var sum, sum2, mn, mx := ResampleSums(data, draws[i]);
      if n == 0 {
        return None;
      }
      var count := n as real;
      var mean := sum / count;
      var radicand := sum2 / count - mean * mean;
      var value;
      if mn == mx {
        value := 0.0;
      } else {
        value := sqrt(radicand);
      }
      BootstrapRmsValue(data, draws[i], sqrt, sum, sum2, mn, mx, count, mean, radicand, value);
      rmsValues := rmsValues + [value];
    }
    if n == 0 {
      return None;
    }
    assert rmsValues == BootstrapRms(data, draws, sqrt);
    r := Some((rms.value, Rms(rmsValues, sqrt).value));
  }

  /**
   * A constant sample: calc_mean_with_error gives (c, 0) and calc_rms_with_error gives (0, 0)
   * whatever indices are drawn, with sqrt(0) = 0.
   */
  lemma ConstantSampleErrors(data: seq<real>, c: real, meanDraws: seq<seq<nat>>, rmsDraws: seq<seq<nat>>,
                             sqrt: real -> real)
    requires |data| > 0 && sqrt(0.0) == 0.0
    requires forall i :: 0 <= i < |data| ==> data[i] == c
    requires ValidDraws(meanDraws, |data|) && ValidDraws(rmsDraws, |data|)
    ensures MeanWithErrorSpec(data, meanDraws, sqrt) == Some((c, 0.0))
    ensures RmsWithErrorSpec(data, rmsDraws, sqrt) == Some((0.0, 0.0))
  {
    ConstantMeanVariance(data, c);
    var means := BootstrapMeans(data, meanDraws);
    forall i | 0 <= i < |means| ensures means[i] == c {
      var picked := Resample(data, meanDraws[i]);
      ResampleOfConstant(data, meanDraws[i], c);
      ConstantMeanVariance(picked, c);
      assert Sum(picked) / (|picked| as real) == c;
    }
    ConstantSampleRms(means, c, sqrt);
    var rmsValues := BootstrapRms(data, rmsDraws, sqrt);
    forall i | 0 <= i < |rmsValues| ensures rmsValues[i] == 0.0 {
      var picked := Resample(data, rmsDraws[i]);
      ResampleOfConstant(data, rmsDraws[i], c);
      MinEqualsMaxIff(picked);
      ResampleRmsIsRms(data, rmsDraws[i], sqrt);
    }
    ConstantSampleRms(rmsValues, 0.0, sqrt);
    ConstantSampleRms(data, c, sqrt);
  }

  // ---------------------------------------------------------------------------------------
  // calc_y_stats and DataseriesStats

  /** The indices drawn for one x: first by calc_mean_with_error, then by calc_rms_with_error. */
  datatype Draws = Draws(forMean: seq<seq<nat>>, forRms: seq<seq<nat>>)

  predicate ValidDrawsFor(data: map<int, seq<real>>, draws: map<int, Draws>)
  {
    forall x :: x in data ==>
      x in draws && ValidDraws(draws[x].forMean, |data[x]|) && ValidDraws(draws[x].forRms, |data[x]|)
  }

  /** What lines 386-393 append for one x: the mean with its error, and rms and its error relative to the mean. */
  datatype KeyStats = KeyStats(mean: real, meanErr: real, rmsRel: real, rmsErrRel: real)

  /**
   * One x of calc_y_stats. None for an empty sample (ZeroDivisionError), and for a zero mean,
   * where numpy's division returns a non-finite value that has no counterpart in `real`.
   */
  function KeyStatsOf(ys: seq<real>, d: Draws, sqrt: real -> real): (r: Option<KeyStats>)
    requires ValidDraws(d.forMean, |ys|) && ValidDraws(d.forRms, |ys|)
    ensures r.Some? <==> |ys| > 0 && Mean(ys) != 0.0
  {
    match MeanWithErrorSpec(ys, d.forMean, sqrt)
    case None => None
    case Some(me) =>
      match RmsWithErrorSpec(ys, d.forRms, sqrt)
      case None => None
      case Some(re) =>
        if me.0 == 0.0 then None
        else Some(KeyStats(me.0, me.1, re.0 / me.0, re.1 / me.0))
  }

  /**
   * The entries for one x: the mean and its bootstrap error as calc_mean_with_error returns
   * them, and calc_rms and its error each divided by that mean.
   */
  lemma KeyStatsRelative(ys: seq<real>, d: Draws, sqrt: real -> real)
    requires ValidDraws(d.forMean, |ys|) && ValidDraws(d.forRms, |ys|)
    requires |ys| > 0 && Mean(ys) != 0.0
    ensures var st := KeyStatsOf(ys, d, sqrt).value;
      && st.mean == Mean(ys)
      && st.meanErr == MeanWithErrorSpec(ys, d.forMean, sqrt).value.1
      && st.rmsRel * st.mean == Rms(ys, sqrt).value
      && st.rmsErrRel * st.mean == RmsWithErrorSpec(ys, d.forRms, sqrt).value.1
  {
    var m := Mean(ys);
    var re := RmsWithErrorSpec(ys, d.forRms, sqrt).value;
    assert (re.0 / m) * m == re.0;
    assert (re.1 / m) * m == re.1;
  }

  /** KeyStatsOf from what the two calls of one loop pass return. */
  lemma KeyStatsFromCalls(ys: seq<real>, d: Draws, sqrt: real -> real, me: Option<(real, real)>, re: Option<(real, real)>)
    requires ValidDraws(d.forMean, |ys|) && ValidDraws(d.forRms, |ys|)
    requires me == MeanWithErrorSpec(ys, d.forMean, sqrt) && re == RmsWithErrorSpec(ys, d.forRms, sqrt)
    ensures KeyStatsOf(ys, d, sqrt) ==
      if me.None? || re.None? || me.value.0 == 0.0 then None
      else Some(KeyStats(me.value.0, me.value.1, re.value.0 / me.value.0, re.value.1 / me.value.0))
  {
  }

  /** The results for the given keys in order, or None once one of them raises. */
  function KeyStatsList(keys: seq<int>, data: map<int, seq<real>>, draws: map<int, Draws>, sqrt: real -> real)
      : Option<seq<KeyStats>>
    requires forall k :: 0 <= k < |keys| ==> keys[k] in data
    requires ValidDrawsFor(data, draws)
  {
    if keys == [] then Some([])
    else
      var last := keys[|keys| - 1];
      match KeyStatsList(keys[..|keys| - 1], data, draws, sqrt)
      case None => None
      case Some(done) =>
        match KeyStatsOf(data[last], draws[last], sqrt)
        case None => None
        case Some(st) => Some(done + [st])
  }

  /** True when every x of the series has a defined KeyStatsOf. */
  predicate AllKeysDefined(keys: seq<int>, data: map<int, seq<real>>, draws: map<int, Draws>, sqrt: real -> real)
    requires forall k :: 0 <= k < |keys| ==> keys[k] in data
    requires ValidDrawsFor(data, draws)
  {
    forall k :: 0 <= k < |keys| ==>
      var x := keys[k]; KeyStatsOf(data[x], draws[x], sqrt).Some?
  }

  /** The loop raises exactly when some key raises. */
  lemma {:induction false} KeyStatsListDefined(keys: seq<int>, data: map<int, seq<real>>, draws: map<int, Draws>,
                                               sqrt: real -> real)
    requires forall k :: 0 <= k < |keys| ==> keys[k] in data
    requires ValidDrawsFor(data, draws)
    ensures KeyStatsList(keys, data, draws, sqrt).Some? <==> AllKeysDefined(keys, data, draws, sqrt)
    decreases |keys|
  {
    if keys != [] {
      var init := keys[..|keys| - 1];
      assert forall k :: 0 <= k < |init| ==> init[k] == keys[k];
      KeyStatsListDefined(init, data, draws, sqrt);
    }
  }

  /** When it does not raise, it has one result per key, in key order. */
  lemma {:induction false} KeyStatsListEntries(keys: seq<int>, data: map<int, seq<real>>, draws: map<int, Draws>,
                                               sqrt: real -> real)
    requires forall k :: 0 <= k < |keys| ==> keys[k] in data
    requires ValidDrawsFor(data, draws)
    requires KeyStatsList(keys, data, draws, sqrt).Some?
    ensures var done := KeyStatsList(keys, data, draws, sqrt).value;
      && |done| == |keys|
      && forall k :: 0 <= k < |keys| ==>
        var x := keys[k]; Some(done[k]) == KeyStatsOf(data[x], draws[x], sqrt)
    decreases |keys|
  {
    if keys != [] {
      var init := keys[..|keys| - 1];
      assert forall k :: 0 <= k < |init| ==> init[k] == keys[k];
      KeyStatsListEntries(init, data, draws, sqrt);
    }
  }

  /** One pass of the loop of calc_y_stats: key i either raises, and so does the whole loop, or adds one result. */
  lemma KeyStatsListStep(keys: seq<int>, i: nat, data: map<int, seq<real>>, draws: map<int, Draws>,
                         sqrt: real -> real, done: seq<KeyStats>, st: Option<KeyStats>)
    requires forall k :: 0 <= k < |keys| ==> keys[k] in data
    requires ValidDrawsFor(data, draws) && i < |keys|
    requires KeyStatsList(keys[..i], data, draws, sqrt) == Some(done)
    requires var x := keys[i]; st == KeyStatsOf(data[x], draws[x], sqrt)
    ensures st.None? ==> KeyStatsList(keys, data, draws, sqrt).None?
    ensures st.Some? ==> KeyStatsList(keys[..i + 1], data, draws, sqrt) == Some(done + [st.value])
  {
    assert keys[..i + 1][..i] == keys[..i];
    if st.None? {
      KeyStatsListNoneStaysNone(keys, i + 1, data, draws, sqrt);
    }
  }

  /** Once a key fails, calc_y_stats has raised: no longer key list gives a result. */
  lemma {:induction false} KeyStatsListNoneStaysNone(keys: seq<int>, i: nat, data: map<int, seq<real>>,
                                                     draws: map<int, Draws>, sqrt: real -> real)
    requires forall k :: 0 <= k < |keys| ==> keys[k] in data
    requires ValidDrawsFor(data, draws)
    requires i <= |keys| && KeyStatsList(keys[..i], data, draws, sqrt).None?
    ensures KeyStatsList(keys, data, draws, sqrt).None?
    decreases |keys| - i
  {
    if i < |keys| {
      assert keys[..i + 1][..i] == keys[..i];
      KeyStatsListNoneStaysNone(keys, i + 1, data, draws, sqrt);
    } else {
      assert keys[..i] == keys;
    }
  }

  /** The six lists of a DataseriesStats, as values. */
  datatype SeriesRows = SeriesRows(mean: seq<real>, meanErrLo: seq<real>, meanErrHi: seq<real>,
                                   rms: seq<real>, rmsErrLo: seq<real>, rmsErrHi: seq<real>)

  function AppendKey(rows: SeriesRows, st: KeyStats): SeriesRows
  {
    SeriesRows(rows.mean + [st.mean], rows.meanErrLo + [st.meanErr], rows.meanErrHi + [st.meanErr],
               rows.rms + [st.rmsRel], rows.rmsErrLo + [st.rmsErrRel], rows.rmsErrHi + [st.rmsErrRel])
  }

  /** The lists after appending the given results in order to empty lists. */
  function RowsOf(stats: seq<KeyStats>): SeriesRows
  {
    if stats == [] then SeriesRows([], [], [], [], [], [])
    else AppendKey(RowsOf(stats[..|stats| - 1]), stats[|stats| - 1])
  }

  lemma RowsOfAppend(stats: seq<KeyStats>, st: KeyStats)
    ensures RowsOf(stats + [st]) == AppendKey(RowsOf(stats), st)
  {
    assert (stats + [st])[..|stats|] == stats;
  }

  /** All six lists have n entries. */
  predicate WellShaped(rows: SeriesRows, n: nat)
  {
    && |rows.mean| == |rows.meanErrLo| == |rows.meanErrHi| == n
    && |rows.rms| == |rows.rmsErrLo| == |rows.rmsErrHi| == n
  }

  /** Entry k of every list is taken from st; the lower and upper errors are the same value. */
  predicate RowMatches(rows: SeriesRows, k: nat, st: KeyStats)
    requires WellShaped(rows, |rows.mean|) && k < |rows.mean|
  {
    && rows.mean[k] == st.mean
    && rows.meanErrLo[k] == st.meanErr && rows.meanErrHi[k] == st.meanErr
    && rows.rms[k] == st.rmsRel
    && rows.rmsErrLo[k] == st.rmsErrRel && rows.rmsErrHi[k] == st.rmsErrRel
  }

  /** Each list gets one entry per result, in order, with equal lower and upper errors. */
  lemma {:induction false} RowsOfShape(stats: seq<KeyStats>)
    ensures WellShaped(RowsOf(stats), |stats|)
    ensures forall k :: 0 <= k < |stats| ==> RowMatches(RowsOf(stats), k, stats[k])
    decreases |stats|
  {
    if stats != [] {
      var init := stats[..|stats| - 1];
      RowsOfShape(init);
      assert forall k :: 0 <= k < |init| ==> init[k] == stats[k];
    }
  }

  predicate Ascending(r: seq<int>)
  {
    forall i, j :: 0 <= i < j < |r| ==> r[i] < r[j]
  }

  /** The keys of a map in ascending order (sorted(data_dict.keys())). */
  function SortedKeys(ks: set<int>): (r: seq<int>)
    ensures |r| == |ks|
    ensures forall k :: k in ks <==> k in r
    ensures Ascending(r)
    decreases |ks|
  {
    if ks == {} then []
    else
      assert SetMin(ks) in ks && forall k :: k in ks ==> SetMin(ks) <= k;
      var m :| m in ks && forall k :: k in ks ==> m <= k;
      var rest := SortedKeys(ks - {m});
      PrependMinimum(ks, m, rest);
      [m] + rest
  }

  /** Putting the minimum in front of the sorted remainder sorts the whole set. */
  lemma PrependMinimum(ks: set<int>, m: int, rest: seq<int>)
    requires m in ks && forall k :: k in ks ==> m <= k
    requires |rest| == |ks - {m}| && (forall k :: k in ks - {m} <==> k in rest) && Ascending(rest)
    ensures |[m] + rest| == |ks| && (forall k :: k in ks <==> k in [m] + rest) && Ascending([m] + rest)
  {
    var r := [m] + rest;
    assert |ks - {m}| == |ks| - 1;
    forall k ensures k in ks <==> k in r {
      assert k in r <==> k == m || k in rest;
    }
    forall i, j | 0 <= i < j < |r| ensures r[i] < r[j] {
      assert r[j] == rest[j - 1];
      if i > 0 {
        assert r[i] == rest[i - 1];
      } else {
        assert rest[j - 1] in ks - {m};
      }
    }
  }

  /** Some element of a non-empty set. */
  ghost function Pick<T>(ks: set<T>): (x: T)
    requires ks != {}
    ensures x in ks
  {
    var x :| x in ks;
    x
  }

  /** The least element of a non-empty set. */
  ghost function SetMin(ks: set<int>): (m: int)
    requires ks != {}
    ensures m in ks && forall k :: k in ks ==> m <= k
    decreases |ks|
  {
    var x := Pick(ks);
    var rest := ks - {x};
    if rest == {} then
      assert forall k :: k in ks ==> k == x by {
        forall k | k in ks ensures k == x { assert k !in rest; }
      }
      x
    else
      assert |rest| < |ks| by { assert |rest| == |ks| - 1; }
      var y := SetMin(rest);
      assert forall k :: k in ks ==> k == x || k in rest;
      if x < y then x else y
  }

  /** calc_y_stats as a value: the loop over the keys of data_dict in ascending order. */
  function YStats(data: map<int, seq<real>>, draws: map<int, Draws>, sqrt: real -> real): Option<SeriesRows>
    requires ValidDrawsFor(data, draws)
  {
    match KeyStatsList(SortedKeys(data.Keys), data, draws, sqrt)
    case None => None
    case Some(done) => Some(RowsOf(done))
  }

  /** Over keys that list the whole map: the loop raises exactly when some sample is empty or has mean 0. */
  lemma KeysDefinedIff(keys: seq<int>, data: map<int, seq<real>>, draws: map<int, Draws>, sqrt: real -> real)
    requires forall k :: 0 <= k < |keys| ==> keys[k] in data
    requires forall x :: x in data ==> x in keys
    requires ValidDrawsFor(data, draws)
    ensures KeyStatsList(keys, data, draws, sqrt).Some? <==>
      forall x :: x in data ==> |data[x]| > 0 && Mean(data[x]) != 0.0
  {
    KeyStatsListDefined(keys, data, draws, sqrt);
    if forall x :: x in data ==> |data[x]| > 0 && Mean(data[x]) != 0.0 {
      assert AllKeysDefined(keys, data, draws, sqrt) by {
        forall k | 0 <= k < |keys| ensures KeyStatsOf(data[keys[k]], draws[keys[k]], sqrt).Some? {
          assert keys[k] in data;
        }
      }
    } else {
      var x :| x in data && !(|data[x]| > 0 && Mean(data[x]) != 0.0);
      var k :| 0 <= k < |keys| && keys[k] == x;
      assert !KeyStatsOf(data[keys[k]], draws[keys[k]], sqrt).Some?;
    }
  }

  /** calc_y_stats succeeds exactly when every sample is non-empty with a non-zero mean. */
  lemma YStatsDefined(data: map<int, seq<real>>, draws: map<int, Draws>, sqrt: real -> real)
    requires ValidDrawsFor(data, draws)
    ensures YStats(data, draws, sqrt).Some? <==> forall x :: x in data ==> |data[x]| > 0 && Mean(data[x]) != 0.0
  {
    KeysDefinedIff(SortedKeys(data.Keys), data, draws, sqrt);
  }

  /** Over any keys: each list has one entry per key, entry k holding the statistics of key k. */
  lemma KeysRows(keys: seq<int>, data: map<int, seq<real>>, draws: map<int, Draws>, sqrt: real -> real)
    requires forall k :: 0 <= k < |keys| ==> keys[k] in data
    requires ValidDrawsFor(data, draws)
    requires KeyStatsList(keys, data, draws, sqrt).Some?
    ensures var rows := RowsOf(KeyStatsList(keys, data, draws, sqrt).value);
      && WellShaped(rows, |keys|)
      && forall k :: 0 <= k < |keys| ==>
        var x := keys[k];
        KeyStatsOf(data[x], draws[x], sqrt).Some? && RowMatches(rows, k, KeyStatsOf(data[x], draws[x], sqrt).value)
  {
    KeyStatsListEntries(keys, data, draws, sqrt);
    RowsOfShape(KeyStatsList(keys, data, draws, sqrt).value);
  }

  /** Then each list has one entry per x, entry k holding the statistics of the k-th smallest x. */
  lemma YStatsRows(data: map<int, seq<real>>, draws: map<int, Draws>, sqrt: real -> real)
    requires ValidDrawsFor(data, draws)
    requires YStats(data, draws, sqrt).Some?
    ensures var keys := SortedKeys(data.Keys);
      var rows := YStats(data, draws, sqrt).value;
      && WellShaped(rows, |data|)
      && forall k :: 0 <= k < |keys| ==>
        var x := keys[k];
        KeyStatsOf(data[x], draws[x], sqrt).Some? && RowMatches(rows, k, KeyStatsOf(data[x], draws[x], sqrt).value)
  {
    KeysRows(SortedKeys(data.Keys), data, draws, sqrt);
  }

  class DataseriesStats {
    var mean: seq<real>
    var meanErrLo: seq<real>
    var meanErrHi: seq<real>
    var rms: seq<real>
    var rmsErrLo: seq<real>
    var rmsErrHi: seq<real>

    constructor ()
      ensures Rows() == SeriesRows([], [], [], [], [], [])
    {
      mean, meanErrLo, meanErrHi := [], [], [];
      rms, rmsErrLo, rmsErrHi := [], [], [];
    }

    function Rows(): SeriesRows
      reads this
    {
      SeriesRows(mean, meanErrLo, meanErrHi, rms, rmsErrLo, rmsErrHi)
    }

    /** The appends of one pass of calc_y_stats's loop (lines 388-393). */
    method Append(st: KeyStats)
      modifies this
      ensures Rows() == AppendKey(old(Rows()), st)
    {
      mean := mean + [st.mean];
      meanErrLo := meanErrLo + [st.meanErr];
      meanErrHi := meanErrHi + [st.meanErr];
      rms := rms + [st.rmsRel];
      rmsErrLo := rmsErrLo + [st.rmsErrRel];
      rmsErrHi := rmsErrHi + [st.rmsErrRel];
    }

    /** mean_errors(): the lower and upper error lists, for an asymmetric error bar. */
    function MeanErrors(): (e: seq<seq<real>>)
      reads this
      ensures |e| == 2 && e[0] == meanErrLo && e[1] == meanErrHi
    {
      [meanErrLo, meanErrHi]
    }

    /** rms_errors(): the lower and upper error lists of the relative RMS. */
    function RmsErrors(): (e: seq<seq<real>>)
      reads this
      ensures |e| == 2 && e[0] == rmsErrLo && e[1] == rmsErrHi
    {
      [rmsErrLo, rmsErrHi]
    }
  }

  /** The body of calc_y_stats's loop for one x: the two bootstrap calls and the divisions by the mean. */
  method KeyResults(ys: seq<real>, d: Draws, sqrt: real -> real) returns (r: Option<KeyStats>)
    requires ValidDraws(d.forMean, |ys|) && ValidDraws(d.forRms, |ys|)
    ensures r == KeyStatsOf(ys, d, sqrt)
  {
    var me := MeanWithError(ys, d.forMean, sqrt);
    var re := RmsWithError(ys, d.forRms, sqrt);
    KeyStatsFromCalls(ys, d, sqrt, me, re);
    if me.None? || re.None? || me.value.0 == 0.0 {
      return None;
    }
    var mean, meanErr := me.value.0, me.value.1;
    return Some(KeyStats(mean, meanErr, re.value.0 / mean, re.value.1 / mean));
  }

  /**
   * The loop of calc_y_stats over the given keys, appending to stats. On None the exception
   * has been raised part-way through, and what stats holds then is of no further use.
   */
  method AppendKeys(keys: seq<int>, data: map<int, seq<real>>, draws: map<int, Draws>, sqrt: real -> real,
                    stats: DataseriesStats) returns (done: Option<seq<KeyStats>>)
    requires forall k :: 0 <= k < |keys| ==> keys[k] in data
    requires ValidDrawsFor(data, draws)
    requires stats.Rows() == SeriesRows([], [], [], [], [], [])
    modifies stats
    ensures done == KeyStatsList(keys, data, draws, sqrt)
    ensures done.Some? ==> stats.Rows() == RowsOf(done.value)
  {
    var sofar: seq<KeyStats> := [];
    for i := 0 to |keys|
      invariant KeyStatsList(keys[..i], data, draws, sqrt) == Some(sofar)
      invariant stats.Rows() == RowsOf(sofar)
    {
      var x := keys[i];
      var st := KeyResults(data[x], draws[x], sqrt);
      KeyStatsListStep(keys, i, data, draws, sqrt, sofar, st);
      if st.None? {
        return None;
      }
      stats.Append(st.value);
      RowsOfAppend(sofar, st.value);
      sofar := sofar + [st.value];
    }
    assert keys[..|keys|] == keys;
    return Some(sofar);
  }

  /** calc_y_stats, lines 382-395. */
  method CalcYStats(data: map<int, seq<real>>, draws: map<int, Draws>, sqrt: real -> real)
      returns (r: Option<DataseriesStats>)
    requires ValidDrawsFor(data, draws)
    ensures r.Some? <==> YStats(data, draws, sqrt).Some?
    ensures r.Some? ==> fresh(r.value) && r.value.Rows() == YStats(data, draws, sqrt).value
  {
    var stats := new DataseriesStats();
    var done := AppendKeys(SortedKeys(data.Keys), data, draws, sqrt, stats);
    if done.None? {
      return None;
    }
    return Some(stats);
  }

  /**
   * The series {1: [2, 4], 2: [10, 10]}: means [3, 10] and relative RMS [1/3, 0], given that
   * math.sqrt maps 1 to 1 and 0 to 0.
   */
  lemma SeriesExample(draws: map<int, Draws>, sqrt: real -> real)
    requires sqrt(1.0) == 1.0 && sqrt(0.0) == 0.0
    requires ValidDrawsFor(map[1 := [2.0, 4.0], 2 := [10.0, 10.0]], draws)
    ensures var s := YStats(map[1 := [2.0, 4.0], 2 := [10.0, 10.0]], draws, sqrt);
      s.Some? && s.value.mean == [3.0, 10.0] && s.value.rms == [1.0 / 3.0, 0.0]
  {
    var data := map[1 := [2.0, 4.0], 2 := [10.0, 10.0]];
    var a, b := [2.0, 4.0], [10.0, 10.0];
    assert data.Keys == {1, 2} && data[1] == a && data[2] == b;
    ExampleSpread(sqrt);
    ConstantMeanVariance(b, 10.0);
    var s1 := ExampleKey(a, draws[1], sqrt, 3.0, 1.0, 1.0 / 3.0);
    var s2 := ExampleKey(b, draws[2], sqrt, 10.0, 0.0, 0.0);
    PairKeys({1, 2}, 1, 2);
    TwoKeys([1, 2], data, draws, sqrt, s1, s2);
    RowsOfPair(s1, s2);
  }

  lemma ExampleSpread(sqrt: real -> real)
    requires sqrt(1.0) == 1.0
    ensures Mean([2.0, 4.0]) == 3.0 && Rms([2.0, 4.0], sqrt) == Some(1.0)
  {
    var a := [2.0, 4.0];
    assert a[..1] == [2.0] && a[..1][..0] == [];
    assert Sum(a) == 6.0;
    assert SumSqDev(a, 3.0) == 2.0;
  }

  /** The result for one sample given its mean and calc_rms. */
  lemma ExampleKey(ys: seq<real>, d: Draws, sqrt: real -> real, m: real, rms: real, rel: real) returns (st: KeyStats)
    requires ValidDraws(d.forMean, |ys|) && ValidDraws(d.forRms, |ys|)
    requires |ys| > 0 && Mean(ys) == m && m != 0.0 && Rms(ys, sqrt) == Some(rms) && rel * m == rms
    ensures KeyStatsOf(ys, d, sqrt) == Some(st) && st.mean == m && st.rmsRel == rel
  {
    KeyStatsRelative(ys, d, sqrt);
    st := KeyStatsOf(ys, d, sqrt).value;
    assert st.rmsRel * m == rel * m;
  }

  /** Two keys sort in ascending order. */
  lemma PairKeys(ks: set<int>, lo: int, hi: int)
    requires ks == {lo, hi} && lo < hi
    ensures SortedKeys(ks) == [lo, hi]
  {
    var r := SortedKeys(ks);
    assert lo in r && hi in r;
    assert |ks| == 2;
  }

  /** The loop over two keys that both succeed. */
  lemma TwoKeys(keys: seq<int>, data: map<int, seq<real>>, draws: map<int, Draws>, sqrt: real -> real,
                s1: KeyStats, s2: KeyStats)
    requires |keys| == 2 && keys[0] in data && keys[1] in data && ValidDrawsFor(data, draws)
    requires var x := keys[0]; KeyStatsOf(data[x], draws[x], sqrt) == Some(s1)
    requires var x := keys[1]; KeyStatsOf(data[x], draws[x], sqrt) == Some(s2)
    ensures KeyStatsList(keys, data, draws, sqrt) == Some([s1, s2])
  {
    assert keys[..0] == [] && keys[..2] == keys && [] + [s1] == [s1] && [s1] + [s2] == [s1, s2];
    KeyStatsListStep(keys, 0, data, draws, sqrt, [], Some(s1));
    KeyStatsListStep(keys, 1, data, draws, sqrt, [s1], Some(s2));
  }

  lemma RowsOfPair(s1: KeyStats, s2: KeyStats)
    ensures RowsOf([s1, s2]).mean == [s1.mean, s2.mean] && RowsOf([s1, s2]).rms == [s1.rmsRel, s2.rmsRel]
  {
    assert [s1, s2][..1] == [s1] && [s1][..0] == [];
    assert RowsOf([s1]) == AppendKey(RowsOf([]), s1);
  }


}
