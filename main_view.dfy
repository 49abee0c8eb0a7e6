/** The calculation order of `views/main_view.py`, without its widgets: the
    per-day TMB, AF and GB, the Fourier view of the GB series for
    k = 1 … min(N, 5) with its log–log points, and the regression and
    correlation of those points when there are at least two. */
module MainView {
  import opened Wrappers
  import opened RealMath
  import opened MetabolicFormulas
  import opened FourierAnalysis
  import opened Statistics

  // ---------------------------------------------------------------------
  // Daily expenditure

  /** The loop over the days: each day recomputes the basal rate and adds
      TMB × AF to the list. An unknown sex raises on the first day, so an
      empty week never reaches `calculate_tmb`. */
  method DailyExpenditures(sex: string, weightKg: real, heightCm: real, ageYears: int, minutes: seq<real>)
    returns (r: Result<seq<real>>)
    ensures minutes == [] ==> r == Success([])
    ensures minutes != [] && sex != Male && sex != Female ==> r == Failure(ValueError(InvalidSexMessage))
    ensures r.Success? <==> minutes == [] || sex == Male || sex == Female
    ensures r.Success? ==> |r.value| == |minutes|
    ensures r.Success? ==> forall i :: 0 <= i < |r.value| ==>
      && CalculateTmb(sex, weightKg, heightCm, ageYears).Success?
      && r.value[i] == CalculateGb(CalculateTmb(sex, weightKg, heightCm, ageYears).value, CalculateAf(minutes[i]))
  {
    ghost var t := CalculateTmb(sex, weightKg, heightCm, ageYears);
    var gbValues := [];
    var i := 0;
    while i < |minutes|
      invariant 0 <= i <= |minutes| && |gbValues| == i
      invariant i > 0 ==> t.Success?
      invariant forall j :: 0 <= j < i ==> t.Success? && gbValues[j] == CalculateGb(t.value, CalculateAf(minutes[j]))
    {
      var tmb := CalculateTmb(sex, weightKg, heightCm, ageYears);
      if tmb.Failure? {
        return Failure(tmb.error);
      }
      var af := CalculateAf(minutes[i]);
      gbValues := gbValues + [CalculateGb(tmb.value, af)];
      i := i + 1;
    }
    return Success(gbValues);
  }

  // ---------------------------------------------------------------------
  // Fourier view

  /** At most five frequencies are shown: `min(N, 5)`. */
  const MaxDisplayedFrequency := 5

  function MaxK(N: int): (k: int)
    ensures k <= N && k <= MaxDisplayedFrequency
    ensures k == N || k == MaxDisplayedFrequency
  {
    if N < MaxDisplayedFrequency then N else MaxDisplayedFrequency
  }

  datatype FourierView = FourierView(spectrum: KSpectrum, logs: LogPoints)

  const EmptyFourierView := FourierView(KSpectrum([], [], [], []), LogPoints([], []))

  /** The Fourier view of a GB series: nothing for no days; otherwise the
      specific coefficients for k = 1 … min(N, 5) with N = |gb|, and the
      log–log points of the pairs with a non-zero amplitude. */
  method FourierStage(m: Transcendentals, gb: seq<real>) returns (r: Result<FourierView>)
    ensures gb == [] ==> r == Success(EmptyFourierView)
    ensures gb != [] && Lawful(m) ==> r.Success?
    ensures r.Failure? ==> r.error == ValueError(MathDomainError)
    ensures r.Success? && gb != [] ==>
      var s := r.value.spectrum;
      && |s.kValues| == MaxK(|gb|)
      && (forall i :: 0 <= i < |s.kValues| ==> s.kValues[i] == i + 1)
      && IsSpectrum(m, gb, |gb|, 1, 1, MaxK(|gb|), s.ak, s.bk, s.amplitudes)
      && LogsOf(m, Kept(Zip(s.kValues, s.amplitudes)), r.value.logs)
  {
    if gb == [] {
      return Success(EmptyFourierView);
    }
    var N := |gb|;
    var maxK := if N < MaxDisplayedFrequency then N else MaxDisplayedFrequency;
    var spectrum := CalculateSpecificFourierCoefficients(m, gb, N, maxK);
    assert spectrum.Success?;
    if Lawful(m) {
      NoLogDomainError(m, gb, maxK, spectrum.value);
    }
    var logs := CalculateLogTransformations(m, spectrum.value.kValues, spectrum.value.amplitudes);
    if logs.Failure? {
      return Failure(logs.error);
    }
    return Success(FourierView(spectrum.value, logs.value));
  }

  /** With a lawful square root every amplitude is non-negative and every
      k is at least 1, so the log step never meets its domain error. */
  lemma NoLogDomainError(m: Transcendentals, gb: seq<real>, maxK: nat, s: KSpectrum)
    requires Lawful(m) && gb != []
    requires |s.kValues| == maxK && forall i :: 0 <= i < maxK ==> s.kValues[i] == i + 1
    requires IsSpectrum(m, gb, |gb|, 1, 1, maxK, s.ak, s.bk, s.amplitudes)
    ensures !SomeOutsideLogDomain(Kept(Zip(s.kValues, s.amplitudes)))
  {
    var z := Zip(s.kValues, s.amplitudes);
    SpectrumAmplitudesNonNegative(m, gb, |gb|, 1, 1, maxK, s.ak, s.bk, s.amplitudes);
    KeptSound(z);
    forall i | 0 <= i < |Kept(z)|
      ensures !OutsideLogDomain(Kept(z)[i])
    {
      var j :| 0 <= j < |z| && z[j] == Kept(z)[i];
    }
  }

  /** There is one log–log point per shown frequency with a non-zero
      amplitude: never more than min(N, 5), and exactly min(N, 5) when no
      amplitude vanishes; with a lawful square root an amplitude vanishes
      exactly when a_k = b_k = 0. */
  lemma LogPointCount(m: Transcendentals, gb: seq<real>, view: FourierView)
    requires gb != []
    requires |view.spectrum.kValues| == MaxK(|gb|)
    requires forall i :: 0 <= i < |view.spectrum.kValues| ==> view.spectrum.kValues[i] == i + 1
    requires IsSpectrum(m, gb, |gb|, 1, 1, MaxK(|gb|), view.spectrum.ak, view.spectrum.bk, view.spectrum.amplitudes)
    requires LogsOf(m, Kept(Zip(view.spectrum.kValues, view.spectrum.amplitudes)), view.logs)
    ensures |view.logs.logK| == |view.logs.logA| <= MaxK(|gb|)
    ensures (forall i :: 0 <= i < MaxK(|gb|) ==> view.spectrum.amplitudes[i] != 0.0) ==>
      |view.logs.logK| == MaxK(|gb|)
    ensures Lawful(m) ==> forall i :: 0 <= i < MaxK(|gb|) ==>
      (view.spectrum.amplitudes[i] == 0.0 <==> view.spectrum.ak[i] == 0.0 && view.spectrum.bk[i] == 0.0)
  {
    var s := view.spectrum;
    var z := Zip(s.kValues, s.amplitudes);
    KeptNoLonger(z);
    if forall i :: 0 <= i < MaxK(|gb|) ==> s.amplitudes[i] != 0.0 {
      KeptAllWhenNoneSkipped(z);
    }
    if Lawful(m) {
      forall i | 0 <= i < MaxK(|gb|)
        ensures s.amplitudes[i] == 0.0 <==> s.ak[i] == 0.0 && s.bk[i] == 0.0
      {
        AmplitudeIsNorm(m, s.ak[i], s.bk[i]);
      }
    }
  }

  /** Filtering never lengthens. */
  lemma {:induction false} KeptNoLonger(z: seq<(int, real)>)
    ensures |Kept(z)| <= |z|
  {
    if z != [] {
      KeptNoLonger(z[..|z| - 1]);
    }
  }

  // ---------------------------------------------------------------------
  // Statistics view

  /** α, C and r of the log–log fit, with the means and standard deviations. */
  datatype Regression = Regression(meanX: real, meanY: real, stdDevX: real, stdDevY: real,
                                   alpha: real, c: real, r: real)

  /** The statistics of the log–log points (x = log10 k, y = log10 A_k):
      `None` for fewer than two points (the cleared display), otherwise the
      first error of the calls in order, or all the results. */
  function StatisticsStage(m: Transcendentals, x: seq<real>, y: seq<real>): (r: Option<Result<Regression>>)
    ensures r.None? <==> |x| < 2
    ensures 2 <= |x| && y == [] ==> r == Some(Failure(ValueError(EmptyInputMessage)))
  {
    if |x| < 2 then None
    else
      var N := |x|;
      var meanY := CalculateMean(y);
      if meanY.Failure? then Some(Failure(meanY.error))
      else
        var stdDevX := CalculateStdDev(m, x, Mean(x)).value;
        var stdDevY := CalculateStdDev(m, y, meanY.value).value;
        var alpha := CalculateRegressionSlope(x, y, N);
        if alpha.Failure? then Some(Failure(alpha.error))
        else
          var c := CalculateRegressionIntercept(x, y, alpha.value, N).value;
          var rho := CalculateCorrelationCoefficient(m, x, y, N);
          if rho.Failure? then Some(Failure(rho.error))
          else Some(Success(Regression(Mean(x), meanY.value, stdDevX, stdDevY, alpha.value, c, rho.value)))
  }

  /** On the log–log points (two equal-length lists of at least two
      values) no ValueError is possible: the stage fails exactly when x or
      y is constant, and then with a ZeroDivisionError. */
  lemma StatisticsOfLogPoints(m: Transcendentals, x: seq<real>, y: seq<real>)
    requires Lawful(m) && 2 <= |x| && |y| == |x|
    ensures StatisticsStage(m, x, y).Some?
    ensures StatisticsStage(m, x, y).value.Failure? <==> IsConstant(x) || IsConstant(y)
    ensures StatisticsStage(m, x, y).value.Failure? ==>
      StatisticsStage(m, x, y).value.error.ZeroDivisionError?
  {
    hide StatisticsStage, CalculateRegressionSlope, CalculateRegressionIntercept, CalculateCorrelationCoefficient,
      CalculateStdDev, Mean, Sum, SumSqDev, SumProdDev, IsConstant, Lawful;
    StageOutcome(m, x, y);
    assert !InvalidRegressionInput(x, y, |x|);
    assert !InvalidCorrelationInput(x, y, |x|);
    CorrelationDefined(m, x, y);
  }

  /** A successful stage returns the least-squares line: it passes through
      the centroid, its slope solves the normal equation, and the
      coefficient lies in [−1, 1]. */
  lemma StageSuccess(m: Transcendentals, x: seq<real>, y: seq<real>, g: Regression)
    requires Lawful(m) && 2 <= |x| && |y| == |x|
    requires StatisticsStage(m, x, y) == Some(Success(g))
    ensures g.meanY == g.alpha * g.meanX + g.c
    ensures g.alpha * SumSqDev(x, Mean(x)) == SumProdDev(x, y, Mean(x), Mean(y))
    ensures -1.0 <= g.r <= 1.0
  {
    hide StatisticsStage, CalculateRegressionSlope, CalculateRegressionIntercept, CalculateCorrelationCoefficient,
      CalculateStdDev, Mean, Sum, SumSqDev, SumProdDev, IsConstant, Lawful;
    StageOutcome(m, x, y);
    var alpha := CalculateRegressionSlope(x, y, |x|);
    var rho := CalculateCorrelationCoefficient(m, x, y, |x|);
    assert alpha.Success? && rho.Success?;
    assert g == Regression(Mean(x), Mean(y), CalculateStdDev(m, x, Mean(x)).value, CalculateStdDev(m, y, Mean(y)).value,
                           alpha.value, CalculateRegressionIntercept(x, y, alpha.value, |x|).value, rho.value);
    CentroidOnLine(x, y, g);
    FittedSlopeIsNormal(x, y, g);
    CorrelationBounded(m, x, y, g.r);
  }

  /** The fitted slope solves the normal equation. */
  lemma FittedSlopeIsNormal(x: seq<real>, y: seq<real>, g: Regression)
    requires x != [] && |y| == |x|
    requires CalculateRegressionSlope(x, y, |x|) == Success(g.alpha)
    ensures g.alpha * SumSqDev(x, Mean(x)) == SumProdDev(x, y, Mean(x), Mean(y))
  {
    SlopeSolvesNormalEquation(x, y, g.alpha);
  }

  /** The fitted line passes through the centroid of the points. */
  lemma CentroidOnLine(x: seq<real>, y: seq<real>, g: Regression)
    requires x != [] && |y| == |x|
    requires g.meanX == Mean(x) && g.meanY == Mean(y)
    requires CalculateRegressionIntercept(x, y, g.alpha, |x|) == Success(g.c)
    ensures g.meanY == g.alpha * g.meanX + g.c
  {
    hide CalculateRegressionIntercept, Mean, Sum;
    assert !InvalidRegressionInput(x, y, |x|);
  }

  /** The stage on two lists of equal length ≥ 2: the means and standard
      deviations exist, so the slope error comes first, then the
      correlation error. */
  lemma StageOutcome(m: Transcendentals, x: seq<real>, y: seq<real>)
    requires 2 <= |x| && |y| == |x|
    ensures
      var alpha := CalculateRegressionSlope(x, y, |x|);
      var rho := CalculateCorrelationCoefficient(m, x, y, |x|);
      StatisticsStage(m, x, y)
      == if alpha.Failure? then Some(Failure(alpha.error))
         else if rho.Failure? then Some(Failure(rho.error))
         else Some(Success(Regression(Mean(x), Mean(y),
                                      CalculateStdDev(m, x, Mean(x)).value, CalculateStdDev(m, y, Mean(y)).value,
                                      alpha.value, CalculateRegressionIntercept(x, y, alpha.value, |x|).value,
                                      rho.value)))
  {
    hide CalculateRegressionSlope, CalculateRegressionIntercept, CalculateCorrelationCoefficient,
      CalculateStdDev, Mean, Sum, SumSqDev, SumProdDev, IsConstant, Lawful;
  }
}
