/** The descriptive statistics of `models/statistics.py`: mean, population
    standard deviation, the least-squares slope and intercept, and
    Pearson's correlation coefficient, each with the exceptions Python
    raises on degenerate input. */
module Statistics {
  import opened Wrappers
  import opened RealMath

  const EmptyInputMessage := "Input list cannot be empty"
  const InvalidLengthMessage := "Invalid input: N must be greater than 0, and list lengths must match N"
  const VerticalLineMessage := "Denominator is zero, cannot calculate slope (vertical line)."
  const InvalidPairCountMessage := "Invalid input: N must be at least 2, and list lengths must match N"
  const ZeroStdDevMessage := "Standard deviation of x or y is zero, cannot calculate correlation coefficient."

  // ---------------------------------------------------------------------
  // Mean

  /** Σ s / |s|. */
  function Mean(s: seq<real>): real
    requires s != []
  {
    Sum(s) / (|s| as real)
  }

  /** |s|·mean = Σ s. */
  lemma MeanTimesLength(s: seq<real>)
    requires s != []
    ensures (|s| as real) * Mean(s) == Sum(s)
  {
  }

  /** The same, scaled by the length of a paired sequence t. */
  lemma MeanTimesPairedLength(s: seq<real>, t: seq<real>)
    requires s != [] && |t| == |s|
    ensures (|t| as real) * Mean(s) == Sum(s)
  {
    MeanTimesLength(s);
  }

  /** The mean of a constant sequence is that constant. */
  lemma MeanOfAllEqual(s: seq<real>, c: real)
    requires s != [] && AllEqual(s, c)
    ensures Mean(s) == c
  {
    SumConstant(s, c);
  }

  /** A sequence is constant exactly when every element equals its mean. */
  lemma ConstantIffAllEqualMean(s: seq<real>)
    requires s != []
    ensures IsConstant(s) <==> AllEqual(s, Mean(s))
  {
    if IsConstant(s) {
      assert AllEqual(s, s[0]);
      MeanOfAllEqual(s, s[0]);
    }
  }

  /** `calculate_mean`: the arithmetic mean, or a ValueError for an empty list. */
  function CalculateMean(data: seq<real>): (r: Result<real>)
    ensures r.Failure? <==> data == []
    ensures r.Failure? ==> r.error == ValueError(EmptyInputMessage)
    ensures r.Success? ==> (|data| as real) * r.value == Sum(data)
  {
    if data == [] then Failure(ValueError(EmptyInputMessage))
    else MeanTimesLength(data); Success(Mean(data))
  }

  /** The mean of 1, 2, 3, 4, 5 is 3. */
  lemma MeanExample()
    ensures CalculateMean([1.0, 2.0, 3.0, 4.0, 5.0]) == Success(3.0)
  {
    var s := [1.0, 2.0, 3.0, 4.0, 5.0];
    assert s[..4] == [1.0, 2.0, 3.0, 4.0];
    assert s[..4][..3] == [1.0, 2.0, 3.0];
    assert s[..4][..3][..2] == [1.0, 2.0];
    assert s[..4][..3][..2][..1] == [1.0];
    assert Sum([1.0]) == 1.0;
    assert Sum([1.0, 2.0]) == 3.0;
    assert Sum([1.0, 2.0, 3.0]) == 6.0;
    assert Sum([1.0, 2.0, 3.0, 4.0]) == 10.0;
    assert Sum(s) == 15.0;
  }

  // ---------------------------------------------------------------------
  // Standard deviation

  /** `calculate_std_dev`: √(Σ(x − mean)² / n) about the given mean, or a
      ValueError for an empty list. */
  function CalculateStdDev(m: Transcendentals, data: seq<real>, mean: real): (r: Result<real>)
    ensures r.Failure? <==> data == []
    ensures r.Failure? ==> r.error == ValueError(EmptyInputMessage)
  {
    if data == [] then Failure(ValueError(EmptyInputMessage))
    else Success(m.sqrt(SumSqDev(data, mean) / (|data| as real)))
  }

  /** The standard deviation is non-negative, its square times n is the
      sum of squared deviations, and it is zero exactly when every element
      equals the given mean. */
  lemma StdDevIsRootMeanSquare(m: Transcendentals, data: seq<real>, mean: real)
    requires Lawful(m) && data != []
    ensures var r := CalculateStdDev(m, data, mean).value;
      && 0.0 <= r
      && (|data| as real) * Square(r) == SumSqDev(data, mean)
      && (r == 0.0 <==> AllEqual(data, mean))
  {
    var n := |data| as real;
    var variance := SumSqDev(data, mean) / n;
    SumSqDevNonNegative(data, mean);
    SumSqDevZeroIffAllEqual(data, mean);
    assert 0.0 <= variance;
    var r := m.sqrt(variance);
    assert r * r == variance;
    if variance == 0.0 {
      SqrtUnique(m, variance, 0.0);
    } else {
      SqrtPositive(m, variance);
    }
  }

  // ---------------------------------------------------------------------
  // Centred sums in terms of raw sums

  /** n times the centred expansion about the means is n·Σab − Σa·Σb. */
  lemma ScaledCenteredExpansion(pab: real, sa: real, sb: real, n: real, ca: real, cb: real, spd: real)
    requires spd == CenteredExpansion(pab, sa, sb, n, ca, cb)
    requires n * ca == sa && n * cb == sb
    ensures n * spd == n * pab - sa * sb
  {
    calc {
      n * spd;
    ==
      n * (pab - cb * sa - ca * sb + n * ca * cb);
    ==
      n * pab - (n * cb) * sa - (n * ca) * sb + (n * ca) * (n * cb);
    ==
      n * pab - sb * sa - sa * sb + sa * sb;
    ==
      n * pab - sa * sb;
    }
  }

  /** n·Σ(a − ca)(b − cb) = n·Σab − Σa·Σb when ca and cb are the means. */
  lemma CenteredCrossIdentity(a: seq<real>, b: seq<real>, ca: real, cb: real)
    requires |a| == |b|
    requires (|a| as real) * ca == Sum(a) && (|a| as real) * cb == Sum(b)
    ensures (|a| as real) * SumProdDev(a, b, ca, cb) == (|a| as real) * SumProd(a, b) - Sum(a) * Sum(b)
  {
    hide Sum, SumProd, SumProdDev;
    SumProdDevExpansion(a, b, ca, cb);
    ScaledCenteredExpansion(SumProd(a, b), Sum(a), Sum(b), |a| as real, ca, cb, SumProdDev(a, b, ca, cb));
  }

  /** Replaces equals by equals in n·b = n·d − s·s. */
  lemma RewriteScaled(n: real, a: real, b: real, c: real, d: real, s: real)
    requires a == b && c == d
    requires n * b == n * d - s * s
    ensures n * a == n * c - Square(s)
  {
  }

  /** n·Σ(x − c)² = n·Σx² − (Σx)² when c is the mean. */
  lemma CenteredSquareIdentity(s: seq<real>, c: real)
    requires (|s| as real) * c == Sum(s)
    ensures (|s| as real) * SumSqDev(s, c) == (|s| as real) * SumSq(s) - Square(Sum(s))
  {
    hide Sum, SumProd, SumSq, SumProdDev, SumSqDev;
    CenteredCrossIdentity(s, s, c, c);
    SumSqDevIsSumProdDev(s, c);
    SumSqIsSumProd(s);
    RewriteScaled(|s| as real, SumSqDev(s, c), SumProdDev(s, s, c, c), SumSq(s), SumProd(s, s), Sum(s));
  }

  // ---------------------------------------------------------------------
  // Regression slope and intercept

  /** N·Σx² − (Σx)², the slope's denominator. */
  function SlopeDenominator(x: seq<real>): real {
    (|x| as real) * SumSq(x) - Square(Sum(x))
  }

  /** N·Σxy − Σx·Σy, the slope's numerator. */
  function SlopeNumerator(x: seq<real>, y: seq<real>): real
    requires |x| == |y|
  {
    (|x| as real) * SumProd(x, y) - Sum(x) * Sum(y)
  }

  /** The denominator vanishes exactly when all x are equal (a vertical line). */
  lemma SlopeDenominatorZeroIffConstant(x: seq<real>)
    requires x != []
    ensures SlopeDenominator(x) == 0.0 <==> IsConstant(x)
  {
    hide Sum, SumSq, SumSqDev, Mean;
    MeanTimesLength(x);
    CenteredSquareIdentity(x, Mean(x));
    ProductZeroIff(|x| as real, SumSqDev(x, Mean(x)));
    SumSqDevZeroIffAllEqual(x, Mean(x));
    ConstantIffAllEqualMean(x);
  }

  /** Invalid N or list lengths, as checked by both regression functions. */
  predicate InvalidRegressionInput(x: seq<real>, y: seq<real>, N: int) {
    N == 0 || |x| != N || |y| != N
  }

  /** `calculate_regression_slope`: the least-squares slope (N·Σxy − Σx·Σy)
      / (N·Σx² − (Σx)²). Invalid N or lengths are a ValueError; equal x
      values (denominator 0) a ZeroDivisionError, and every other input has
      a slope. Past the length check N = |x|, so the sums are written with
      |x|. SlopeSolvesNormalEquation states what the slope is. */
  function CalculateRegressionSlope(x: seq<real>, y: seq<real>, N: int): (r: Result<real>)
    ensures InvalidRegressionInput(x, y, N) ==> r == Failure(ValueError(InvalidLengthMessage))
    ensures !InvalidRegressionInput(x, y, N) ==> (r.Success? <==> !IsConstant(x))
    ensures !InvalidRegressionInput(x, y, N) && IsConstant(x) ==>
      r == Failure(ZeroDivisionError(VerticalLineMessage))
  {
    if InvalidRegressionInput(x, y, N) then Failure(ValueError(InvalidLengthMessage))
    else
      var denominator := SlopeDenominator(x);
      SlopeDenominatorZeroIffConstant(x);
      if denominator == 0.0 then Failure(ZeroDivisionError(VerticalLineMessage))
      else Success(SlopeNumerator(x, y) / denominator)
  }

  /** The slope α of non-vertical data solves the least-squares normal
      equation α·Σ(x − x̄)² = Σ(x − x̄)(y − ȳ). */
  lemma SlopeSolvesNormalEquation(x: seq<real>, y: seq<real>, alpha: real)
    requires |x| == |y| && x != []
    requires CalculateRegressionSlope(x, y, |x|) == Success(alpha)
    ensures alpha * SumSqDev(x, Mean(x)) == SumProdDev(x, y, Mean(x), Mean(y))
  {
    hide Sum, SumProd, SumSq, SumProdDev, SumSqDev, Mean, SlopeNumerator, SlopeDenominator;
    MeanNormalEquation(x, y, alpha);
  }

  /** CenteredNormalEquation about the means themselves. */
  lemma MeanNormalEquation(x: seq<real>, y: seq<real>, alpha: real)
    requires |x| == |y| && x != []
    requires SlopeDenominator(x) != 0.0
    requires alpha == SlopeNumerator(x, y) / SlopeDenominator(x)
    ensures alpha * SumSqDev(x, Mean(x)) == SumProdDev(x, y, Mean(x), Mean(y))
  {
    hide Sum, SumProd, SumSq, SumProdDev, SumSqDev, Mean, SlopeNumerator, SlopeDenominator;
    MeanTimesLength(x);
    MeanTimesPairedLength(y, x);
    CenteredNormalEquation(x, y, Mean(x), Mean(y), alpha);
  }

  /** Scalar core of the normal equation: α = num/den with n·sxx = den and
      n·sxy = num gives α·sxx = sxy. */
  lemma NormalEquation(alpha: real, n: real, sxx: real, sxy: real, num: real, den: real)
    requires n != 0.0 && den != 0.0 && alpha == num / den
    requires n * sxx == den && n * sxy == num
    ensures alpha * sxx == sxy
  {
    calc {
      (alpha * sxx) * n;
    ==
      alpha * (n * sxx);
    ==
      alpha * den;
    ==
      num;
    ==
      sxy * n;
    }
    CancelFactor(alpha * sxx, sxy, n);
  }

  /** α = numerator / denominator solves α·Σ(x − cx)² = Σ(x − cx)(y − cy)
      about the means cx and cy. */
  lemma CenteredNormalEquation(x: seq<real>, y: seq<real>, cx: real, cy: real, alpha: real)
    requires |x| == |y| && x != []
    requires (|x| as real) * cx == Sum(x) && (|x| as real) * cy == Sum(y)
    requires SlopeDenominator(x) != 0.0
    requires alpha == SlopeNumerator(x, y) / SlopeDenominator(x)
    ensures alpha * SumSqDev(x, cx) == SumProdDev(x, y, cx, cy)
  {
    hide Sum, SumProd, SumSq, SumProdDev, SumSqDev;
    CenteredSquareIdentity(x, cx);
    CenteredCrossIdentity(x, y, cx, cy);
    NormalEquation(alpha, |x| as real, SumSqDev(x, cx), SumProdDev(x, y, cx, cy),
      SlopeNumerator(x, y), SlopeDenominator(x));
  }

  /** `calculate_regression_intercept`: C = ȳ − α·x̄, so that the line of
      slope α through C passes through the centroid (x̄, ȳ); invalid N or
      lengths are a ValueError. */
  function CalculateRegressionIntercept(x: seq<real>, y: seq<real>, alpha: real, N: int): (r: Result<real>)
    ensures InvalidRegressionInput(x, y, N) ==> r == Failure(ValueError(InvalidLengthMessage))
    ensures !InvalidRegressionInput(x, y, N) ==> r.Success? && Mean(y) == alpha * Mean(x) + r.value
  {
    if InvalidRegressionInput(x, y, N) then Failure(ValueError(InvalidLengthMessage))
    else Success(Mean(y) - alpha * Mean(x))
  }

  /** y lies on the line y = slope·x + intercept. */
  predicate OnLine(x: seq<real>, y: seq<real>, slope: real, intercept: real) {
    |x| == |y| && forall i :: 0 <= i < |x| ==> y[i] == slope * x[i] + intercept
  }

  lemma {:induction false} SumOnLine(x: seq<real>, y: seq<real>, slope: real, intercept: real)
    requires OnLine(x, y, slope, intercept)
    ensures Sum(y) == slope * Sum(x) + (|x| as real) * intercept
  {
    hide Sum;
    if x == [] {
      SumsOfEmpty(x, y, 0.0, 0.0);
    } else {
      var n := |x| - 1;
      assert OnLine(x[..n], y[..n], slope, intercept);
      SumOnLine(x[..n], y[..n], slope, intercept);
      calc {
        Sum(y);
      ==  { SumSnoc(y); }
        Sum(y[..n]) + y[n];
      ==
        slope * Sum(x[..n]) + (n as real) * intercept + (slope * x[n] + intercept);
      ==  { Distribute(slope, Sum(x[..n]), x[n]); }
        slope * (Sum(x[..n]) + x[n]) + (n as real + 1.0) * intercept;
      ==  { SumSnoc(x); }
        slope * Sum(x) + (|x| as real) * intercept;
      }
    }
  }

  /** A point on the line deviates from the line's value at c by slope
      times its x deviation. */
  lemma LineDeviation(slope: real, intercept: real, c: real, cy: real, xn: real, yn: real)
    requires yn == slope * xn + intercept && cy == slope * c + intercept
    ensures yn - cy == slope * (xn - c)
  {
    Distribute(slope, xn, -c);
  }

  lemma ScaledProductStep(sxx: real, sxy: real, slope: real, d: real, e: real)
    requires sxy == slope * sxx && e == slope * d
    ensures sxy + d * e == slope * (sxx + Square(d))
  {
    Distribute(slope, sxx, Square(d));
  }

  lemma ScaledSquareStep(sxx: real, syy: real, slope: real, d: real, e: real)
    requires syy == Square(slope) * sxx && e == slope * d
    ensures syy + Square(e) == Square(slope) * (sxx + Square(d))
  {
    SquareOfProduct(slope, d);
    Distribute(Square(slope), sxx, Square(d));
  }

  /** On a line, the co-deviation about c and the line's value cy at c is
      the slope times the x deviation. */
  lemma {:induction false} SumProdDevOnLine(x: seq<real>, y: seq<real>, slope: real, intercept: real, c: real, cy: real)
    requires OnLine(x, y, slope, intercept) && cy == slope * c + intercept
    ensures SumProdDev(x, y, c, cy) == slope * SumSqDev(x, c)
  {
    hide SumProdDev, SumSqDev, Square;
    if x == [] {
      SumsOfEmpty(x, y, c, cy);
    } else {
      var n := |x| - 1;
      assert OnLine(x[..n], y[..n], slope, intercept);
      SumProdDevOnLine(x[..n], y[..n], slope, intercept, c, cy);
      LineDeviation(slope, intercept, c, cy, x[n], y[n]);
      ScaledProductStep(SumSqDev(x[..n], c), SumProdDev(x[..n], y[..n], c, cy), slope, x[n] - c, y[n] - cy);
      SumProdDevSnoc(x, y, c, cy);
      SumSqDevSnoc(x, c);
    }
  }

  /** On a line, the spread of y about the line's value cy at c is the slope
      squared times the spread of x about c. */
  lemma {:induction false} SumSqDevOnLine(x: seq<real>, y: seq<real>, slope: real, intercept: real, c: real, cy: real)
    requires OnLine(x, y, slope, intercept) && cy == slope * c + intercept
    ensures SumSqDev(y, cy) == Square(slope) * SumSqDev(x, c)
  {
    hide SumProdDev, SumSqDev, Square;
    if x == [] {
      SumsOfEmpty(x, y, c, cy);
    } else {
      var n := |x| - 1;
      assert OnLine(x[..n], y[..n], slope, intercept);
      SumSqDevOnLine(x[..n], y[..n], slope, intercept, c, cy);
      LineDeviation(slope, intercept, c, cy, x[n], y[n]);
      ScaledSquareStep(SumSqDev(x[..n], c), SumSqDev(y[..n], cy), slope, x[n] - c, y[n] - cy);
      SumSqDevSnoc(y, cy);
      SumSqDevSnoc(x, c);
    }
  }

  /** On a line the mean of y is the line at the mean of x. */
  lemma MeanOnLine(x: seq<real>, y: seq<real>, slope: real, intercept: real)
    requires OnLine(x, y, slope, intercept) && x != []
    ensures Mean(y) == slope * Mean(x) + intercept
  {
    hide Sum, Mean;
    var n := |x| as real;
    SumOnLine(x, y, slope, intercept);
    MeanTimesLength(x);
    MeanTimesLength(y);
    calc {
      Mean(y) * n;
    ==
      Sum(y);
    ==
      slope * (n * Mean(x)) + n * intercept;
    ==
      (slope * Mean(x) + intercept) * n;
    }
    CancelFactor(Mean(y), slope * Mean(x) + intercept, n);
  }

  /** The slope of points on a non-vertical line is the line's slope. */
  lemma SlopeOfLine(x: seq<real>, y: seq<real>, a: real, b: real)
    requires OnLine(x, y, a, b) && x != [] && !IsConstant(x)
    ensures CalculateRegressionSlope(x, y, |x|) == Success(a)
  {
    hide Sum, SumProd, SumSq, SumProdDev, SumSqDev, Mean;
    var r := CalculateRegressionSlope(x, y, |x|);
    SlopeSolvesNormalEquation(x, y, r.value);
    SpreadZeroIffConstant(x);
    MeanOnLine(x, y, a, b);
    SumProdDevOnLine(x, y, a, b, Mean(x), Mean(y));
    CancelFactor(r.value, a, SumSqDev(x, Mean(x)));
  }

  /** Points on a non-vertical line y = a·x + b give back slope a and
      intercept b. */
  lemma RegressionRecoversLine(x: seq<real>, y: seq<real>, a: real, b: real)
    requires OnLine(x, y, a, b) && x != [] && !IsConstant(x)
    ensures CalculateRegressionSlope(x, y, |x|) == Success(a)
    ensures CalculateRegressionIntercept(x, y, a, |x|) == Success(b)
  {
    SlopeOfLine(x, y, a, b);
    MeanOnLine(x, y, a, b);
  }

  /** The slope of (1, 2), (2, 4), (3, 5), (4, 4), (5, 5) is 0.6. */
  lemma SlopeExample()
    ensures CalculateRegressionSlope([1.0, 2.0, 3.0, 4.0, 5.0], [2.0, 4.0, 5.0, 4.0, 5.0], 5) == Success(0.6)
  {
    var x, y := [1.0, 2.0, 3.0, 4.0, 5.0], [2.0, 4.0, 5.0, 4.0, 5.0];
    assert x[..4][..3] == x[..3] && x[..3][..2] == x[..2] && x[..2][..1] == x[..1] && x[..1][..0] == [];
    assert y[..4][..3] == y[..3] && y[..3][..2] == y[..2] && y[..2][..1] == y[..1] && y[..1][..0] == [];
    assert Sum(x[..1]) == 1.0 && Sum(x[..2]) == 3.0 && Sum(x[..3]) == 6.0 && Sum(x[..4]) == 10.0;
    assert Sum(x) == 15.0;
    assert Sum(y[..1]) == 2.0 && Sum(y[..2]) == 6.0 && Sum(y[..3]) == 11.0 && Sum(y[..4]) == 15.0;
    assert Sum(y) == 20.0;
    assert SumSq(x[..1]) == 1.0 && SumSq(x[..2]) == 5.0 && SumSq(x[..3]) == 14.0 && SumSq(x[..4]) == 30.0;
    assert SumSq(x) == 55.0;
    assert SumProd(x[..1], y[..1]) == 2.0 && SumProd(x[..2], y[..2]) == 10.0;
    assert SumProd(x[..3], y[..3]) == 25.0 && SumProd(x[..4], y[..4]) == 41.0;
    assert SumProd(x, y) == 66.0;
    assert Square(15.0) == 225.0;
    assert x[0] != x[1];
  }

  /** Equal x values (a vertical line) are a ZeroDivisionError. */
  lemma VerticalLineExample()
    ensures CalculateRegressionSlope([1.0, 1.0, 1.0, 1.0], [1.0, 2.0, 3.0, 4.0], 4)
         == Failure(ZeroDivisionError(VerticalLineMessage))
  {
    var x := [1.0, 1.0, 1.0, 1.0];
    assert IsConstant(x);
  }

  // ---------------------------------------------------------------------
  // Correlation coefficient

  /** Invalid N or list lengths for the correlation coefficient. */
  predicate InvalidCorrelationInput(x: seq<real>, y: seq<real>, N: int) {
    N < 2 || |x| != N || |y| != N
  }

  /** σ = √(Σ(s − s̄)² / n), the population standard deviation. */
  function Spread(m: Transcendentals, s: seq<real>): real
    requires s != []
  {
    m.sqrt(SumSqDev(s, Mean(s)) / (|s| as real))
  }

  /** cov(x, y) = Σ(x − x̄)(y − ȳ) / n. */
  function Covariance(x: seq<real>, y: seq<real>): real
    requires |x| == |y| && x != []
  {
    SumProdDev(x, y, Mean(x), Mean(y)) / (|x| as real)
  }

  /** rho scaled by σx·σy is the covariance: r·σx·σy = cov(x, y). */
  predicate NormalisesCovariance(m: Transcendentals, x: seq<real>, y: seq<real>, rho: real)
    requires |x| == |y| && x != []
  {
    rho * (Spread(m, x) * Spread(m, y)) == Covariance(x, y)
  }

  /** Dividing the covariance by a non-zero σx·σy normalises it. */
  lemma QuotientNormalises(m: Transcendentals, x: seq<real>, y: seq<real>, denominator: real)
    requires |x| == |y| && x != []
    requires denominator == Spread(m, x) * Spread(m, y) && denominator != 0.0
    ensures NormalisesCovariance(m, x, y, Covariance(x, y) / denominator)
  {
    hide Spread, Covariance;
    DivideThenMultiply(Covariance(x, y), denominator);
  }

  /** `calculate_correlation_coefficient`: Pearson's r = cov(x, y)/(σx·σy).
      Fewer than two points or mismatched lengths are a ValueError; a
      constant x or y (a zero sum of squared deviations) a ZeroDivisionError
      with its own message; and the final division by σx·σy raises Python's
      float division error should that product be 0, which a lawful square
      root never makes it (CorrelationDefined). Past the length check
      N = |x|, so the divisions are written with |x|. */
  function CalculateCorrelationCoefficient(m: Transcendentals, x: seq<real>, y: seq<real>, N: int): (r: Result<real>)
    ensures InvalidCorrelationInput(x, y, N) ==> r == Failure(ValueError(InvalidPairCountMessage))
    ensures !InvalidCorrelationInput(x, y, N) && (IsConstant(x) || IsConstant(y)) ==>
      r == Failure(ZeroDivisionError(ZeroStdDevMessage))
    ensures r.Success? ==> !InvalidCorrelationInput(x, y, N) && !IsConstant(x) && !IsConstant(y)
    ensures r.Success? ==> NormalisesCovariance(m, x, y, r.value)
  {
    if InvalidCorrelationInput(x, y, N) then Failure(ValueError(InvalidPairCountMessage))
    else
      var xStdSum, yStdSum := SumSqDev(x, Mean(x)), SumSqDev(y, Mean(y));
      SpreadZeroIffConstant(x);
      SpreadZeroIffConstant(y);
      if xStdSum == 0.0 || yStdSum == 0.0 then Failure(ZeroDivisionError(ZeroStdDevMessage))
      else
        var denominator := Spread(m, x) * Spread(m, y);
        if denominator == 0.0 then Failure(ZeroDivisionError(FloatDivisionByZero))
        else
          QuotientNormalises(m, x, y, denominator);
          Success(Covariance(x, y) / denominator)
  }

  /** Σ(s − s̄)² vanishes exactly when s is constant. */
  lemma SpreadZeroIffConstant(s: seq<real>)
    requires s != []
    ensures SumSqDev(s, Mean(s)) == 0.0 <==> IsConstant(s)
  {
    ConstantIffAllEqualMean(s);
    SumSqDevZeroIffAllEqual(s, Mean(s));
  }

  /** A non-constant sequence has a positive standard deviation. */
  lemma SpreadPositive(m: Transcendentals, s: seq<real>)
    requires Lawful(m) && s != [] && !IsConstant(s)
    ensures 0.0 < Spread(m, s)
  {
    hide Sum, SumSqDev, Mean;
    SpreadZeroIffConstant(s);
    SumSqDevNonNegative(s, Mean(s));
    SqrtPositive(m, SumSqDev(s, Mean(s)) / (|s| as real));
  }

  /** With a lawful square root, the coefficient exists exactly when
      neither x nor y is constant: the float division error is never
      raised. */
  lemma CorrelationDefined(m: Transcendentals, x: seq<real>, y: seq<real>)
    requires Lawful(m) && !InvalidCorrelationInput(x, y, |x|)
    ensures CalculateCorrelationCoefficient(m, x, y, |x|).Success? <==> !IsConstant(x) && !IsConstant(y)
  {
    hide Sum, SumProdDev, SumSqDev, Mean, Spread, Covariance, Lawful;
    if !IsConstant(x) && !IsConstant(y) {
      SpreadZeroIffConstant(x);
      SpreadZeroIffConstant(y);
      SpreadPositive(m, x);
      SpreadPositive(m, y);
      StrictlyPositiveProduct(Spread(m, x), Spread(m, y));
    }
  }

  /** The coefficient times σx·σy is the covariance. */
  lemma CorrelationNormalisesCovariance(m: Transcendentals, x: seq<real>, y: seq<real>, rho: real)
    requires CalculateCorrelationCoefficient(m, x, y, |x|) == Success(rho)
    ensures |x| == |y| && x != []
    ensures rho * (Spread(m, x) * Spread(m, y)) == Covariance(x, y)
  {
    hide Sum, SumProdDev, SumSqDev, Mean, Spread, Covariance;
    DivideThenMultiply(Covariance(x, y), Spread(m, x) * Spread(m, y));
  }

  /** Scalar core of the bound: |sxy/n| ≤ sx·sy when sxy² ≤ sxx·syy and
      sx, sy are the roots of sxx/n and syy/n. */
  lemma NormalisedBound(sxy: real, sxx: real, syy: real, n: real, sx: real, sy: real)
    requires 0.0 < n && 0.0 <= sx && 0.0 <= sy && sx * sy != 0.0
    requires Square(sx) == sxx / n && Square(sy) == syy / n
    requires Square(sxy) <= sxx * syy
    ensures -1.0 <= (sxy / n) / (sx * sy) <= 1.0
  {
    hide Square;
    var c, d := sxy / n, sx * sy;
    PositiveProduct(sx, sy);
    SquareOfQuotient(c, sxy, n);
    SquareOfRootProduct(d, sx, sy, sxx, syy, n);
    SquareOfNonZeroPositive(n);
    ScaledBelow(Square(c), Square(d), Square(n), Square(sxy), sxx * syy);
    SquareBoundsAbs(c, d);
    RatioBounded(c, d);
  }

  lemma SquareOfQuotient(c: real, p: real, n: real)
    requires n != 0.0 && c == p / n
    ensures Square(c) * Square(n) == Square(p)
  {
    assert c * n == p;
    assert (c * n) * (c * n) == (c * c) * (n * n);
  }

  lemma SquareOfRootProduct(d: real, sx: real, sy: real, sxx: real, syy: real, n: real)
    requires n != 0.0 && d == sx * sy
    requires Square(sx) == sxx / n && Square(sy) == syy / n
    ensures Square(d) * Square(n) == sxx * syy
  {
    calc {
      Square(d) * Square(n);
    ==  { SquareOfProduct(sx, sy); }
      (Square(sx) * Square(sy)) * Square(n);
    ==
      ((sxx / n) * (syy / n)) * Square(n);
    ==  { QuotientsTimesSquare(sxx, syy, n); }
      sxx * syy;
    }
  }

  lemma QuotientsTimesSquare(p: real, q: real, n: real)
    requires n != 0.0
    ensures ((p / n) * (q / n)) * Square(n) == p * q
  {
    calc {
      ((p / n) * (q / n)) * Square(n);
    ==
      ((p / n) * n) * ((q / n) * n);
    ==
      p * q;
    }
  }

  lemma RatioBounded(c: real, d: real)
    requires 0.0 < d && -d <= c <= d
    ensures -1.0 <= c / d <= 1.0
  {
    DivideMonotonic(-d, c, d);
    DivideMonotonic(c, d, d);
  }

  /** a·k ≤ b·k with k > 0 gives a ≤ b. */
  lemma ScaledBelow(a: real, b: real, k: real, p: real, q: real)
    requires 0.0 < k && a * k == p && b * k == q && p <= q
    ensures a <= b
  {
  }

  /** With a lawful square root, Pearson's coefficient lies in [−1, 1]
      (the Cauchy–Schwarz inequality). */
  lemma CorrelationBounded(m: Transcendentals, x: seq<real>, y: seq<real>, rho: real)
    requires Lawful(m)
    requires CalculateCorrelationCoefficient(m, x, y, |x|) == Success(rho)
    ensures -1.0 <= rho <= 1.0
  {
    hide Sum, SumProdDev, SumSqDev, Mean, Spread, Square, Lawful, CalculateCorrelationCoefficient;
    var n := |x| as real;
    var sxx, syy := SumSqDev(x, Mean(x)), SumSqDev(y, Mean(y));
    var sxy := SumProdDev(x, y, Mean(x), Mean(y));
    SumSqDevNonNegative(x, Mean(x));
    SumSqDevNonNegative(y, Mean(y));
    CauchySchwarz(x, y, Mean(x), Mean(y));
    CorrelationValue(m, x, y, rho);
    SpreadIsRoot(m, x, |x|);
    SpreadIsRoot(m, y, |x|);
    NormalisedBound(sxy, sxx, syy, n, Spread(m, x), Spread(m, y));
  }

  /** σ is the non-negative root of Σ(s − s̄)²/n, for n = |s|. */
  lemma SpreadIsRoot(m: Transcendentals, s: seq<real>, n: nat)
    requires Lawful(m) && s != [] && n == |s|
    ensures 0.0 <= Spread(m, s)
    ensures Square(Spread(m, s)) == SumSqDev(s, Mean(s)) / (n as real)
  {
    hide Sum, SumSqDev, Mean;
    SumSqDevNonNegative(s, Mean(s));
  }

  /** The coefficient spelled out: cov(x, y)/(σx·σy), with σx·σy ≠ 0. */
  lemma CorrelationValue(m: Transcendentals, x: seq<real>, y: seq<real>, rho: real)
    requires CalculateCorrelationCoefficient(m, x, y, |x|) == Success(rho)
    ensures |x| == |y| && x != []
    ensures Spread(m, x) * Spread(m, y) != 0.0
    ensures rho == Covariance(x, y) / (Spread(m, x) * Spread(m, y))
  {
    hide Sum, SumProdDev, SumSqDev, Mean, Spread, Covariance;
  }

  /** Swapping x and y gives the same result. */
  lemma CorrelationSymmetric(m: Transcendentals, x: seq<real>, y: seq<real>, N: int)
    ensures CalculateCorrelationCoefficient(m, x, y, N) == CalculateCorrelationCoefficient(m, y, x, N)
  {
    if !InvalidCorrelationInput(x, y, N) {
      hide Sum, SumProdDev, SumSqDev, Mean, Spread;
      SumProdDevSymmetric(x, y, Mean(x), Mean(y));
      assert Covariance(x, y) == Covariance(y, x);
      assert Spread(m, x) * Spread(m, y) == Spread(m, y) * Spread(m, x);
    }
  }

  /** Scalar core of CorrelationOfLine: with sxy = a·sxx and sy = |a|·sx,
      the ratio ρ of sxy/n to sx·sy is the sign of a. */
  lemma SignOfSlope(a: real, sxy: real, sxx: real, n: real, sx: real, sy: real, cov: real, rho: real)
    requires 0.0 < n && 0.0 < sxx && a != 0.0 && Square(sx) == sxx / n
    requires sxy == a * sxx && cov == sxy / n && sy == Abs(a) * sx
    requires rho * (sx * sy) == cov
    ensures rho == if 0.0 < a then 1.0 else -1.0
  {
    var t := sxx / n;
    assert 0.0 < t;
    assert cov == a * t;
    assert sx * sy == Abs(a) * t;
    assert (rho * Abs(a)) * t == a * t;
    CancelFactor(rho * Abs(a), a, t);
    if 0.0 < a {
      CancelFactor(rho, 1.0, a);
    } else {
      CancelFactor(rho, -1.0, -a);
    }
  }

  /** On a line of slope a, σy = |a|·σx. */
  lemma LineSpread(m: Transcendentals, x: seq<real>, y: seq<real>, a: real)
    requires Lawful(m) && x != [] && |y| == |x|
    requires SumSqDev(y, Mean(y)) == Square(a) * SumSqDev(x, Mean(x))
    ensures Spread(m, y) == Abs(a) * Spread(m, x)
  {
    hide Sum, SumSqDev, Mean, Lawful, Square;
    SpreadIsRoot(m, x, |x|);
    ScaledRoot(a, Spread(m, x), SumSqDev(x, Mean(x)), SumSqDev(y, Mean(y)), |x| as real, |y| as real);
    SqrtUnique(m, SumSqDev(y, Mean(y)) / (|y| as real), Abs(a) * Spread(m, x));
  }

  /** Scalar core of LineSpread: |a|·sx is the non-negative root of
      syy/n when sx is that of sxx/n and syy = a²·sxx. */
  lemma ScaledRoot(a: real, sx: real, sxx: real, syy: real, nx: real, ny: real)
    requires 0.0 < nx && nx == ny && 0.0 <= sx
    requires Square(sx) == sxx / nx && syy == Square(a) * sxx
    ensures 0.0 <= Abs(a) * sx
    ensures (Abs(a) * sx) * (Abs(a) * sx) == syy / ny
  {
    PositiveProduct(Abs(a), sx);
    calc {
      (Abs(a) * sx) * (Abs(a) * sx);
    ==
      (Abs(a) * Abs(a)) * (sx * sx);
    ==
      Square(a) * Square(sx);
    ==
      Square(a) * (sxx / nx);
    ==
      syy / ny;
    }
  }

  /** The sums of points on a line y = a·x + b with a ≠ 0 and x not constant. */
  lemma LineSums(m: Transcendentals, x: seq<real>, y: seq<real>, a: real, b: real)
    requires Lawful(m) && OnLine(x, y, a, b) && x != [] && !IsConstant(x) && a != 0.0
    ensures !IsConstant(y) && 0.0 < SumSqDev(x, Mean(x))
    ensures SumProdDev(x, y, Mean(x), Mean(y)) == a * SumSqDev(x, Mean(x))
    ensures Spread(m, y) == Abs(a) * Spread(m, x)
  {
    hide Sum, SumProdDev, SumSqDev, Mean, Spread, Lawful, IsConstant;
    MeanOnLine(x, y, a, b);
    SumProdDevOnLine(x, y, a, b, Mean(x), Mean(y));
    SumSqDevOnLine(x, y, a, b, Mean(x), Mean(y));
    SpreadZeroIffConstant(x);
    SumSqDevNonNegative(x, Mean(x));
    LineSpread(m, x, y, a);
    SquareOfNonZeroPositive(a);
    ProductZeroIff(Square(a), SumSqDev(x, Mean(x)));
    SpreadZeroIffConstant(y);
  }

  /** Points on a line y = a·x + b with a ≠ 0 and x not constant are
      perfectly correlated: r = 1 for a rising line and −1 for a falling one. */
  lemma CorrelationOfLine(m: Transcendentals, x: seq<real>, y: seq<real>, a: real, b: real)
    requires Lawful(m) && OnLine(x, y, a, b) && 2 <= |x| && !IsConstant(x) && a != 0.0
    ensures CalculateCorrelationCoefficient(m, x, y, |x|) == Success(if 0.0 < a then 1.0 else -1.0)
  {
    hide Sum, SumProdDev, SumSqDev, Mean, Spread, Lawful, IsConstant;
    LineSums(m, x, y, a, b);
    CorrelationDefined(m, x, y);
    var rho := CalculateCorrelationCoefficient(m, x, y, |x|).value;
    CorrelationNormalisesCovariance(m, x, y, rho);
    SpreadIsRoot(m, x, |x|);
    SignOfSlope(a, SumProdDev(x, y, Mean(x), Mean(y)), SumSqDev(x, Mean(x)), |x| as real,
      Spread(m, x), Spread(m, y), Covariance(x, y), rho);
  }
}
