/** The numeric helpers of `utils/math_tools.py`, the second copy of the
    analyser: the activity factor, the coefficients of one frequency with
    the 1-based sample index, the per-sample Fourier table and the summary
    statistics of two series. numpy's vectorised sums are sequence sums and
    `np.corrcoef` is a parameter. */
module MathTools {
  import opened Wrappers
  import opened RealMath
  import MetabolicFormulas
  import FourierAnalysis
  import Statistics

  // ---------------------------------------------------------------------
  // Activity factor

  /** `calculate_activity_factor`: 1.2 plus 0.01 per exercise minute, the
      same factor as the other copy's `calculate_af`, and never below the
      sedentary 1.2 for a non-negative number of minutes. */
  function CalculateActivityFactor(minutes: real): (f: real)
    ensures f == MetabolicFormulas.CalculateAf(minutes)
    ensures 0.0 <= minutes ==> 1.2 <= f
  {
    1.2 + 0.01 * minutes
  }

  // ---------------------------------------------------------------------
  // Coefficients of one frequency

  /** The tuple (a_k, b_k, Ak, log10_Ak). */
  datatype FourierTerm = FourierTerm(a: real, b: real, amplitude: real, logAmplitude: real)

  /** `calculate_fourier_coefficients`: for N = |x| > 0, the coefficients
      of frequency k over the samples n = 1 … N (sample n is x[n − 1]),
      with log10 of the amplitude replaced by 0.0 unless the amplitude is
      positive; the empty series gives four zeros. */
  function CalculateFourierCoefficients(m: Transcendentals, x: seq<real>, k: int): (r: FourierTerm)
    ensures x == [] ==> r == FourierTerm(0.0, 0.0, 0.0, 0.0)
    ensures r.amplitude <= 0.0 ==> r.logAmplitude == 0.0
    ensures 0.0 < r.amplitude ==> r.logAmplitude == m.log10(r.amplitude)
  {
    if |x| == 0 then FourierTerm(0.0, 0.0, 0.0, 0.0)
    else
      var N := |x|;
      var a := FourierAnalysis.CosineCoefficient(m, x, N, k, 1);
      var b := FourierAnalysis.SineCoefficient(m, x, N, k, 1);
      var amplitude := FourierAnalysis.Amplitude(m, a, b);
      FourierTerm(a, b, amplitude, if amplitude > 0.0 then m.log10(amplitude) else 0.0)
  }

  /** Ak is the Euclidean norm of (a_k, b_k), and log10_Ak falls back to
      0.0 exactly when both coefficients vanish. */
  lemma FourierTermIsNorm(m: Transcendentals, x: seq<real>, k: int)
    requires Lawful(m)
    ensures var r := CalculateFourierCoefficients(m, x, k);
      && 0.0 <= r.amplitude
      && Square(r.amplitude) == Square(r.a) + Square(r.b)
      && (r.amplitude == 0.0 <==> r.a == 0.0 && r.b == 0.0)
      && (r.a == 0.0 && r.b == 0.0 ==> r.logAmplitude == 0.0)
      && (r.a != 0.0 || r.b != 0.0 ==> r.logAmplitude == m.log10(r.amplitude))
  {
    var r := CalculateFourierCoefficients(m, x, k);
    if x != [] {
      FourierAnalysis.AmplitudeIsNorm(m, r.a, r.b);
    }
  }

  /** This copy and `calculate_specific_fourier_coefficients` of the other
      copy agree: with N = |x|, entry k − 1 of the specific spectrum is
      this function's (a_k, b_k, Ak) for every k = 1 … max_k. */
  lemma AgreesWithSpecificSpectrum(m: Transcendentals, x: seq<real>, maxK: nat,
                                   ak: seq<real>, bk: seq<real>, amplitudes: seq<real>, k: int)
    requires x != []
    requires FourierAnalysis.IsSpectrum(m, x, |x|, 1, 1, maxK, ak, bk, amplitudes)
    requires 1 <= k <= maxK
    ensures CalculateFourierCoefficients(m, x, k).a == ak[k - 1]
    ensures CalculateFourierCoefficients(m, x, k).b == bk[k - 1]
    ensures CalculateFourierCoefficients(m, x, k).amplitude == amplitudes[k - 1]
  {
    assert 1 + (k - 1) == k;
  }

  /** At k = 0 the coefficient a_0 is (2/N)·Σx, b_0 = 0 and A_0 = |a_0|. */
  lemma FourierTermAtZeroFrequency(m: Transcendentals, x: seq<real>)
    requires Lawful(m) && x != []
    ensures CalculateFourierCoefficients(m, x, 0).a == (2.0 / (|x| as real)) * Sum(x)
    ensures CalculateFourierCoefficients(m, x, 0).b == 0.0
    ensures CalculateFourierCoefficients(m, x, 0).amplitude == Abs(CalculateFourierCoefficients(m, x, 0).a)
  {
    hide Sum, Lawful, FourierAnalysis.CosineCoefficient, FourierAnalysis.SineCoefficient, FourierAnalysis.Amplitude;
    FourierAnalysis.ZeroFrequencyTerm(m, x, |x|, 1);
    assert x[..|x|] == x;
  }

  // ---------------------------------------------------------------------
  // Fourier table

  /** One row of the table: 'n', 'x', 'cos', 'sin', 'x_cos' and 'x_sin'. */
  datatype TableRow = TableRow(n: int, x: real, cos: real, sin: real, xCos: real, xSin: real)

  /** The row of sample n = i + 1, at angle 2πk·n/N with N = |x|. */
  function RowAt(m: Transcendentals, x: seq<real>, k: int, i: nat): TableRow
    requires i < |x|
  {
    var angle := FourierAnalysis.Angle(m.pi, k, i + 1, |x|);
    var cosTerm, sinTerm := m.cos(angle), m.sin(angle);
    TableRow(i + 1, x[i], cosTerm, sinTerm, x[i] * cosTerm, x[i] * sinTerm)
  }

  /** The table has one row per sample, in sample order. */
  predicate IsFourierTable(m: Transcendentals, x: seq<real>, k: int, table: seq<TableRow>) {
    && |table| == |x|
    && forall i :: 0 <= i < |table| ==> table[i] == RowAt(m, x, k, i)
  }

  /** `calculate_fourier_table`: the enumerate loop from n = 1 appends one
      row per sample; the empty series gives the empty table. */
  method CalculateFourierTable(m: Transcendentals, x: seq<real>, k: int) returns (table: seq<TableRow>)
    ensures IsFourierTable(m, x, k, table)
  {
    table := [];
    if |x| == 0 {
      return;
    }
    var N := |x|;
    var i := 1;
    while i <= N
      invariant 1 <= i <= N + 1
      invariant |table| == i - 1
      invariant forall j :: 0 <= j < i - 1 ==> table[j] == RowAt(m, x, k, j)
    {
      var xi := x[i - 1];
      var cosTerm := m.cos(FourierAnalysis.Angle(m.pi, k, i, N));
      var sinTerm := m.sin(FourierAnalysis.Angle(m.pi, k, i, N));
      table := table + [TableRow(i, xi, cosTerm, sinTerm, xi * cosTerm, xi * sinTerm)];
      i := i + 1;
    }
  }

  /** Row i is sample n = i + 1: it holds x[i], and its products are x·cos
      and x·sin of that row. */
  lemma TableRowsAreSamples(m: Transcendentals, x: seq<real>, k: int, table: seq<TableRow>, i: int)
    requires IsFourierTable(m, x, k, table) && 0 <= i < |table|
    ensures table[i].n == i + 1 && table[i].x == x[i]
    ensures table[i].cos == m.cos(FourierAnalysis.Angle(m.pi, k, table[i].n, |x|))
    ensures table[i].sin == m.sin(FourierAnalysis.Angle(m.pi, k, table[i].n, |x|))
    ensures table[i].xCos == table[i].x * table[i].cos
    ensures table[i].xSin == table[i].x * table[i].sin
  {
  }

  /** The 'x_cos' column. */
  function XCosColumn(table: seq<TableRow>): (c: seq<real>)
    ensures |c| == |table|
  {
    if table == [] then [] else XCosColumn(table[..|table| - 1]) + [table[|table| - 1].xCos]
  }

  /** The 'x_sin' column. */
  function XSinColumn(table: seq<TableRow>): (c: seq<real>)
    ensures |c| == |table|
  {
    if table == [] then [] else XSinColumn(table[..|table| - 1]) + [table[|table| - 1].xSin]
  }

  /** Summing the first i rows of the product columns gives the first i
      terms of the coefficient sums with the 1-based angle. */
  lemma {:induction false} ColumnPrefixSums(m: Transcendentals, x: seq<real>, k: int, table: seq<TableRow>, i: nat)
    requires IsFourierTable(m, x, k, table) && x != [] && i <= |table|
    ensures Sum(XCosColumn(table[..i])) == FourierAnalysis.CosSum(m, x, |x|, k, 1, i)
    ensures Sum(XSinColumn(table[..i])) == FourierAnalysis.SinSum(m, x, |x|, k, 1, i)
  {
    if i == 0 {
      assert table[..i] == [];
    } else {
      hide Sum, XCosColumn, XSinColumn, FourierAnalysis.CosSum, FourierAnalysis.SinSum, IsFourierTable;
      ColumnPrefixSums(m, x, k, table, i - 1);
      ColumnSnoc(table, i);
      RowTerms(m, x, k, table, i);
    }
  }

  /** Row i − 1 adds its 'x_cos' and 'x_sin' to the column sums. */
  lemma ColumnSnoc(table: seq<TableRow>, i: nat)
    requires 0 < i <= |table|
    ensures Sum(XCosColumn(table[..i])) == Sum(XCosColumn(table[..i - 1])) + table[i - 1].xCos
    ensures Sum(XSinColumn(table[..i])) == Sum(XSinColumn(table[..i - 1])) + table[i - 1].xSin
  {
    assert table[..i][..i - 1] == table[..i - 1];
    SumSnoc(XCosColumn(table[..i]));
    SumSnoc(XSinColumn(table[..i]));
  }

  /** Row i − 1 holds the i-th term of each coefficient sum. */
  lemma RowTerms(m: Transcendentals, x: seq<real>, k: int, table: seq<TableRow>, i: nat)
    requires IsFourierTable(m, x, k, table) && 0 < i <= |table|
    ensures FourierAnalysis.CosSum(m, x, |x|, k, 1, i)
         == FourierAnalysis.CosSum(m, x, |x|, k, 1, i - 1) + table[i - 1].xCos
    ensures FourierAnalysis.SinSum(m, x, |x|, k, 1, i)
         == FourierAnalysis.SinSum(m, x, |x|, k, 1, i - 1) + table[i - 1].xSin
  {
    assert table[i - 1] == RowAt(m, x, k, i - 1);
  }

  /** The table is the working of the coefficients: (2/N) times the sum of
      its 'x_cos' column is a_k, and likewise 'x_sin' gives b_k. */
  lemma TableColumnsGiveCoefficients(m: Transcendentals, x: seq<real>, k: int, table: seq<TableRow>)
    requires IsFourierTable(m, x, k, table) && x != []
    ensures (2.0 / (|x| as real)) * Sum(XCosColumn(table)) == CalculateFourierCoefficients(m, x, k).a
    ensures (2.0 / (|x| as real)) * Sum(XSinColumn(table)) == CalculateFourierCoefficients(m, x, k).b
  {
    hide Sum, XCosColumn, XSinColumn, FourierAnalysis.CosSum, FourierAnalysis.SinSum;
    ColumnPrefixSums(m, x, k, table, |table|);
    assert table[..|table|] == table;
    assert FourierAnalysis.RangeLength(|x|) == |table|;
  }

  // ---------------------------------------------------------------------
  // Summary statistics

  /** The fields of `StatisticalAnalysis`. */
  datatype StatisticalAnalysis = StatisticalAnalysis(
    meanX: real, meanY: real,
    varianceX: real, varianceY: real,
    correlation: real,
    xySum: real, x2Sum: real, y2Sum: real)

  /** numpy refuses to combine series of different lengths. */
  const ShapeMismatchMessage := "operands could not be broadcast together"

  /** Population variance, `np.var`: the mean squared deviation. */
  function Variance(s: seq<real>): real
    requires s != []
  {
    SumSqDev(s, Statistics.Mean(s)) / (|s| as real)
  }

  /** `calculate_statistics`: means, population variances, the Pearson
      coefficient from `corrcoef`, Σxy, Σx² and Σy². Series of different
      lengths make numpy raise ValueError; two empty series give NaN. */
  function CalculateStatistics(corrcoef: (seq<real>, seq<real>) -> real, x: seq<real>, y: seq<real>)
    : (r: Result<StatisticalAnalysis>)
    ensures r.Success? <==> |x| == |y| && x != []
    ensures |x| != |y| ==> r == Failure(ValueError(ShapeMismatchMessage))
    ensures |x| == |y| == 0 ==> r == Failure(NotANumber)
    ensures r.Success? ==>
      && IsMeanOf(r.value.meanX, x) && IsMeanOf(r.value.meanY, y)
      && IsVarianceOf(r.value.varianceX, x) && IsVarianceOf(r.value.varianceY, y)
      && r.value.correlation == corrcoef(x, y)
      && r.value.xySum == SumProd(x, y)
      && r.value.x2Sum == SumSq(x)
      && r.value.y2Sum == SumSq(y)
  {
    if |x| != |y| then Failure(ValueError(ShapeMismatchMessage))
    else if x == [] then Failure(NotANumber)
    else
      MeansAndVariancesTimesLength(x, y);
      Success(StatisticalAnalysis(
        Statistics.Mean(x), Statistics.Mean(y),
        Variance(x), Variance(y),
        corrcoef(x, y),
        SumProd(x, y), SumSq(x), SumSq(y)))
  }

  /** n·var(s) is the sum of squared deviations about the mean. */
  lemma VarianceTimesLength(s: seq<real>)
    requires s != []
    ensures (|s| as real) * Variance(s) == SumSqDev(s, Statistics.Mean(s))
  {
    hide SumSqDev, Statistics.Mean;
    DivideThenMultiply(SumSqDev(s, Statistics.Mean(s)), |s| as real);
  }

  /** v is the arithmetic mean of s: n·v = Σs. */
  predicate IsMeanOf(v: real, s: seq<real>) {
    (|s| as real) * v == Sum(s)
  }

  /** v is the population variance of s: n·v = Σ(s − s̄)². */
  predicate IsVarianceOf(v: real, s: seq<real>)
    requires s != []
  {
    (|s| as real) * v == SumSqDev(s, Statistics.Mean(s))
  }

  /** The means and variances of both series, for `calculate_statistics`. */
  lemma MeansAndVariancesTimesLength(x: seq<real>, y: seq<real>)
    requires x != [] && |y| == |x|
    ensures IsMeanOf(Statistics.Mean(x), x) && IsMeanOf(Statistics.Mean(y), y)
    ensures IsVarianceOf(Variance(x), x) && IsVarianceOf(Variance(y), y)
  {
    hide Sum, SumSqDev, Statistics.Mean, Variance;
    Statistics.MeanTimesLength(x);
    Statistics.MeanTimesLength(y);
    VarianceTimesLength(x);
    VarianceTimesLength(y);
  }

  /** The variances are non-negative and obey var = E[x²] − E[x]²: each is
      the mean of the squares, x2_sum/N, less the square of the mean. */
  lemma VariancesFromSums(corrcoef: (seq<real>, seq<real>) -> real, x: seq<real>, y: seq<real>)
    requires CalculateStatistics(corrcoef, x, y).Success?
    ensures var s := CalculateStatistics(corrcoef, x, y).value;
      && 0.0 <= s.varianceX && 0.0 <= s.varianceY
      && s.varianceX == s.x2Sum / (|x| as real) - Square(s.meanX)
      && s.varianceY == s.y2Sum / (|y| as real) - Square(s.meanY)
  {
    VarianceIsMeanSquareLessSquareMean(x);
    VarianceIsMeanSquareLessSquareMean(y);
  }

  /** var(s) ≥ 0 and var(s) = Σs²/n − mean(s)². */
  lemma VarianceIsMeanSquareLessSquareMean(s: seq<real>)
    requires s != []
    ensures 0.0 <= Variance(s)
    ensures Variance(s) == SumSq(s) / (|s| as real) - Square(Statistics.Mean(s))
  {
    hide Sum, SumSq, SumSqDev, Statistics.Mean;
    SumSqDevNonNegative(s, Statistics.Mean(s));
    DivideMonotonic(0.0, SumSqDev(s, Statistics.Mean(s)), |s| as real);
    Statistics.MeanTimesLength(s);
    Statistics.CenteredSquareIdentity(s, Statistics.Mean(s));
    ScaledIdentityDivided(|s| as real, SumSqDev(s, Statistics.Mean(s)), SumSq(s), Sum(s), Statistics.Mean(s));
  }

  /** From n·d = n·q − t² and n·c = t, with n > 0: d/n = q/n − c². */
  lemma ScaledIdentityDivided(n: real, d: real, q: real, t: real, c: real)
    requires 0.0 < n && n * d == n * q - Square(t) && n * c == t
    ensures d / n == q / n - Square(c)
  {
    var e := Square(c);
    assert Square(t) == n * (n * e) by {
      assert Square(t) == (n * c) * (n * c);
    }
    assert n * (d - q + n * e) == 0.0;
    ProductZeroIff(n, d - q + n * e);
    assert (d - q) / n == -e;
    assert d / n - q / n == (d - q) / n;
  }
}
