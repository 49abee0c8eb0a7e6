# Metabolic expenditure analyser — a Dafny model of its numeric core

The analyser estimates a person's daily energy expenditure. It computes the
basal metabolic rate (TMB, revised Harris–Benedict equations) and an
activity factor per day (AF = 1.2 + 0.01·minutes). Their product is the gross
daily expenditure (GB). The GB series then goes through a discrete Fourier
analysis (coefficients a_k, b_k, amplitudes A_k). The log–log points
(log10 k, log10 A_k) are fitted by least squares (slope α, intercept C) and
summarised by Pearson's r.

The code exists in two divergent copies, and both are modelled:

- `metabolic_app/src/...`: the metabolic formulas, the Fourier loops, the
  statistics, the input validators, and the calculation order of the main
  window.
- `src/...`: the `Person` record and the numpy helpers of `math_tools.py`.

Modules, one per source file, plus two shared ones:

| module | file | models |
|---|---|---|
| `Wrappers` | wrappers.dfy | `Option`, `Result`, and the Python exceptions as `Error` values |
| `RealMath` | real_math.dfy | the transcendental functions as a parameter; sums over sequences; real-arithmetic lemmas |
| `MetabolicFormulas` | metabolic.dfy | `models/metabolic.py` |
| `FourierAnalysis` | fourier.dfy | `models/fourier.py` (the coefficient and log loops are methods with loop invariants) |
| `Statistics` | statistics.dfy | `models/statistics.py` |
| `InputHelpers` | helpers.dfy | `utils/helpers.py` |
| `MathTools` | math_tools.dfy | `utils/math_tools.py` (the table loop is a method) |
| `PersonModel` | person.dfy | `models/person.py` |
| `MainView` | main_view.dfy | the calculation order of `views/main_view.py` |

How the Python is represented:

- **Numbers.** Arithmetic is exact (`real`).
- **Transcendentals.** `pi`, `sqrt`, `cos`, `sin` and `log10` are fields of a
  `Transcendentals` value passed in. `Lawful(m)` assumes only three facts:
  `sqrt` is the non-negative square root on x ≥ 0, cos 0 = 1, and sin 0 = 0.
- **Exceptions.** Every Python exception is a `Failure` carrying the
  exception kind, and the message where the source raises the exception
  itself or Python's message is fixed:
  - `ValueError`, with the source's own messages, math's "math domain
    error", and the opening words of numpy's shape-mismatch message;
  - `ZeroDivisionError`, with the source's message or Python's own "float
    division by zero" and "division by zero";
  - `IndexError`, without a message;
  - numpy's NaN result, as `NotANumber`.
- **Parsing.** `float()` and `int()` string parsing is a parameter that
  returns `None` where Python raises.

The two copies use different Fourier angle conventions, and both are kept.
`models/fourier.py:16` uses 2πkn/N over data indices n = 0 … N−1.
`models/fourier.py:76` and `utils/math_tools.py:49-50` use the 1-based
sample n + 1. An `offset` parameter (0 or 1) distinguishes them.
Both 1-based variants are defined through the same sums, so they agree by
construction (`MathTools.AgreesWithSpecificSpectrum`). The real link between
the copies is `MathTools.TableColumnsGiveCoefficients`: the columns of the
per-sample table give those coefficients.

The log filter at `models/fourier.py:108-110` skips a pair only when k or
A_k is exactly zero. A negative k or A_k therefore reaches `math.log10`,
and the model includes the ValueError that log10 raises.
`MainView.NoLogDomainError` shows this cannot happen on the spectra that
the main window produces.

## Model

| member | source | states |
|---|---|---|
| MetabolicFormulas.CalculateTmb | metabolic_app/src/models/metabolic.py:18-24 | Succeeds exactly for "Masculino" and "Femenino". These give the male equation 88.362 + 13.397·w + 4.799·h − 5.677·a and the female equation 447.593 + 9.247·w + 3.098·h − 4.333·a. Every other string is a ValueError with the source's message. |
| MetabolicFormulas.CalculateAf | metabolic_app/src/models/metabolic.py:35 | The factor gives the minutes back: (AF − 1.2)·100 = minutes, so each minute adds 0.01. |
| MetabolicFormulas.CalculateGb | metabolic_app/src/models/metabolic.py:48 | GB divided by a non-zero AF gives the TMB back, and GB = 0 when AF = 0. |
| MetabolicFormulas.TmbIsLinear | metabolic_app/src/models/metabolic.py:19-21 | One more kg adds 13.397 (men) or 9.247 (women). One more cm adds 4.799 or 3.098. One more year subtracts 5.677 or 4.333. |
| MetabolicFormulas.AfOfNoExercise | metabolic_app/src/models/metabolic.py:35 | AF(0) = 1.2, the sedentary factor. |
| MetabolicFormulas.AfIsStrictlyIncreasing | metabolic_app/src/models/metabolic.py:35 | m1 < m2 exactly when AF(m1) < AF(m2); AF ≥ 1.2 for non-negative minutes. |
| MetabolicFormulas.GbOfExerciseDay | metabolic_app/src/models/metabolic.py:35-48 | For TMB ≥ 0 and 0 ≤ m1 ≤ m2: 1.2·TMB ≤ GB(m1) ≤ GB(m2). |
| FourierAnalysis.CalculateAngularFrequency | metabolic_app/src/models/fourier.py:16 | N = 0 is exactly the float ZeroDivisionError. Otherwise the result θ satisfies θ·N = 2πkn. |
| FourierAnalysis.AngleVanishes | metabolic_app/src/models/fourier.py:16 | The angle is 0 when k = 0 or n = 0. |
| FourierAnalysis.AngleStep | metabolic_app/src/models/fourier.py:76 | The 1-based angle of sample n equals the 0-based angle of n plus the step 2πk/N. |
| FourierAnalysis.AccumulateSums | metabolic_app/src/models/fourier.py:38-45 | The inner loop over range(N) yields Σ data[n]·cos(2πk(n+offset)/N) and the matching sine sum. |
| FourierAnalysis.Coefficient | metabolic_app/src/models/fourier.py:48-50 | a_k = (2/N)·cosine sum, b_k = (2/N)·sine sum, A_k = √(a_k² + b_k²). |
| FourierAnalysis.CalculateFourierCoefficients | metabolic_app/src/models/fourier.py:18-52 | N < 0 gives empty lists. N = 0 is the float division error. N > \|data\| is an IndexError. Otherwise the three lists have length N//2 + 1, and entry i holds the coefficients of k = i with the 0-based angle. |
| FourierAnalysis.CalculateSpecificFourierCoefficients | metabolic_app/src/models/fourier.py:54-89 | max_k < 1 gives four empty lists. Otherwise N = 0 is the integer division error and N > \|data\| an IndexError. Else k_values = [1 … max_k], and entry i of the other three lists is the 1-based coefficient triple of k = i + 1. |
| FourierAnalysis.AmplitudeIsNorm | metabolic_app/src/models/fourier.py:50 | A ≥ 0, A² = a² + b², and A = 0 exactly when a = b = 0. |
| FourierAnalysis.AmplitudeOfCosineOnly | metabolic_app/src/models/fourier.py:50 | With b = 0 the amplitude is \|a\|. |
| FourierAnalysis.SpectrumAmplitudesNonNegative | metabolic_app/src/models/fourier.py:82 | Every amplitude of a computed spectrum is ≥ 0. |
| FourierAnalysis.SumsAtZeroFrequency | metabolic_app/src/models/fourier.py:42-45 | At k = 0 the cosine sum is the plain sum of the samples and the sine sum is 0, for either convention. |
| FourierAnalysis.ZeroFrequencyTerm | metabolic_app/src/models/fourier.py:37-50 | a_0 = (2/N)·Σ data[..N], b_0 = 0, A_0 = \|a_0\|. |
| FourierAnalysis.NegativeLengthGivesZeros | metabolic_app/src/models/fourier.py:74-81 | For N < 0, range(N) is empty and both coefficients are 0. |
| FourierAnalysis.FourSampleSpectrum | metabolic_app/test/test_fourier.py:15-58 | For samples 10, 20, 30, 40 at the quarter turns: a = [50, −10, −10], b = [0, −10, 0], A = [50, √200, 10]. |
| FourierAnalysis.FourSamplesAtZero | metabolic_app/test/test_fourier.py:22-26 | a_0 = 50 and b_0 = 0 for 10, 20, 30, 40. |
| FourierAnalysis.FourSamplesAtOne | metabolic_app/test/test_fourier.py:28-37 | a_1 = b_1 = −10 for 10, 20, 30, 40. |
| FourierAnalysis.FourSamplesAtTwo | metabolic_app/test/test_fourier.py:39-48 | a_2 = −10 and b_2 = 0 for 10, 20, 30, 40. |
| FourierAnalysis.Zip | metabolic_app/src/models/fourier.py:107 | Python's zip: pairs up to the shorter length, pair i is (k[i], A[i]). |
| FourierAnalysis.CalculateLogTransformations | metabolic_app/src/models/fourier.py:91-114 | Fails exactly when a kept pair (k ≠ 0, A ≠ 0) is negative, with math's domain error. Otherwise the two lists are the log10 images of the kept pairs, in order. |
| FourierAnalysis.KeptSound | metabolic_app/src/models/fourier.py:107-112 | Every kept pair comes from the input and has k ≠ 0 and A ≠ 0. |
| FourierAnalysis.KeptComplete | metabolic_app/src/models/fourier.py:107-112 | Every input pair with k ≠ 0 and A ≠ 0 is kept. |
| FourierAnalysis.KeptPrefix | metabolic_app/src/models/fourier.py:107-112 | The kept pairs of a prefix are a prefix of the kept pairs, so order is preserved. |
| FourierAnalysis.KeptAllWhenNoneSkipped | metabolic_app/test/test_fourier.py:60-71 | With no zero k or A, every zipped pair is kept. |
| FourierAnalysis.KeptExample | metabolic_app/test/test_fourier.py:73-85 | k = [0, 1, 2] with A = [5, 10, 0] keeps only (1, 10). |
| Statistics.CalculateMean | metabolic_app/src/models/statistics.py:15-17 | The empty list is exactly the ValueError. Otherwise \|data\|·mean = Σ data. |
| Statistics.MeanExample | metabolic_app/test/test_statistics.py:5-9 | The mean of 1 … 5 is 3. |
| Statistics.CalculateStdDev | metabolic_app/src/models/statistics.py:32-35 | The empty list is exactly the ValueError. |
| Statistics.StdDevIsRootMeanSquare | metabolic_app/src/models/statistics.py:34-35 | σ ≥ 0, n·σ² = Σ(x − mean)², and σ = 0 exactly when every element equals the given mean. |
| Statistics.SlopeDenominatorZeroIffConstant | metabolic_app/src/models/statistics.py:60-62 | N·Σx² − (Σx)² = 0 exactly when all x are equal. |
| Statistics.CalculateRegressionSlope | metabolic_app/src/models/statistics.py:52-65 | N = 0 or a length ≠ N is the ValueError. Otherwise the slope exists exactly when x is not constant, and a constant x is the ZeroDivisionError of the vertical line. |
| Statistics.SlopeSolvesNormalEquation | metabolic_app/src/models/statistics.py:55-65 | The slope solves the least-squares normal equation α·Σ(x − x̄)² = Σ(x − x̄)(y − ȳ). |
| Statistics.CalculateRegressionIntercept | metabolic_app/src/models/statistics.py:82-88 | The same ValueError guard. Otherwise, for any α, the line of slope α through C passes through the centroid: ȳ = α·x̄ + C. |
| Statistics.SlopeOfLine | metabolic_app/src/models/statistics.py:55-65 | Points on a non-vertical line y = a·x + b have slope a. |
| Statistics.RegressionRecoversLine | metabolic_app/src/models/statistics.py:52-88 | Points on a non-vertical line y = a·x + b give back slope a and intercept b. |
| Statistics.SlopeExample | metabolic_app/test/test_statistics.py:30-38 | x = 1 … 5, y = 2, 4, 5, 4, 5 gives slope 0.6. |
| Statistics.VerticalLineExample | metabolic_app/test/test_statistics.py:40-46 | x = 1, 1, 1, 1 is the ZeroDivisionError. |
| Statistics.CalculateCorrelationCoefficient | metabolic_app/src/models/statistics.py:105-123 | N < 2 or a length ≠ N is the ValueError. A constant x or y is the ZeroDivisionError with its message. A result implies valid lengths and non-constant x and y, and it normalises the covariance: r·σx·σy = cov(x, y). |
| Statistics.SpreadZeroIffConstant | metabolic_app/src/models/statistics.py:112-116 | Σ(s − s̄)² = 0 exactly when s is constant. |
| Statistics.SpreadPositive | metabolic_app/src/models/statistics.py:123 | A non-constant sequence has σ > 0. |
| Statistics.SpreadIsRoot | metabolic_app/src/models/statistics.py:123 | σ ≥ 0 and σ² = Σ(s − s̄)²/n. |
| Statistics.CorrelationDefined | metabolic_app/src/models/statistics.py:116-123 | With valid lengths, r exists exactly when neither x nor y is constant; the division by σx·σy never fails. |
| Statistics.CorrelationValue | metabolic_app/src/models/statistics.py:120-123 | r = cov(x, y)/(σx·σy) with σx·σy ≠ 0. |
| Statistics.CorrelationNormalisesCovariance | metabolic_app/src/models/statistics.py:120-123 | r·σx·σy = cov(x, y). |
| Statistics.CorrelationBounded | metabolic_app/src/models/statistics.py:120-123 | −1 ≤ r ≤ 1 (Cauchy–Schwarz). |
| Statistics.CorrelationSymmetric | metabolic_app/src/models/statistics.py:105-123 | Swapping x and y gives the same result, error or value. |
| Statistics.CorrelationOfLine | metabolic_app/src/models/statistics.py:105-123 | Points on a line with a ≠ 0 and non-constant x give r = 1 for a rising line and −1 for a falling one. |
| RealMath.CauchySchwarz | metabolic_app/src/models/statistics.py:112-120 | (Σ(a − ca)(b − cb))² ≤ Σ(a − ca)²·Σ(b − cb)². |
| RealMath.SumSqDevNonNegative | metabolic_app/src/models/statistics.py:34 | A sum of squared deviations is ≥ 0, so the variance under the square root is never negative. |
| InputHelpers.ValidateNumericInput | metabolic_app/src/utils/helpers.py:14-20 | Succeeds exactly when the string parses to a value ≥ 0, and returns that value. Every failure, whether unparsable or negative, is the generic "Invalid input for …" ValueError. |
| InputHelpers.ValidateIntegerInput | metabolic_app/src/utils/helpers.py:35-41 | The same rules for integers. |
| InputHelpers.ValidateSexInput | metabolic_app/src/utils/helpers.py:55-57 | Returns its argument unchanged exactly for "Masculino" and "Femenino"; any other string is the ValueError. |
| InputHelpers.ZeroIsAccepted | metabolic_app/src/utils/helpers.py:16-18 | 0 passes both number checks, and a validated value is never negative. |
| InputHelpers.NegativeIsReportedAsInvalid | metabolic_app/src/utils/helpers.py:16-20 | A negative number fails exactly like an unparsable string; the "must be a positive …" messages never surface. |
| InputHelpers.ValidateNumericInputAsIntended | metabolic_app/src/utils/helpers.py:16-17 | The intended validator: an unparsable string gives the generic message, a negative number the specific one. |
| InputHelpers.ValidateIntegerInputAsIntended | metabolic_app/src/utils/helpers.py:37-38 | The intended integer validator, in the same way. |
| InputHelpers.IntendedDiffersOnlyInMessage | metabolic_app/src/utils/helpers.py:14-41 | The intended validators accept and return exactly what the written ones do, and they distinguish a negative number from an unparsable string. |
| InputHelpers.ValidatedSexHasFormula | metabolic_app/src/utils/helpers.py:55-57 | The validator accepts exactly the strings `calculate_tmb` has a formula for. |
| InputHelpers.SexMessagesDiffer | metabolic_app/src/utils/helpers.py:56 | The validator's message is `calculate_tmb`'s with a final period. |
| PersonModel.UpperCaseIsM | src/models/person.py:36 | A string upper-cases to "M" exactly when it is "M" or "m". |
| PersonModel.UpperCase | src/models/person.py:36 | `str.upper()`: the same length, and each character upper-cased. |
| PersonModel.CalculateBmr | src/models/person.py:36-39 | "M" and "m" select the male equation; every other string silently selects the female one. |
| PersonModel.CopiesDisagreeOnSex | src/models/person.py:36-39 | "Masculino" is male for `calculate_tmb` but female here. "M" is male here but an error there. An unknown string is an error there but female here. |
| PersonModel.CalculateActivityFactors | src/models/person.py:48 | One factor per day, entry i = AF(minutes[i]). |
| PersonModel.CalculateDailyExpenditure | src/models/person.py:57-59 | One value per day, entry i = BMR × AF(minutes[i]). |
| PersonModel.DailyExpenditureGrowsWithExercise | src/models/person.py:57-59 | For BMR ≥ 0, each day costs at least 1.2·BMR, and more minutes never cost less. |
| PersonModel.ExpenditureIsLinearInExercise | src/models/person.py:57-59 | GB lies on the line (0.01·BMR)·minutes + 1.2·BMR. |
| PersonModel.ExpenditureRegression | src/models/person.py:116 | For varying minutes, the regression of GB on minutes gives slope 0.01·BMR and intercept 1.2·BMR. For BMR > 0 the correlation is exactly 1. |
| PersonModel.GetDailyData | src/models/person.py:78-95 | One row per day: day i + 1, that day's minutes, the shared BMR, the day's AF and GB = TMB × AF. |
| PersonModel.DailyRowsAreConsecutive | src/models/person.py:84-86 | Days are numbered without gaps, and every row carries the same BMR. |
| PersonModel.FourierCoefficients | src/models/person.py:69 | A person with no days gets (0, 0, 0, 0). Otherwise a_k, b_k and A_k are the 1-based cosine coefficient, sine coefficient and amplitude of that person's GB series. |
| PersonModel.ExpenditureAtZeroFrequency | src/models/person.py:69 | At k = 0 the coefficients of a person with at least one day are a_0 = 2·(mean GB) and b_0 = 0. |
| PersonModel.GetFourierTable | src/models/person.py:107 | One table row per day of the expenditure series. |
| PersonModel.GetStatisticalAnalysis | src/models/person.py:116 | Analyses exercise minutes (x) against daily expenditure (y). Succeeds exactly when there is at least one day; the only failure is NaN. On success the fields are the means, population variances, corrcoef(x, y), Σxy, Σx² and Σy² of those two series. |
| PersonModel.ExpenditureStatistics | src/models/person.py:116 | Expenditure is linear in exercise, so mean GB = 0.01·BMR·(mean minutes) + 1.2·BMR and var GB = (0.01·BMR)²·var(minutes). |
| MathTools.CalculateActivityFactor | src/utils/math_tools.py:32 | The same factor as the other copy's `calculate_af`, and ≥ 1.2 for non-negative minutes. |
| MathTools.CalculateFourierCoefficients | src/utils/math_tools.py:43-53 | The empty series gives four zeros. log10_Ak is log10(Ak) when Ak > 0 and 0.0 otherwise. |
| MathTools.FourierTermIsNorm | src/utils/math_tools.py:51-52 | Ak ≥ 0 and Ak² = a_k² + b_k². log10_Ak falls back to 0.0 exactly when a_k = b_k = 0. |
| MathTools.AgreesWithSpecificSpectrum | src/utils/math_tools.py:47-51 | For k = 1 … max_k, (a_k, b_k, Ak) equals entry k − 1 of the other copy's specific spectrum. This holds by construction, since both are defined through the same 1-based sums. |
| MathTools.FourierTermAtZeroFrequency | src/utils/math_tools.py:49-51 | a_0 = (2/N)·Σx, b_0 = 0, A_0 = \|a_0\|. |
| MathTools.CalculateFourierTable | src/utils/math_tools.py:102-118 | One row per sample, in order. Row i has n = i + 1, x = x[i], cos and sin of 2πk·n/N, x_cos = x·cos and x_sin = x·sin. The empty series gives []. |
| MathTools.TableRowsAreSamples | src/utils/math_tools.py:107-116 | Row i is sample n = i + 1 with x[i], and its products are x·cos and x·sin. |
| MathTools.ColumnPrefixSums | src/utils/math_tools.py:107-117 | The first i entries of the x_cos and x_sin columns sum to the first i terms of the coefficient sums. |
| MathTools.TableColumnsGiveCoefficients | src/utils/math_tools.py:107-117 | (2/N)·Σ x_cos = a_k and (2/N)·Σ x_sin = b_k of `calculate_fourier_coefficients`. |
| MathTools.CalculateStatistics | src/utils/math_tools.py:66-91 | Succeeds exactly for two non-empty series of equal length. Different lengths are numpy's ValueError; two empty series are NaN. On success: n·mean_x = Σx and n·mean_y = Σy; n·variance = Σ(s − s̄)² (population variance, as `np.var`); correlation = corrcoef(x, y); xy_sum = Σxy, x2_sum = Σx², y2_sum = Σy². |
| MathTools.VariancesFromSums | src/utils/math_tools.py:69-77 | The variances are ≥ 0 and equal x2_sum/N − mean_x² (likewise for y). |
| MathTools.VarianceIsMeanSquareLessSquareMean | src/utils/math_tools.py:72-73 | var(s) ≥ 0 and var(s) = Σs²/n − mean(s)². |
| MainView.DailyExpenditures | metabolic_app/src/views/main_view.py:435-442 | No days gives []. An unknown sex with at least one day is `calculate_tmb`'s ValueError. Otherwise day i holds TMB × AF(minutes[i]). |
| MainView.MaxK | metabolic_app/src/views/main_view.py:480 | The result is min(N, 5). |
| MainView.FourierStage | metabolic_app/src/views/main_view.py:464-487 | No GB values gives the cleared view. Otherwise k = 1 … min(N, 5), the specific spectrum of the GB series, and the log points of its kept pairs. With a lawful square root it never fails. |
| MainView.NoLogDomainError | metabolic_app/src/views/main_view.py:483-487 | On a spectrum from the main window, no kept pair is outside the domain of log10. |
| MainView.LogPointCount | metabolic_app/src/views/main_view.py:487 | At most min(N, 5) log points, and exactly that many when no amplitude vanishes. An amplitude vanishes exactly when a_k = b_k = 0. |
| MainView.StatisticsStage | metabolic_app/src/views/main_view.py:548-573 | Nothing below two log points. With two or more points and an empty y list, the mean's ValueError. |
| MainView.StageOutcome | metabolic_app/src/views/main_view.py:565-573 | On two lists of equal length ≥ 2, the first error is the slope's, then the correlation's; otherwise every result is there. |
| MainView.StatisticsOfLogPoints | metabolic_app/src/views/main_view.py:565-573 | For two lists of equal length ≥ 2, which the log points always are, no ValueError is possible. The stage fails exactly when x or y is constant, and then with a ZeroDivisionError. |
| MainView.StageSuccess | metabolic_app/src/views/main_view.py:571-573 | A successful stage returns the least-squares line. It passes through the centroid, its slope solves the normal equation, and −1 ≤ r ≤ 1. |

## Left out

- **Floating point.** Floating-point rounding, NaN and infinity are not modelled; arithmetic is exact. The exact `== 0` tests of the code become exact comparisons, and `pytest.approx` tolerances do not arise.
- **Transcendental values.** Only the three `Lawful` facts are assumed. Concrete values such as A_1 = √200 or r ≈ 0.7746 follow only under extra hypotheses, such as the quarter-turn values `FourierAnalysis.FourSampleSpectrum` takes as a precondition.
- **String parsing.** Python's `float()` and `int()` are a parameter. Their treatment of "nan", "inf", whitespace and underscores is not part of this model.
- **np.corrcoef.** It is a parameter of `MathTools.CalculateStatistics`, and its own NaN cases belong to that parameter.
- MathTools.CalculateStatistics: every length mismatch is one ValueError with one message. numpy's message depends on which call fails first: the element-wise product, or `np.corrcoef` when one series has length 1.
- MathTools.CalculateStatistics: for two empty series numpy returns a record of NaN values with a warning; the model returns `NotANumber` instead of that record.
- PersonModel.UpperCase: upper-cases ASCII letters only. No other character upper-cases to "M", so `calculate_bmr`'s branch is exact.
- Statistics.CalculateRegressionSlope: its contract says when the slope exists, not its value. The value is stated by `Statistics.SlopeSolvesNormalEquation` and `Statistics.SlopeOfLine`, on the exact-real model.
- Statistics.CalculateStdDev: its contract states only the error case. The value is stated by `Statistics.StdDevIsRootMeanSquare`.
- **Main window.** The PyQt widgets, message boxes, tab switching and text formatting are left out. So are the matplotlib plot, the CSV/XLSX export, and the `-inf` display sentinel for log10 A_k. `calculate_log_transformations` never produces that value.
- **Other files.** `src/app.py`, `src/main.py` and `metabolic_app/setup.py` are user interface and packaging, and are not part of this model.

## Findings

| source | as written | input that shows it | evidently intended | confidence | as-written member | corrected member |
|---|---|---|---|---|---|---|
| metabolic_app/src/utils/helpers.py:14-20 | The "must be a positive number." ValueError raised for a negative value is caught by the same `try`'s `except ValueError`. The caller then sees the generic "Invalid input … valid number." message, as for an unparsable string. | value "-5" for any field | a negative number is reported with the specific message | high (not executed) | InputHelpers.NegativeIsReportedAsInvalid | InputHelpers.ValidateNumericInputAsIntended |
| metabolic_app/src/utils/helpers.py:35-41 | The same for integers: "must be a positive integer." never reaches the caller. | value "-3" for any field | a negative integer is reported with the specific message | high (not executed) | InputHelpers.NegativeIsReportedAsInvalid | InputHelpers.ValidateIntegerInputAsIntended |
