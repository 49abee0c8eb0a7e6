/** The `Person` record of `models/person.py`, the second copy of the
    analyser: its basal rate, the per-day activity factors and gross
    expenditure, the daily rows, and the Fourier and statistical views of
    the expenditure series. The record is never updated, so it is a value. */
module PersonModel {
  import opened Wrappers
  import opened RealMath
  import MetabolicFormulas
  import MathTools
  import Statistics
  import FourierAnalysis

  /** sex ('M' or 'F' in the form), weight in kg, height in cm, age in
      years, and the exercise minutes of each day. */
  datatype Person = Person(sex: string, weight: real, height: real, age: int, exerciseMinutes: seq<real>)

  /** A letter's upper case; characters other than a–z are unchanged. */
  function UpperChar(c: char): char {
    if 'a' <= c <= 'z' then (c as int - 32) as char else c
  }

  /** `str.upper()` on ASCII text. */
  function UpperCase(s: string): (u: string)
    ensures |u| == |s|
    ensures forall i :: 0 <= i < |s| ==> u[i] == UpperChar(s[i])
  {
    if s == [] then [] else [UpperChar(s[0])] + UpperCase(s[1..])
  }

  /** Only "M" and "m" upper-case to "M". */
  lemma UpperCaseIsM(s: string)
    ensures UpperCase(s) == "M" <==> s == "M" || s == "m"
  {
    if UpperCase(s) == "M" {
      assert |s| == 1;
      assert UpperCase(s)[0] == UpperChar(s[0]) == 'M';
      assert s == [s[0]];
    }
  }

  /** `calculate_bmr`: the male Harris–Benedict equation when the upper-cased
      sex is "M", that is for "M" and "m"; any other string, valid or not,
      silently selects the female one. */
  function CalculateBmr(p: Person): (bmr: real)
    ensures p.sex == "M" || p.sex == "m" ==> bmr == MetabolicFormulas.MaleTmb(p.weight, p.height, p.age)
    ensures p.sex != "M" && p.sex != "m" ==> bmr == MetabolicFormulas.FemaleTmb(p.weight, p.height, p.age)
  {
    UpperCaseIsM(p.sex);
    if UpperCase(p.sex) == "M" then MetabolicFormulas.MaleTmb(p.weight, p.height, p.age)
    else MetabolicFormulas.FemaleTmb(p.weight, p.height, p.age)
  }

  /** The two copies disagree on the sex strings: "Masculino" is male for
      `calculate_tmb` but female here, "M" is male here but an error there,
      and a string neither accepts is an error there but female here. */
  lemma CopiesDisagreeOnSex(p: Person)
    ensures p.sex == MetabolicFormulas.Male ==>
      && MetabolicFormulas.CalculateTmb(p.sex, p.weight, p.height, p.age)
         == Success(MetabolicFormulas.MaleTmb(p.weight, p.height, p.age))
      && CalculateBmr(p) == MetabolicFormulas.FemaleTmb(p.weight, p.height, p.age)
    ensures p.sex == "M" ==>
      && MetabolicFormulas.CalculateTmb(p.sex, p.weight, p.height, p.age).Failure?
      && CalculateBmr(p) == MetabolicFormulas.MaleTmb(p.weight, p.height, p.age)
    ensures p.sex !in {"M", "m", MetabolicFormulas.Male, MetabolicFormulas.Female} ==>
      && MetabolicFormulas.CalculateTmb(p.sex, p.weight, p.height, p.age).Failure?
      && CalculateBmr(p) == MetabolicFormulas.FemaleTmb(p.weight, p.height, p.age)
  {
  }

  /** `calculate_activity_factors`: one factor per day, in day order; each
      is the factor of the other copy. */
  function CalculateActivityFactors(p: Person): (factors: seq<real>)
    ensures |factors| == |p.exerciseMinutes|
    ensures forall i :: 0 <= i < |factors| ==>
      factors[i] == MetabolicFormulas.CalculateAf(p.exerciseMinutes[i])
  {
    seq(|p.exerciseMinutes|, i requires 0 <= i < |p.exerciseMinutes| =>
      MathTools.CalculateActivityFactor(p.exerciseMinutes[i]))
  }

  /** `calculate_daily_expenditure`: the basal rate times each day's factor. */
  function CalculateDailyExpenditure(p: Person): (gb: seq<real>)
    ensures |gb| == |p.exerciseMinutes|
    ensures forall i :: 0 <= i < |gb| ==>
      gb[i] == MetabolicFormulas.CalculateGb(CalculateBmr(p), MetabolicFormulas.CalculateAf(p.exerciseMinutes[i]))
  {
    var bmr := CalculateBmr(p);
    var factors := CalculateActivityFactors(p);
    seq(|factors|, i requires 0 <= i < |factors| => bmr * factors[i])
  }

  /** For a non-negative basal rate, each day costs at least the sedentary
      1.2 × BMR, and a day with more exercise costs no less. */
  lemma DailyExpenditureGrowsWithExercise(p: Person, i: int, j: int)
    requires 0.0 <= CalculateBmr(p)
    requires 0 <= i < |p.exerciseMinutes| && 0 <= j < |p.exerciseMinutes|
    requires 0.0 <= p.exerciseMinutes[i] <= p.exerciseMinutes[j]
    ensures 1.2 * CalculateBmr(p) <= CalculateDailyExpenditure(p)[i] <= CalculateDailyExpenditure(p)[j]
  {
    MetabolicFormulas.GbOfExerciseDay(CalculateBmr(p), p.exerciseMinutes[i], p.exerciseMinutes[j]);
  }

  /** The expenditure series is an exact line in the exercise minutes:
      GB = (0.01·BMR)·minutes + 1.2·BMR. */
  lemma ExpenditureIsLinearInExercise(p: Person)
    ensures Statistics.OnLine(p.exerciseMinutes, CalculateDailyExpenditure(p),
                              0.01 * CalculateBmr(p), 1.2 * CalculateBmr(p))
  {
    var bmr := CalculateBmr(p);
    forall i | 0 <= i < |p.exerciseMinutes|
      ensures CalculateDailyExpenditure(p)[i] == 0.01 * bmr * p.exerciseMinutes[i] + 1.2 * bmr
    {
      Distribute(bmr, 1.2, 0.01 * p.exerciseMinutes[i]);
    }
  }

  /** Hence the other copy's regression of expenditure on exercise returns
      slope 0.01·BMR and intercept 1.2·BMR whenever the minutes vary, and
      its Pearson coefficient is exactly 1 for a positive basal rate. */
  lemma ExpenditureRegression(m: Transcendentals, p: Person)
    requires p.exerciseMinutes != [] && !IsConstant(p.exerciseMinutes)
    ensures Statistics.CalculateRegressionSlope(p.exerciseMinutes, CalculateDailyExpenditure(p),
                                                |p.exerciseMinutes|) == Success(0.01 * CalculateBmr(p))
    ensures Statistics.CalculateRegressionIntercept(p.exerciseMinutes, CalculateDailyExpenditure(p),
                                                    0.01 * CalculateBmr(p), |p.exerciseMinutes|)
         == Success(1.2 * CalculateBmr(p))
    ensures Lawful(m) && 0.0 < CalculateBmr(p) ==>
      Statistics.CalculateCorrelationCoefficient(m, p.exerciseMinutes, CalculateDailyExpenditure(p),
                                                 |p.exerciseMinutes|) == Success(1.0)
  {
    hide Statistics.CalculateRegressionSlope, Statistics.CalculateRegressionIntercept,
      Statistics.CalculateCorrelationCoefficient, Statistics.OnLine, IsConstant, Lawful, CalculateDailyExpenditure;
    ExpenditureIsLinearInExercise(p);
    Statistics.RegressionRecoversLine(p.exerciseMinutes, CalculateDailyExpenditure(p),
                                      0.01 * CalculateBmr(p), 1.2 * CalculateBmr(p));
    if Lawful(m) && 0.0 < CalculateBmr(p) {
      assert 0.0 < 0.01 * CalculateBmr(p);
      assert 2 <= |p.exerciseMinutes| by {
        if |p.exerciseMinutes| == 1 {
          ConstantOfSingleton(p.exerciseMinutes);
        }
      }
      Statistics.CorrelationOfLine(m, p.exerciseMinutes, CalculateDailyExpenditure(p),
                                   0.01 * CalculateBmr(p), 1.2 * CalculateBmr(p));
    }
  }

  /** One value is constant. */
  lemma ConstantOfSingleton(s: seq<real>)
    requires |s| == 1
    ensures IsConstant(s)
  {
  }

  /** One row of `get_daily_data`. */
  datatype DailyRow = DailyRow(day: int, exercise: real, tmb: real, af: real, gb: real)

  /** `get_daily_data`: day i + 1 holds that day's minutes, the shared basal
      rate, the day's factor and its expenditure. */
  function GetDailyData(p: Person): (rows: seq<DailyRow>)
    ensures |rows| == |p.exerciseMinutes|
    ensures forall i :: 0 <= i < |rows| ==>
      && rows[i].day == i + 1
      && rows[i].exercise == p.exerciseMinutes[i]
      && rows[i].tmb == CalculateBmr(p)
      && rows[i].af == MetabolicFormulas.CalculateAf(rows[i].exercise)
      && rows[i].gb == MetabolicFormulas.CalculateGb(rows[i].tmb, rows[i].af)
  {
    var bmr := CalculateBmr(p);
    var factors := CalculateActivityFactors(p);
    var expenditure := CalculateDailyExpenditure(p);
    seq(|p.exerciseMinutes|, i requires 0 <= i < |p.exerciseMinutes| =>
      DailyRow(i + 1, p.exerciseMinutes[i], bmr, factors[i], expenditure[i]))
  }

  /** The days are numbered 1, 2, … without gaps, and every row carries the
      same basal rate. */
  lemma DailyRowsAreConsecutive(p: Person, i: int, j: int)
    requires 0 <= i < j < |p.exerciseMinutes|
    ensures GetDailyData(p)[j].day - GetDailyData(p)[i].day == j - i
    ensures GetDailyData(p)[i].tmb == GetDailyData(p)[j].tmb
  {
  }

  /** `calculate_fourier_coefficients` of the expenditure series: zeros for
      a person with no days, otherwise the 1-based coefficients of frequency
      k over the N daily expenditures. */
  function FourierCoefficients(m: Transcendentals, p: Person, k: int): (r: MathTools.FourierTerm)
    ensures p.exerciseMinutes == [] ==> r == MathTools.FourierTerm(0.0, 0.0, 0.0, 0.0)
    ensures p.exerciseMinutes != [] ==>
      var gb := CalculateDailyExpenditure(p);
      && r.a == FourierAnalysis.CosineCoefficient(m, gb, |gb|, k, 1)
      && r.b == FourierAnalysis.SineCoefficient(m, gb, |gb|, k, 1)
      && r.amplitude == FourierAnalysis.Amplitude(m, r.a, r.b)
  {
    MathTools.CalculateFourierCoefficients(m, CalculateDailyExpenditure(p), k)
  }

  /** At frequency 0 the expenditure spectrum is twice the mean daily
      expenditure, with no sine part. */
  lemma ExpenditureAtZeroFrequency(m: Transcendentals, p: Person)
    requires Lawful(m) && p.exerciseMinutes != []
    ensures FourierCoefficients(m, p, 0).a == 2.0 * Statistics.Mean(CalculateDailyExpenditure(p))
    ensures FourierCoefficients(m, p, 0).b == 0.0
  {
    var gb := CalculateDailyExpenditure(p);
    hide Sum, Statistics.Mean, CalculateDailyExpenditure, MathTools.CalculateFourierCoefficients;
    MathTools.FourierTermAtZeroFrequency(m, gb);
    Statistics.MeanTimesLength(gb);
    TwiceTheMean(Sum(gb), Statistics.Mean(gb), |gb| as real);
  }

  /** `get_fourier_table` of the expenditure series: one row per day. */
  method GetFourierTable(m: Transcendentals, p: Person, k: int) returns (table: seq<MathTools.TableRow>)
    ensures MathTools.IsFourierTable(m, CalculateDailyExpenditure(p), k, table)
    ensures |table| == |p.exerciseMinutes|
  {
    table := MathTools.CalculateFourierTable(m, CalculateDailyExpenditure(p), k);
  }

  /** `get_statistical_analysis`: exercise minutes (x) against daily
      expenditure (y). The two series always have the same length, so the
      only failure is the NaN result of a person with no days. */
  function GetStatisticalAnalysis(corrcoef: (seq<real>, seq<real>) -> real, p: Person)
    : (r: Result<MathTools.StatisticalAnalysis>)
    ensures r.Success? <==> p.exerciseMinutes != []
    ensures r.Failure? ==> r.error == NotANumber
    ensures r.Success? ==>
      var x, y := p.exerciseMinutes, CalculateDailyExpenditure(p);
      && MathTools.IsMeanOf(r.value.meanX, x) && MathTools.IsMeanOf(r.value.meanY, y)
      && MathTools.IsVarianceOf(r.value.varianceX, x) && MathTools.IsVarianceOf(r.value.varianceY, y)
      && r.value.correlation == corrcoef(x, y)
      && r.value.xySum == SumProd(x, y) && r.value.x2Sum == SumSq(x) && r.value.y2Sum == SumSq(y)
  {
    MathTools.CalculateStatistics(corrcoef, p.exerciseMinutes, CalculateDailyExpenditure(p))
  }

  /** Because expenditure is linear in exercise, its summary follows from
      the exercise summary: mean GB = 0.01·BMR·(mean minutes) + 1.2·BMR and
      var GB = (0.01·BMR)²·var(minutes). */
  lemma ExpenditureStatistics(corrcoef: (seq<real>, seq<real>) -> real, p: Person, s: MathTools.StatisticalAnalysis)
    requires GetStatisticalAnalysis(corrcoef, p) == Success(s)
    ensures s.meanY == 0.01 * CalculateBmr(p) * s.meanX + 1.2 * CalculateBmr(p)
    ensures s.varianceY == Square(0.01 * CalculateBmr(p)) * s.varianceX
  {
    var x, y := p.exerciseMinutes, CalculateDailyExpenditure(p);
    var a, b := 0.01 * CalculateBmr(p), 1.2 * CalculateBmr(p);
    hide Sum, SumSqDev, Statistics.Mean, Statistics.OnLine, Square, CalculateDailyExpenditure;
    assert s.meanX == Statistics.Mean(x) && s.meanY == Statistics.Mean(y);
    assert s.varianceX == MathTools.Variance(x) && s.varianceY == MathTools.Variance(y);
    ExpenditureIsLinearInExercise(p);
    Statistics.MeanOnLine(x, y, a, b);
    Statistics.SumSqDevOnLine(x, y, a, b, Statistics.Mean(x), Statistics.Mean(y));
    ScaledVariance(s.varianceX, s.varianceY, Square(a),
                   SumSqDev(x, Statistics.Mean(x)), SumSqDev(y, Statistics.Mean(y)), |x| as real);
  }

  /** Spreads in a fixed ratio give variances in the same ratio. */
  lemma ScaledVariance(vx: real, vy: real, c: real, sx: real, sy: real, n: real)
    requires n != 0.0 && vx == sx / n && vy == sy / n && sy == c * sx
    ensures vy == c * vx
  {
    ScaledQuotient(c, sx, n);
  }
}
