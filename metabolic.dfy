/** The metabolic formulas of `models/metabolic.py`: basal metabolic rate
    (TMB) by the revised Harris–Benedict equations, the activity factor (AF)
    and the gross daily expenditure (GB). */
module MetabolicFormulas {
  import opened Wrappers
  import RealMath

  const Male := "Masculino"
  const Female := "Femenino"

  /** The message of the ValueError raised for any other sex string. */
  const InvalidSexMessage := "Sex must be 'Masculino' or 'Femenino'"

  /** Revised Harris–Benedict equation for men, in kcal/day. */
  function MaleTmb(weightKg: real, heightCm: real, ageYears: int): real {
    88.362 + 13.397 * weightKg + 4.799 * heightCm - 5.677 * (ageYears as real)
  }

  /** Revised Harris–Benedict equation for women, in kcal/day. */
  function FemaleTmb(weightKg: real, heightCm: real, ageYears: int): real {
    447.593 + 9.247 * weightKg + 3.098 * heightCm - 4.333 * (ageYears as real)
  }

  /** `calculate_tmb`: the male or female equation by the exact sex string;
      any other string is a ValueError and yields no value. */
  function CalculateTmb(sex: string, weightKg: real, heightCm: real, ageYears: int): (r: Result<real>)
    ensures r.Success? <==> sex == Male || sex == Female
    ensures sex == Male ==> r == Success(MaleTmb(weightKg, heightCm, ageYears))
    ensures sex == Female ==> r == Success(FemaleTmb(weightKg, heightCm, ageYears))
    ensures r.Failure? ==> r.error == ValueError(InvalidSexMessage)
  {
    if sex == Male then Success(MaleTmb(weightKg, heightCm, ageYears))
    else if sex == Female then Success(FemaleTmb(weightKg, heightCm, ageYears))
    else Failure(ValueError(InvalidSexMessage))
  }

  /** `calculate_af`: 1.2 for a sedentary day plus 0.01 per exercise minute;
      the factor determines the minutes back. */
  function CalculateAf(exerciseMinutes: real): (af: real)
    ensures (af - 1.2) * 100.0 == exerciseMinutes
  {
    1.2 + 0.01 * exerciseMinutes
  }

  /** `calculate_gb`: the basal rate scaled by the activity factor; dividing
      by a non-zero factor gives the basal rate back. */
  function CalculateGb(tmb: real, af: real): (gb: real)
    ensures af != 0.0 ==> gb / af == tmb
    ensures af == 0.0 ==> gb == 0.0
  {
    tmb * af
  }

  /** The weight, height and age coefficients of each equation: one more kg
      adds 13.397 (men) or 9.247 (women), one more cm adds 4.799 or 3.098,
      and one more year subtracts 5.677 or 4.333. */
  lemma TmbIsLinear(sex: string, weightKg: real, heightCm: real, ageYears: int)
    requires sex == Male || sex == Female
    ensures var r0 := CalculateTmb(sex, weightKg, heightCm, ageYears).value;
      && CalculateTmb(sex, weightKg + 1.0, heightCm, ageYears).value
         == r0 + (if sex == Male then 13.397 else 9.247)
      && CalculateTmb(sex, weightKg, heightCm + 1.0, ageYears).value
         == r0 + (if sex == Male then 4.799 else 3.098)
      && CalculateTmb(sex, weightKg, heightCm, ageYears + 1).value
         == r0 - (if sex == Male then 5.677 else 4.333)
  {
  }

  /** No exercise gives the sedentary factor 1.2. */
  lemma AfOfNoExercise()
    ensures CalculateAf(0.0) == 1.2
  {
  }

  /** More exercise gives a strictly larger factor, and never less than 1.2
      for a non-negative number of minutes. */
  lemma AfIsStrictlyIncreasing(m1: real, m2: real)
    ensures m1 < m2 <==> CalculateAf(m1) < CalculateAf(m2)
    ensures 0.0 <= m1 ==> 1.2 <= CalculateAf(m1)
  {
  }

  /** A day's expenditure is at least the sedentary 1.2 × TMB, and grows
      with the exercise minutes, for a non-negative TMB. */
  lemma GbOfExerciseDay(tmb: real, m1: real, m2: real)
    requires 0.0 <= tmb && 0.0 <= m1 <= m2
    ensures 1.2 * tmb <= CalculateGb(tmb, CalculateAf(m1)) <= CalculateGb(tmb, CalculateAf(m2))
  {
    var af1, af2 := CalculateAf(m1), CalculateAf(m2);
    hide CalculateAf;
    calc {
      1.2 * tmb;
    ==
      tmb * 1.2;
    <=  { RealMath.MultiplyNonNegative(tmb, 1.2, af1); }
      tmb * af1;
    ==
      CalculateGb(tmb, af1);
    }
    calc {
      CalculateGb(tmb, af1);
    ==
      tmb * af1;
    <=  { RealMath.MultiplyNonNegative(tmb, af1, af2); }
      tmb * af2;
    ==
      CalculateGb(tmb, af2);
    }
  }
}
