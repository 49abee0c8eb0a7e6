/** The input validators of `utils/helpers.py`. Python's `float()` and
    `int()` string conversions are parameters: a parse function returns
    `None` where the conversion raises ValueError. */
module InputHelpers {
  import opened Wrappers
  import MetabolicFormulas

  /** The message every rejected number surfaces with. */
  function InvalidNumberMessage(fieldName: string): string {
    "Invalid input for " + fieldName + ". Please enter a valid number."
  }

  /** The message every rejected integer surfaces with. */
  function InvalidIntegerMessage(fieldName: string): string {
    "Invalid input for " + fieldName + ". Please enter a valid integer."
  }

  /** The message of the inner raise for a negative number; the enclosing
      `except ValueError` replaces it, so it never reaches the caller. */
  function NegativeNumberMessage(fieldName: string): string {
    fieldName + " must be a positive number."
  }

  /** The inner message for a negative integer, replaced in the same way. */
  function NegativeIntegerMessage(fieldName: string): string {
    fieldName + " must be a positive integer."
  }

  const InvalidSexMessage := "Sex must be 'Masculino' or 'Femenino'."

  /** `validate_numeric_input`: the parsed value when it is not negative;
      an unparsable string and a negative value both end in the generic
      ValueError of the `except` clause. */
  function ValidateNumericInput(parse: string -> Option<real>, value: string, fieldName: string): (r: Result<real>)
    ensures r.Success? <==> parse(value).Some? && 0.0 <= parse(value).value
    ensures r.Success? ==> r.value == parse(value).value
    ensures r.Failure? ==> r.error == ValueError(InvalidNumberMessage(fieldName))
  {
    match parse(value)
    case None => Failure(ValueError(InvalidNumberMessage(fieldName)))
    case Some(numericValue) =>
      if numericValue < 0.0 then Failure(ValueError(InvalidNumberMessage(fieldName)))
      else Success(numericValue)
  }

  /** `validate_integer_input`: the same rules for integers. */
  function ValidateIntegerInput(parse: string -> Option<int>, value: string, fieldName: string): (r: Result<int>)
    ensures r.Success? <==> parse(value).Some? && 0 <= parse(value).value
    ensures r.Success? ==> r.value == parse(value).value
    ensures r.Failure? ==> r.error == ValueError(InvalidIntegerMessage(fieldName))
  {
    match parse(value)
    case None => Failure(ValueError(InvalidIntegerMessage(fieldName)))
    case Some(intValue) =>
      if intValue < 0 then Failure(ValueError(InvalidIntegerMessage(fieldName)))
      else Success(intValue)
  }

  /** `validate_sex_input`: the closed two-value check. */
  function ValidateSexInput(value: string): (r: Result<string>)
    ensures r.Success? <==> value == MetabolicFormulas.Male || value == MetabolicFormulas.Female
    ensures r.Success? ==> r.value == value
    ensures r.Failure? ==> r.error == ValueError(InvalidSexMessage)
  {
    if value !in [MetabolicFormulas.Male, MetabolicFormulas.Female] then Failure(ValueError(InvalidSexMessage))
    else Success(value)
  }

  /** Zero passes both number checks, although the docstrings speak of
      positive values; a validated value is never negative. */
  lemma ZeroIsAccepted(parse: string -> Option<real>, parseInt: string -> Option<int>, value: string, fieldName: string)
    ensures parse(value) == Some(0.0) ==> ValidateNumericInput(parse, value, fieldName) == Success(0.0)
    ensures parseInt(value) == Some(0) ==> ValidateIntegerInput(parseInt, value, fieldName) == Success(0)
    ensures ValidateNumericInput(parse, value, fieldName).Success? ==>
      0.0 <= ValidateNumericInput(parse, value, fieldName).value
    ensures ValidateIntegerInput(parseInt, value, fieldName).Success? ==>
      0 <= ValidateIntegerInput(parseInt, value, fieldName).value
  {
  }

  /** A negative number is reported exactly like an unparsable string: the
      specific "must be a positive …" messages can never surface, for any
      field name. */
  lemma NegativeIsReportedAsInvalid(parse: string -> Option<real>, parseInt: string -> Option<int>,
                                    value: string, fieldName: string)
    ensures parse(value).Some? && parse(value).value < 0.0 ==>
      ValidateNumericInput(parse, value, fieldName) == ValidateNumericInput(_ => None, value, fieldName)
    ensures parseInt(value).Some? && parseInt(value).value < 0 ==>
      ValidateIntegerInput(parseInt, value, fieldName) == ValidateIntegerInput(_ => None, value, fieldName)
    ensures ValidateNumericInput(parse, value, fieldName) != Failure(ValueError(NegativeNumberMessage(fieldName)))
    ensures ValidateIntegerInput(parseInt, value, fieldName) != Failure(ValueError(NegativeIntegerMessage(fieldName)))
  {
    assert |InvalidNumberMessage(fieldName)| != |NegativeNumberMessage(fieldName)|;
    assert |InvalidIntegerMessage(fieldName)| != |NegativeIntegerMessage(fieldName)|;
  }

  /** The validator as its inner raise intends it: an unparsable string is
      the generic message, a negative number the specific one. */
  function ValidateNumericInputAsIntended(parse: string -> Option<real>, value: string, fieldName: string)
    : (r: Result<real>)
    ensures r.Success? <==> parse(value).Some? && 0.0 <= parse(value).value
    ensures r.Success? ==> r.value == parse(value).value
    ensures parse(value).None? ==> r == Failure(ValueError(InvalidNumberMessage(fieldName)))
    ensures parse(value).Some? && parse(value).value < 0.0 ==>
      r == Failure(ValueError(NegativeNumberMessage(fieldName)))
  {
    match parse(value)
    case None => Failure(ValueError(InvalidNumberMessage(fieldName)))
    case Some(numericValue) =>
      if numericValue < 0.0 then Failure(ValueError(NegativeNumberMessage(fieldName)))
      else Success(numericValue)
  }

  /** The integer validator as intended, in the same way. */
  function ValidateIntegerInputAsIntended(parse: string -> Option<int>, value: string, fieldName: string)
    : (r: Result<int>)
    ensures r.Success? <==> parse(value).Some? && 0 <= parse(value).value
    ensures r.Success? ==> r.value == parse(value).value
    ensures parse(value).None? ==> r == Failure(ValueError(InvalidIntegerMessage(fieldName)))
    ensures parse(value).Some? && parse(value).value < 0 ==>
      r == Failure(ValueError(NegativeIntegerMessage(fieldName)))
  {
    match parse(value)
    case None => Failure(ValueError(InvalidIntegerMessage(fieldName)))
    case Some(intValue) =>
      if intValue < 0 then Failure(ValueError(NegativeIntegerMessage(fieldName)))
      else Success(intValue)
  }

  /** The intended validators accept and return exactly what the written
      ones do, and tell a negative number from an unparsable string, which
      the written ones cannot. */
  lemma IntendedDiffersOnlyInMessage(parse: string -> Option<real>, parseInt: string -> Option<int>,
                                     value: string, fieldName: string)
    ensures ValidateNumericInputAsIntended(parse, value, fieldName).Success?
        <==> ValidateNumericInput(parse, value, fieldName).Success?
    ensures ValidateNumericInputAsIntended(parse, value, fieldName).Success? ==>
      ValidateNumericInputAsIntended(parse, value, fieldName) == ValidateNumericInput(parse, value, fieldName)
    ensures ValidateIntegerInputAsIntended(parseInt, value, fieldName).Success?
        <==> ValidateIntegerInput(parseInt, value, fieldName).Success?
    ensures ValidateIntegerInputAsIntended(parseInt, value, fieldName).Success? ==>
      ValidateIntegerInputAsIntended(parseInt, value, fieldName) == ValidateIntegerInput(parseInt, value, fieldName)
    ensures parse(value).Some? && parse(value).value < 0.0 ==>
      ValidateNumericInputAsIntended(parse, value, fieldName)
      != ValidateNumericInputAsIntended(_ => None, value, fieldName)
    ensures parseInt(value).Some? && parseInt(value).value < 0 ==>
      ValidateIntegerInputAsIntended(parseInt, value, fieldName)
      != ValidateIntegerInputAsIntended(_ => None, value, fieldName)
  {
    assert |InvalidNumberMessage(fieldName)| != |NegativeNumberMessage(fieldName)|;
    assert |InvalidIntegerMessage(fieldName)| != |NegativeIntegerMessage(fieldName)|;
  }

  /** The sex validator accepts exactly the strings `calculate_tmb` has a
      formula for, so a validated sex never makes it raise. */
  lemma ValidatedSexHasFormula(value: string, weightKg: real, heightCm: real, ageYears: int)
    ensures ValidateSexInput(value).Success? <==>
      MetabolicFormulas.CalculateTmb(value, weightKg, heightCm, ageYears).Success?
    ensures ValidateSexInput(value).Success? ==>
      MetabolicFormulas.CalculateTmb(ValidateSexInput(value).value, weightKg, heightCm, ageYears).Success?
  {
  }

  /** The validator's message ends in a period; the one `calculate_tmb`
      raises for the same strings does not. */
  lemma SexMessagesDiffer()
    ensures InvalidSexMessage != MetabolicFormulas.InvalidSexMessage
    ensures InvalidSexMessage == MetabolicFormulas.InvalidSexMessage + "."
  {
    assert |InvalidSexMessage| != |MetabolicFormulas.InvalidSexMessage|;
  }
}
