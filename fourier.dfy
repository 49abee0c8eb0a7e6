/** The discrete Fourier analysis of `models/fourier.py`: the angular
    frequency 2πkn/N, the cosine and sine coefficients a_k and b_k of a
    daily series with their amplitudes A_k, and the log–log points
    (log10 k, log10 A_k) that the criticality fit is run on. */
module FourierAnalysis {
  import opened Wrappers
  import opened RealMath

  // ---------------------------------------------------------------------
  // Angular frequency

  /** 2πkn/N. */
  function Angle(pi: real, k: int, n: int, N: int): real
    requires N != 0
  {
    2.0 * pi * (k as real) * (n as real) / (N as real)
  }

  /** `calculate_angular_frequency`: the angle, or Python's ZeroDivisionError
      for N = 0 (the product is already a float, hence the float message). */
  function CalculateAngularFrequency(m: Transcendentals, k: int, n: int, N: int): (r: Result<real>)
    ensures r.Failure? <==> N == 0
    ensures r.Failure? ==> r.error == ZeroDivisionError(FloatDivisionByZero)
    ensures r.Success? ==> r.value * (N as real) == 2.0 * m.pi * (k as real) * (n as real)
  {
    if N == 0 then Failure(ZeroDivisionError(FloatDivisionByZero)) else Success(Angle(m.pi, k, n, N))
  }

  /** The zero frequency and the first sample have angle 0. */
  lemma AngleVanishes(pi: real, k: int, n: int, N: int)
    requires N != 0 && (k == 0 || n == 0)
    ensures Angle(pi, k, n, N) == 0.0
  {
  }

  /** Moving one sample along adds the step 2πk/N: the 1-based angle of
      sample n is the 0-based angle of sample n + 1. */
  lemma AngleStep(pi: real, k: int, n: int, N: int)
    requires N != 0
    ensures Angle(pi, k, n + 1, N) == Angle(pi, k, n, N) + Angle(pi, k, 1, N)
  {
    var c := 2.0 * pi * (k as real);
    calc {
      Angle(pi, k, n + 1, N);
    ==
      c * ((n as real) + 1.0) / (N as real);
    ==  { Distribute(c, n as real, 1.0); }
      (c * (n as real) + c * 1.0) / (N as real);
    ==
      c * (n as real) / (N as real) + c * 1.0 / (N as real);
    }
  }

  // ---------------------------------------------------------------------
  // The coefficient sums

  /** The number of iterations of Python's `range(n)`. */
  function RangeLength(n: int): nat {
    if n < 0 then 0 else n
  }

  /** Σ_{n < count} data[n]·cos(2πk(n + offset)/N). The 0-based variant
      has offset 0, the 1-based ones offset 1. */
  function CosSum(m: Transcendentals, data: seq<real>, N: int, k: int, offset: int, count: nat): real
    requires N != 0 && count <= |data|
  {
    if count == 0 then 0.0
    else CosSum(m, data, N, k, offset, count - 1)
         + data[count - 1] * m.cos(Angle(m.pi, k, count - 1 + offset, N))
  }

  /** Σ_{n < count} data[n]·sin(2πk(n + offset)/N). */
  function SinSum(m: Transcendentals, data: seq<real>, N: int, k: int, offset: int, count: nat): real
    requires N != 0 && count <= |data|
  {
    if count == 0 then 0.0
    else SinSum(m, data, N, k, offset, count - 1)
         + data[count - 1] * m.sin(Angle(m.pi, k, count - 1 + offset, N))
  }

  /** a_k = (2/N)·Σ data[n]·cos(2πk(n + offset)/N), over range(N). */
  function CosineCoefficient(m: Transcendentals, data: seq<real>, N: int, k: int, offset: int): real
    requires N != 0 && N <= |data|
  {
    (2.0 / (N as real)) * CosSum(m, data, N, k, offset, RangeLength(N))
  }

  /** b_k = (2/N)·Σ data[n]·sin(2πk(n + offset)/N), over range(N). */
  function SineCoefficient(m: Transcendentals, data: seq<real>, N: int, k: int, offset: int): real
    requires N != 0 && N <= |data|
  {
    (2.0 / (N as real)) * SinSum(m, data, N, k, offset, RangeLength(N))
  }

  /** A_k = √(a_k² + b_k²). */
  function Amplitude(m: Transcendentals, a: real, b: real): real {
    m.sqrt(Square(a) + Square(b))
  }

  /** The amplitude is the Euclidean norm of (a, b): non-negative, with
      A² = a² + b², and zero exactly when both coefficients are. */
  lemma AmplitudeIsNorm(m: Transcendentals, a: real, b: real)
    requires Lawful(m)
    ensures 0.0 <= Amplitude(m, a, b)
    ensures Square(Amplitude(m, a, b)) == Square(a) + Square(b)
    ensures Amplitude(m, a, b) == 0.0 <==> a == 0.0 && b == 0.0
  {
    SquareNonNegative(a);
    SquareNonNegative(b);
    var s := Square(a) + Square(b);
    assert 0.0 <= s;
    if a != 0.0 {
      SquareOfNonZeroPositive(a);
      SqrtPositive(m, s);
    } else if b != 0.0 {
      SquareOfNonZeroPositive(b);
      SqrtPositive(m, s);
    } else {
      SqrtUnique(m, s, 0.0);
    }
  }

  /** A coefficient pair (a, b) has amplitude |a| when b = 0. */
  lemma AmplitudeOfCosineOnly(m: Transcendentals, a: real)
    requires Lawful(m)
    ensures Amplitude(m, a, 0.0) == Abs(a)
  {
    SqrtOfSquare(m, a);
  }

  /** At k = 0 every angle is 0, so the cosine sum is the plain sum of the
      samples and the sine sum vanishes, whatever the offset. */
  lemma {:induction false} SumsAtZeroFrequency(m: Transcendentals, data: seq<real>, N: int, offset: int, count: nat)
    requires Lawful(m) && N != 0 && count <= |data|
    ensures CosSum(m, data, N, 0, offset, count) == Sum(data[..count])
    ensures SinSum(m, data, N, 0, offset, count) == 0.0
  {
    if count > 0 {
      var n := count - 1;
      SumsAtZeroFrequency(m, data, N, offset, n);
      AngleVanishes(m.pi, 0, n + offset, N);
      assert data[..count][..n] == data[..n];
      SumSnoc(data[..count]);
    }
  }

  /** The zero-frequency term: a_0 is twice the mean of the N samples,
      b_0 = 0 and A_0 = |a_0|. */
  lemma ZeroFrequencyTerm(m: Transcendentals, data: seq<real>, N: int, offset: int)
    requires Lawful(m) && 0 < N <= |data|
    ensures CosineCoefficient(m, data, N, 0, offset) == (2.0 / (N as real)) * Sum(data[..N])
    ensures SineCoefficient(m, data, N, 0, offset) == 0.0
    ensures Amplitude(m, CosineCoefficient(m, data, N, 0, offset), SineCoefficient(m, data, N, 0, offset))
         == Abs(CosineCoefficient(m, data, N, 0, offset))
  {
    SumsAtZeroFrequency(m, data, N, offset, N);
    AmplitudeOfCosineOnly(m, CosineCoefficient(m, data, N, 0, offset));
  }

  /** For a negative N, `range(N)` is empty and every coefficient is 0. */
  lemma NegativeLengthGivesZeros(m: Transcendentals, data: seq<real>, N: int, k: int, offset: int)
    requires N < 0
    ensures CosineCoefficient(m, data, N, k, offset) == 0.0
    ensures SineCoefficient(m, data, N, k, offset) == 0.0
  {
  }

  // ---------------------------------------------------------------------
  // The coefficient loops

  /** Coefficient lists for `count` consecutive frequencies: entry i is the
      coefficient triple of frequency firstK + i. */
  predicate IsSpectrum(m: Transcendentals, data: seq<real>, N: int, offset: int, firstK: int, count: nat,
                       ak: seq<real>, bk: seq<real>, amplitudes: seq<real>)
    requires N != 0 && N <= |data|
  {
    && |ak| == count && |bk| == count && |amplitudes| == count
    && forall i :: 0 <= i < count ==>
         && ak[i] == CosineCoefficient(m, data, N, firstK + i, offset)
         && bk[i] == SineCoefficient(m, data, N, firstK + i, offset)
         && amplitudes[i] == Amplitude(m, ak[i], bk[i])
  }

  /** The inner loop over n in range(N): both sums for one frequency. */
  method AccumulateSums(m: Transcendentals, data: seq<real>, N: int, k: int, offset: int)
    returns (sumA: real, sumB: real)
    requires N != 0 && N <= |data|
    ensures sumA == CosSum(m, data, N, k, offset, RangeLength(N))
    ensures sumB == SinSum(m, data, N, k, offset, RangeLength(N))
  {
    sumA, sumB := 0.0, 0.0;
    var n := 0;
    while n < N
      invariant 0 <= n <= RangeLength(N)
      invariant sumA == CosSum(m, data, N, k, offset, n)
      invariant sumB == SinSum(m, data, N, k, offset, n)
    {
      var f := Angle(m.pi, k, n + offset, N);
      sumA := sumA + data[n] * m.cos(f);
      sumB := sumB + data[n] * m.sin(f);
      n := n + 1;
    }
  }

  /** The coefficients of one frequency: a_k, b_k and A_k. */
  method Coefficient(m: Transcendentals, data: seq<real>, N: int, k: int, offset: int)
    returns (a: real, b: real, amplitude: real)
    requires N != 0 && N <= |data|
    ensures a == CosineCoefficient(m, data, N, k, offset)
    ensures b == SineCoefficient(m, data, N, k, offset)
    ensures amplitude == Amplitude(m, a, b)
  {
    var sumA, sumB := AccumulateSums(m, data, N, k, offset);
    a := (2.0 / (N as real)) * sumA;
    b := (2.0 / (N as real)) * sumB;
    amplitude := m.sqrt(Square(a) + Square(b));
  }

  datatype Spectrum = Spectrum(ak: seq<real>, bk: seq<real>, amplitudes: seq<real>)

  /** `calculate_fourier_coefficients`: frequencies k = 0 … N//2 with the
      0-based angle 2πkn/N. A negative N gives empty lists, N = 0 the
      float division by zero of `2.0 / N`, and N beyond the data an
      IndexError. */
  method CalculateFourierCoefficients(m: Transcendentals, data: seq<real>, N: int) returns (r: Result<Spectrum>)
    ensures N < 0 ==> r == Success(Spectrum([], [], []))
    ensures N == 0 ==> r == Failure(ZeroDivisionError(FloatDivisionByZero))
    ensures 0 < N && |data| < N ==> r == Failure(IndexError)
    ensures 0 < N <= |data| ==>
      && r.Success?
      && IsSpectrum(m, data, N, 0, 0, N / 2 + 1, r.value.ak, r.value.bk, r.value.amplitudes)
  {
    if N < 0 {
      return Success(Spectrum([], [], []));
    } else if N == 0 {
      return Failure(ZeroDivisionError(FloatDivisionByZero));
    } else if |data| < N {
      return Failure(IndexError);
    }
    var ak, bk, amplitudes := [], [], [];
    var k := 0;
    while k < N / 2 + 1
      invariant 0 <= k <= N / 2 + 1
      invariant IsSpectrum(m, data, N, 0, 0, k, ak, bk, amplitudes)
    {
      var a, b, amplitude := Coefficient(m, data, N, k, 0);
      ak, bk, amplitudes := ak + [a], bk + [b], amplitudes + [amplitude];
      k := k + 1;
    }
    return Success(Spectrum(ak, bk, amplitudes));
  }

  datatype KSpectrum = KSpectrum(kValues: seq<int>, ak: seq<real>, bk: seq<real>, amplitudes: seq<real>)

  /** `calculate_specific_fourier_coefficients`: frequencies k = 1 … maxK
      with the 1-based angle 2πk(n + 1)/N. No frequency is computed when
      maxK < 1; otherwise N = 0 is the integer division by zero of `2 / N`,
      N beyond the data an IndexError, and a negative N gives zero sums. */
  method CalculateSpecificFourierCoefficients(m: Transcendentals, data: seq<real>, N: int, maxK: int)
    returns (r: Result<KSpectrum>)
    ensures maxK < 1 ==> r == Success(KSpectrum([], [], [], []))
    ensures 1 <= maxK && N == 0 ==> r == Failure(ZeroDivisionError(DivisionByZero))
    ensures 1 <= maxK && 0 < N && |data| < N ==> r == Failure(IndexError)
    ensures 1 <= maxK && N != 0 && N <= |data| ==>
      && r.Success?
      && |r.value.kValues| == maxK
      && (forall i :: 0 <= i < maxK ==> r.value.kValues[i] == i + 1)
      && IsSpectrum(m, data, N, 1, 1, maxK, r.value.ak, r.value.bk, r.value.amplitudes)
  {
    if maxK < 1 {
      return Success(KSpectrum([], [], [], []));
    } else if N == 0 {
      return Failure(ZeroDivisionError(DivisionByZero));
    } else if |data| < N {
      return Failure(IndexError);
    }
    var ks, ak, bk, amplitudes := [], [], [], [];
    var k := 1;
    while k < maxK + 1
      invariant 1 <= k <= maxK + 1
      invariant |ks| == k - 1 && forall i :: 0 <= i < k - 1 ==> ks[i] == i + 1
      invariant IsSpectrum(m, data, N, 1, 1, k - 1, ak, bk, amplitudes)
    {
      var a, b, amplitude := Coefficient(m, data, N, k, 1);
      ks, ak, bk, amplitudes := ks + [k], ak + [a], bk + [b], amplitudes + [amplitude];
      k := k + 1;
    }
    return Success(KSpectrum(ks, ak, bk, amplitudes));
  }

  /** Every amplitude of a spectrum is non-negative. */
  lemma SpectrumAmplitudesNonNegative(m: Transcendentals, data: seq<real>, N: int, offset: int, firstK: int,
                                      count: nat, ak: seq<real>, bk: seq<real>, amplitudes: seq<real>)
    requires Lawful(m) && N != 0 && N <= |data|
    requires IsSpectrum(m, data, N, offset, firstK, count, ak, bk, amplitudes)
    ensures forall i :: 0 <= i < count ==> 0.0 <= amplitudes[i]
  {
    forall i | 0 <= i < count
      ensures 0.0 <= amplitudes[i]
    {
      AmplitudeIsNorm(m, ak[i], bk[i]);
    }
  }

  /** cos and sin at the quarter turns π/2, π, 3π/2, 2π and 3π, which the
      four-sample example below visits. */
  ghost predicate QuarterTurns(m: Transcendentals) {
    && m.cos(m.pi / 2.0) == 0.0 && m.sin(m.pi / 2.0) == 1.0
    && m.cos(m.pi) == -1.0 && m.sin(m.pi) == 0.0
    && m.cos(3.0 * m.pi / 2.0) == 0.0 && m.sin(3.0 * m.pi / 2.0) == -1.0
    && m.cos(2.0 * m.pi) == 1.0 && m.sin(2.0 * m.pi) == 0.0
    && m.cos(3.0 * m.pi) == -1.0 && m.sin(3.0 * m.pi) == 0.0
  }

  /** The samples 10, 20, 30, 40 have a = [50, −10, −10], b = [0, −10, 0]
      and A = [50, √200, 10] at k = 0, 1, 2. */
  lemma FourSampleSpectrum(m: Transcendentals, ak: seq<real>, bk: seq<real>, amplitudes: seq<real>)
    requires Lawful(m) && QuarterTurns(m)
    requires IsSpectrum(m, [10.0, 20.0, 30.0, 40.0], 4, 0, 0, 3, ak, bk, amplitudes)
    ensures ak == [50.0, -10.0, -10.0]
    ensures bk == [0.0, -10.0, 0.0]
    ensures amplitudes == [50.0, m.sqrt(200.0), 10.0]
  {
    hide CosineCoefficient, SineCoefficient;
    FourSamplesAtZero(m);
    FourSamplesAtOne(m);
    FourSamplesAtTwo(m);
    assert ak[0] == 50.0 && bk[0] == 0.0;
    assert ak[1] == -10.0 && bk[1] == -10.0;
    assert ak[2] == -10.0 && bk[2] == 0.0;
    AmplitudeOfCosineOnly(m, 50.0);
    AmplitudeOfCosineOnly(m, -10.0);
    assert Square(-10.0) + Square(-10.0) == 200.0;
  }

  /** k = 0: a₀ = (2/4)·(10 + 20 + 30 + 40) = 50 and b₀ = 0. */
  lemma FourSamplesAtZero(m: Transcendentals)
    requires Lawful(m)
    ensures CosineCoefficient(m, [10.0, 20.0, 30.0, 40.0], 4, 0, 0) == 50.0
    ensures SineCoefficient(m, [10.0, 20.0, 30.0, 40.0], 4, 0, 0) == 0.0
  {
    var data := [10.0, 20.0, 30.0, 40.0];
    ZeroFrequencyTerm(m, data, 4, 0);
    assert data[..4] == data;
    assert data[..3] == [10.0, 20.0, 30.0] && data[..3][..2] == [10.0, 20.0];
    assert data[..3][..2][..1] == [10.0] && data[..3][..2][..1][..0] == [];
    assert Sum([10.0]) == 10.0;
    assert Sum([10.0, 20.0]) == 30.0;
    assert Sum([10.0, 20.0, 30.0]) == 60.0;
    assert Sum(data) == 100.0;
  }

  /** k = 1: the angles are 0, π/2, π, 3π/2, so a₁ = (10 − 30)/2 = −10 and
      b₁ = (20 − 40)/2 = −10. */
  lemma FourSamplesAtOne(m: Transcendentals)
    requires Lawful(m) && QuarterTurns(m)
    ensures CosineCoefficient(m, [10.0, 20.0, 30.0, 40.0], 4, 1, 0) == -10.0
    ensures SineCoefficient(m, [10.0, 20.0, 30.0, 40.0], 4, 1, 0) == -10.0
  {
    var data := [10.0, 20.0, 30.0, 40.0];
    var pi := m.pi;
    assert Angle(pi, 1, 0, 4) == 0.0;
    assert Angle(pi, 1, 1, 4) == pi / 2.0;
    assert Angle(pi, 1, 2, 4) == pi;
    assert Angle(pi, 1, 3, 4) == 3.0 * pi / 2.0;
    assert CosSum(m, data, 4, 1, 0, 1) == 10.0;
    assert CosSum(m, data, 4, 1, 0, 2) == 10.0;
    assert CosSum(m, data, 4, 1, 0, 3) == -20.0;
    assert CosSum(m, data, 4, 1, 0, 4) == -20.0;
    assert SinSum(m, data, 4, 1, 0, 1) == 0.0;
    assert SinSum(m, data, 4, 1, 0, 2) == 20.0;
    assert SinSum(m, data, 4, 1, 0, 3) == 20.0;
    assert SinSum(m, data, 4, 1, 0, 4) == -20.0;
  }

  /** k = 2: the angles are 0, π, 2π, 3π, so a₂ = (10 − 20 + 30 − 40)/2 = −10
      and b₂ = 0. */
  lemma FourSamplesAtTwo(m: Transcendentals)
    requires Lawful(m) && QuarterTurns(m)
    ensures CosineCoefficient(m, [10.0, 20.0, 30.0, 40.0], 4, 2, 0) == -10.0
    ensures SineCoefficient(m, [10.0, 20.0, 30.0, 40.0], 4, 2, 0) == 0.0
  {
    var data := [10.0, 20.0, 30.0, 40.0];
    var pi := m.pi;
    assert Angle(pi, 2, 0, 4) == 0.0;
    assert Angle(pi, 2, 1, 4) == pi;
    assert Angle(pi, 2, 2, 4) == 2.0 * pi;
    assert Angle(pi, 2, 3, 4) == 3.0 * pi;
    assert CosSum(m, data, 4, 2, 0, 1) == 10.0;
    assert CosSum(m, data, 4, 2, 0, 2) == -10.0;
    assert CosSum(m, data, 4, 2, 0, 3) == 20.0;
    assert CosSum(m, data, 4, 2, 0, 4) == -20.0;
    assert SinSum(m, data, 4, 2, 0, 1) == 0.0;
    assert SinSum(m, data, 4, 2, 0, 2) == 0.0;
    assert SinSum(m, data, 4, 2, 0, 3) == 0.0;
    assert SinSum(m, data, 4, 2, 0, 4) == 0.0;
  }

  // ---------------------------------------------------------------------
  // Log transformations

  /** Python's `zip`: pairs up to the shorter length. */
  function Zip(ks: seq<int>, amplitudes: seq<real>): (z: seq<(int, real)>)
    ensures |z| == if |ks| < |amplitudes| then |ks| else |amplitudes|
    ensures forall i :: 0 <= i < |z| ==> z[i] == (ks[i], amplitudes[i])
  {
    if ks == [] || amplitudes == [] then []
    else [(ks[0], amplitudes[0])] + Zip(ks[1..], amplitudes[1..])
  }

  /** The loop skips a pair with k = 0 or A_k = 0. */
  predicate Skipped(p: (int, real)) {
    p.0 == 0 || p.1 == 0.0
  }

  /** log10 rejects a negative k or A_k with a ValueError. */
  predicate OutsideLogDomain(p: (int, real)) {
    p.0 < 0 || p.1 < 0.0
  }

  predicate SomeOutsideLogDomain(kept: seq<(int, real)>) {
    exists i :: 0 <= i < |kept| && OutsideLogDomain(kept[i])
  }

  /** The pairs that reach log10, in input order. */
  function Kept(z: seq<(int, real)>): seq<(int, real)> {
    if z == [] then []
    else Kept(z[..|z| - 1]) + (if Skipped(z[|z| - 1]) then [] else [z[|z| - 1]])
  }

  datatype LogPoints = LogPoints(logK: seq<real>, logA: seq<real>)

  /** The log points are the log10 images of the kept pairs. */
  predicate LogsOf(m: Transcendentals, kept: seq<(int, real)>, points: LogPoints) {
    && |points.logK| == |kept| && |points.logA| == |kept|
    && forall i :: 0 <= i < |kept| ==>
         points.logK[i] == m.log10(kept[i].0 as real) && points.logA[i] == m.log10(kept[i].1)
  }

  /** `calculate_log_transformations`: (log10 k, log10 A_k) for every pair
      of `zip(k_values, A_k_values)` with k ≠ 0 and A_k ≠ 0, in order; a
      kept negative value is math's domain error. */
  method CalculateLogTransformations(m: Transcendentals, ks: seq<int>, amplitudes: seq<real>)
    returns (r: Result<LogPoints>)
    ensures r.Failure? <==> SomeOutsideLogDomain(Kept(Zip(ks, amplitudes)))
    ensures r.Failure? ==> r.error == ValueError(MathDomainError)
    ensures r.Success? ==> LogsOf(m, Kept(Zip(ks, amplitudes)), r.value)
  {
    var z := Zip(ks, amplitudes);
    var logK, logA := [], [];
    var i := 0;
    assert Kept(z[..0]) == [];
    while i < |z|
      invariant 0 <= i <= |z|
      invariant LogsOf(m, Kept(z[..i]), LogPoints(logK, logA))
      invariant !SomeOutsideLogDomain(Kept(z[..i]))
    {
      var k, a := ks[i], amplitudes[i];
      if k == 0 || a == 0.0 {
        KeptSnoc(z, i);
        i := i + 1;
        continue;
      }
      if k < 0 || a < 0.0 {
        OutsideInKept(z, i);
        return Failure(ValueError(MathDomainError));
      }
      LogsOfSnoc(m, z, i, logK, logA);
      logK, logA := logK + [m.log10(k as real)], logA + [m.log10(a)];
      i := i + 1;
    }
    assert z[..i] == z;
    return Success(LogPoints(logK, logA));
  }

  /** One more pair adds itself to the kept pairs unless it is skipped. */
  lemma KeptSnoc(z: seq<(int, real)>, i: nat)
    requires i < |z|
    ensures Kept(z[..i + 1]) == Kept(z[..i]) + (if Skipped(z[i]) then [] else [z[i]])
  {
    assert z[..i + 1][..i] == z[..i];
  }

  /** A kept pair outside the domain of log10 is among the kept pairs of the
      whole input. */
  lemma OutsideInKept(z: seq<(int, real)>, i: nat)
    requires i < |z| && !Skipped(z[i]) && OutsideLogDomain(z[i])
    ensures SomeOutsideLogDomain(Kept(z))
  {
    KeptSnoc(z, i);
    KeptPrefix(z, i + 1);
    var j := |Kept(z[..i])|;
    assert Kept(z)[j] == Kept(z[..i + 1])[j] == z[i];
  }

  /** Taking the logs of one more kept pair in the domain of log10 extends
      the log points by that pair. */
  lemma LogsOfSnoc(m: Transcendentals, z: seq<(int, real)>, i: nat, logK: seq<real>, logA: seq<real>)
    requires i < |z| && !Skipped(z[i]) && !OutsideLogDomain(z[i])
    requires LogsOf(m, Kept(z[..i]), LogPoints(logK, logA))
    requires !SomeOutsideLogDomain(Kept(z[..i]))
    ensures LogsOf(m, Kept(z[..i + 1]),
                   LogPoints(logK + [m.log10(z[i].0 as real)], logA + [m.log10(z[i].1)]))
    ensures !SomeOutsideLogDomain(Kept(z[..i + 1]))
  {
    KeptSnoc(z, i);
  }

  /** The kept pairs of a prefix are a prefix of the kept pairs. */
  lemma {:induction false} KeptPrefix(z: seq<(int, real)>, n: nat)
    requires n <= |z|
    ensures |Kept(z[..n])| <= |Kept(z)|
    ensures Kept(z[..n]) == Kept(z)[..|Kept(z[..n])|]
    decreases |z| - n
  {
    if n < |z| {
      KeptPrefix(z, n + 1);
      assert z[..n + 1][..n] == z[..n];
    } else {
      assert z[..n] == z;
    }
  }

  /** Every kept pair comes from the input and has k ≠ 0 and A_k ≠ 0. */
  lemma {:induction false} KeptSound(z: seq<(int, real)>)
    ensures forall i :: 0 <= i < |Kept(z)| ==> Kept(z)[i] in z && !Skipped(Kept(z)[i])
  {
    if z != [] {
      var n := |z| - 1;
      KeptSound(z[..n]);
      forall i | 0 <= i < |Kept(z)|
        ensures Kept(z)[i] in z && !Skipped(Kept(z)[i])
      {
        if i < |Kept(z[..n])| {
          assert Kept(z)[i] == Kept(z[..n])[i];
          assert Kept(z)[i] in z[..n];
        }
      }
    }
  }

  /** Every input pair with k ≠ 0 and A_k ≠ 0 is kept. */
  lemma {:induction false} KeptComplete(z: seq<(int, real)>)
    ensures forall i :: 0 <= i < |z| && !Skipped(z[i]) ==> z[i] in Kept(z)
  {
    if z != [] {
      var n := |z| - 1;
      KeptComplete(z[..n]);
      forall i | 0 <= i < |z| && !Skipped(z[i])
        ensures z[i] in Kept(z)
      {
        if i < n {
          assert z[i] == z[..n][i];
        }
      }
    }
  }

  /** With no zero k or A_k nothing is dropped: one point per zipped pair. */
  lemma {:induction false} KeptAllWhenNoneSkipped(z: seq<(int, real)>)
    requires forall i :: 0 <= i < |z| ==> !Skipped(z[i])
    ensures Kept(z) == z
  {
    if z != [] {
      var n := |z| - 1;
      KeptAllWhenNoneSkipped(z[..n]);
      assert z[..n] + [z[n]] == z;
    }
  }

  /** k = [0, 1, 2] with A = [5, 10, 0] keeps only the pair (1, 10). */
  lemma KeptExample()
    ensures Kept(Zip([0, 1, 2], [5.0, 10.0, 0.0])) == [(1, 10.0)]
  {
    var z := Zip([0, 1, 2], [5.0, 10.0, 0.0]);
    assert z == [(0, 5.0), (1, 10.0), (2, 0.0)];
    assert z[..2][..1] == z[..1];
    assert z[..3] == z;
    assert z[..1][..0] == [];
    assert Kept(z[..1]) == [];
    assert Kept(z[..2]) == [(1, 10.0)];
  }
}
