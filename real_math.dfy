/** Exact real arithmetic shared by both copies of the analyser: the
    transcendental functions it calls, left uninterpreted, and the sums over
    sequences that its formulas are written with. */
module RealMath {

  /** `math.pi`, `math.sqrt`, `math.cos`, `math.sin` and `math.log10` (and
      their numpy counterparts). They are parameters of the model: nothing
      is assumed about them except what `Lawful` states. */
  datatype Transcendentals = Transcendentals(
    pi: real,
    sqrt: real -> real,
    cos: real -> real,
    sin: real -> real,
    log10: real -> real)

  /** The facts the proofs use: `sqrt` is the non-negative square root on
      non-negative arguments, cos(0) = 1 and sin(0) = 0. */
  ghost predicate Lawful(m: Transcendentals) {
    && (forall x :: 0.0 <= x ==> 0.0 <= m.sqrt(x) && m.sqrt(x) * m.sqrt(x) == x)
    && m.cos(0.0) == 1.0
    && m.sin(0.0) == 0.0
  }

  function Abs(x: real): real {
    if x < 0.0 then -x else x
  }

  /** x², Python's `x ** 2`. */
  function Square(x: real): real {
    x * x
  }

  /** p² ≤ x·y. */
  predicate SquareBounded(p: real, x: real, y: real) {
    Square(p) <= x * y
  }

  // ---------------------------------------------------------------------
  // Square roots

  /** A non-negative square root is unique, so `sqrt` is determined by `Lawful`. */
  lemma SqrtUnique(m: Transcendentals, x: real, r: real)
    requires Lawful(m)
    requires 0.0 <= r && r * r == x
    ensures m.sqrt(x) == r
  {
    var s := m.sqrt(x);
    assert 0.0 <= s && s * s == x;
    if s < r {
      SquareStrictlyMonotonic(s, r);
    } else if r < s {
      SquareStrictlyMonotonic(r, s);
    }
  }

  lemma SqrtOfSquare(m: Transcendentals, a: real)
    requires Lawful(m)
    ensures m.sqrt(Square(a)) == Abs(a)
  {
    assert Abs(a) * Abs(a) == a * a;
    SqrtUnique(m, a * a, Abs(a));
  }

  lemma SqrtOfProduct(m: Transcendentals, a: real, b: real)
    requires Lawful(m)
    requires 0.0 <= a && 0.0 <= b
    ensures m.sqrt(a * b) == m.sqrt(a) * m.sqrt(b)
  {
    var sa, sb := m.sqrt(a), m.sqrt(b);
    assert 0.0 <= sa && sa * sa == a;
    assert 0.0 <= sb && sb * sb == b;
    PositiveProduct(sa, sb);
    assert (sa * sb) * (sa * sb) == (sa * sa) * (sb * sb);
    SqrtUnique(m, a * b, sa * sb);
  }

  /** The square root of a positive number is positive. */
  lemma SqrtPositive(m: Transcendentals, x: real)
    requires Lawful(m)
    requires 0.0 < x
    ensures 0.0 < m.sqrt(x)
  {
    var s := m.sqrt(x);
    assert 0.0 <= s && s * s == x;
    if s == 0.0 {
      assert false;
    }
  }

  // ---------------------------------------------------------------------
  // Small facts of ordered-field arithmetic, one step each

  lemma SquareStrictlyMonotonic(a: real, b: real)
    requires 0.0 <= a < b
    ensures a * a < b * b
  {
    calc {
      a * a;
    <=  { assert a * a <= a * b; }
      a * b;
    <
      b * b;
    }
  }

  lemma PositiveProduct(a: real, b: real)
    requires 0.0 <= a && 0.0 <= b
    ensures 0.0 <= a * b
  {
  }

  lemma StrictlyPositiveProduct(a: real, b: real)
    requires 0.0 < a && 0.0 < b
    ensures 0.0 < a * b
  {
  }

  /** A non-zero real has a strictly positive square. */
  lemma SquarePositive(a: real)
    requires a != 0.0
    ensures 0.0 < a * a
  {
    if a < 0.0 {
      StrictlyPositiveProduct(-a, -a);
      NegatedSquare(a);
    } else {
      StrictlyPositiveProduct(a, a);
    }
  }

  lemma SquareOfNonZeroPositive(a: real)
    requires a != 0.0
    ensures 0.0 < Square(a)
  {
    SquarePositive(a);
    calc {
      Square(a);
    ==
      a * a;
    >
      0.0;
    }
  }

  lemma NegatedSquare(a: real)
    ensures (-a) * (-a) == a * a
  {
  }

  lemma SquareNonNegative(a: real)
    ensures 0.0 <= Square(a)
  {
    if a != 0.0 {
      SquareOfNonZeroPositive(a);
    }
  }

  lemma Distribute(p: real, a: real, b: real)
    ensures p * (a + b) == p * a + p * b
  {
  }

  lemma MultiplyNonNegative(c: real, x: real, y: real)
    requires 0.0 <= c && x <= y
    ensures c * x <= c * y
  {
    PositiveProduct(c, y - x);
    Distribute(c, y, -x);
  }

  /** A non-zero factor cancels: p·s = q·s gives p = q. */
  lemma CancelFactor(p: real, q: real, s: real)
    requires s != 0.0 && p * s == q * s
    ensures p == q
  {
    assert (p - q) * s == p * s - q * s;
  }

  /** A product with a non-zero factor vanishes exactly when the other factor does. */
  lemma ProductZeroIff(n: real, v: real)
    requires n != 0.0
    ensures n * v == 0.0 <==> v == 0.0
  {
    if n * v == 0.0 {
      CancelFactor(v, 0.0, n);
    }
  }

  lemma SquareOfProduct(a: real, b: real)
    ensures Square(a * b) == Square(a) * Square(b)
  {
  }

  lemma DivideThenMultiply(a: real, d: real)
    requires d != 0.0
    ensures (a / d) * d == a
  {
  }

  /** From n·mean = s with n > 0: (2/n)·s = 2·mean. */
  lemma TwiceTheMean(s: real, mean: real, n: real)
    requires 0.0 < n && n * mean == s
    ensures (2.0 / n) * s == 2.0 * mean
  {
    calc {
      (2.0 / n) * s;
    ==
      (2.0 / n) * (n * mean);
    ==
      2.0 * mean;
    }
  }

  /** (c·d)/n = c·(d/n). */
  lemma ScaledQuotient(c: real, d: real, n: real)
    requires n != 0.0
    ensures (c * d) / n == c * (d / n)
  {
  }

  /** Dividing both sides by a positive number keeps an inequality. */
  lemma DivideMonotonic(a: real, b: real, k: real)
    requires a <= b && 0.0 < k
    ensures a / k <= b / k
  {
  }

  /** |x| ≤ y follows from x² ≤ y² when y ≥ 0. */
  lemma SquareBoundsAbs(x: real, y: real)
    requires 0.0 <= y && Square(x) <= Square(y)
    ensures -y <= x <= y
  {
    if y < x {
      SquareStrictlyMonotonic(y, x);
    } else if x < -y {
      SquareStrictlyMonotonic(y, -x);
      NegatedSquare(x);
    }
  }

  // ---------------------------------------------------------------------
  // Sums over sequences, each accumulated from the front as Python's `sum`

  /** Σ s[i]. */
  function Sum(s: seq<real>): real {
    if s == [] then 0.0 else Sum(s[..|s| - 1]) + s[|s| - 1]
  }

  /** x·y, the term `SumProd` adds for each pair. */
  function Mul(x: real, y: real): real {
    x * y
  }

  /** Σ a[i]·b[i]. */
  function SumProd(a: seq<real>, b: seq<real>): real
    requires |a| == |b|
  {
    if a == [] then 0.0 else SumProd(a[..|a| - 1], b[..|b| - 1]) + Mul(a[|a| - 1], b[|b| - 1])
  }

  /** Σ s[i]². */
  function SumSq(s: seq<real>): real {
    if s == [] then 0.0 else SumSq(s[..|s| - 1]) + Square(s[|s| - 1])
  }

  /** Σ (a[i] − ca)·(b[i] − cb): the co-deviation of a about ca and b about cb. */
  function SumProdDev(a: seq<real>, b: seq<real>, ca: real, cb: real): real
    requires |a| == |b|
  {
    if a == [] then 0.0
    else SumProdDev(a[..|a| - 1], b[..|b| - 1], ca, cb) + (a[|a| - 1] - ca) * (b[|b| - 1] - cb)
  }

  /** Σ (s[i] − c)². */
  function SumSqDev(s: seq<real>, c: real): real {
    if s == [] then 0.0 else SumSqDev(s[..|s| - 1], c) + Square(s[|s| - 1] - c)
  }

  /** All elements are equal. */
  predicate IsConstant(s: seq<real>) {
    forall i, j :: 0 <= i < |s| && 0 <= j < |s| ==> s[i] == s[j]
  }

  /** Every element equals c. */
  predicate AllEqual(s: seq<real>, c: real) {
    forall i :: 0 <= i < |s| ==> s[i] == c
  }

  lemma SumSnoc(s: seq<real>)
    requires s != []
    ensures Sum(s) == Sum(s[..|s| - 1]) + s[|s| - 1]
  {
  }

  lemma SumProdSnoc(a: seq<real>, b: seq<real>)
    requires |a| == |b| && a != []
    ensures SumProd(a, b) == SumProd(a[..|a| - 1], b[..|b| - 1]) + Mul(a[|a| - 1], b[|b| - 1])
  {
  }

  lemma SumSqDevSnoc(s: seq<real>, c: real)
    requires s != []
    ensures SumSqDev(s, c) == SumSqDev(s[..|s| - 1], c) + Square(s[|s| - 1] - c)
  {
  }

  lemma SumProdDevSnoc(a: seq<real>, b: seq<real>, ca: real, cb: real)
    requires |a| == |b| && a != []
    ensures SumProdDev(a, b, ca, cb)
         == SumProdDev(a[..|a| - 1], b[..|b| - 1], ca, cb) + (a[|a| - 1] - ca) * (b[|b| - 1] - cb)
  {
  }

  /** Every sum over empty sequences is 0. */
  lemma SumsOfEmpty(a: seq<real>, b: seq<real>, ca: real, cb: real)
    requires a == [] && b == []
    ensures Sum(a) == 0.0 && SumSq(a) == 0.0 && SumProd(a, b) == 0.0
    ensures SumProdDev(a, b, ca, cb) == 0.0 && SumSqDev(a, ca) == 0.0 && SumSqDev(b, cb) == 0.0
  {
  }

  /** A sequence of n copies of c sums to n·c. */
  lemma {:induction false} SumConstant(s: seq<real>, c: real)
    requires AllEqual(s, c)
    ensures Sum(s) == (|s| as real) * c
  {
    if s != [] {
      var n := |s| - 1;
      assert AllEqual(s[..n], c);
      SumConstant(s[..n], c);
      Distribute(c, n as real, 1.0);
    }
  }

  /** Σ x² written with `**` and Σ x·x agree. */
  lemma {:induction false} SumSqIsSumProd(s: seq<real>)
    ensures SumSq(s) == SumProd(s, s)
  {
    if s != [] {
      SumSqIsSumProd(s[..|s| - 1]);
    }
  }

  /** Σ (x − c)² written with `**` and Σ (x − c)·(x − c) agree. */
  lemma {:induction false} SumSqDevIsSumProdDev(s: seq<real>, c: real)
    ensures SumSqDev(s, c) == SumProdDev(s, s, c, c)
  {
    if s != [] {
      SumSqDevIsSumProdDev(s[..|s| - 1], c);
    }
  }

  lemma {:induction false} SumSqDevNonNegative(s: seq<real>, c: real)
    ensures 0.0 <= SumSqDev(s, c)
  {
    if s != [] {
      var n := |s| - 1;
      SumSqDevNonNegative(s[..n], c);
      SquareNonNegative(s[n] - c);
    }
  }

  /** A sum of squared deviations about c vanishes exactly when every element is c. */
  lemma {:induction false} SumSqDevZeroIffAllEqual(s: seq<real>, c: real)
    ensures SumSqDev(s, c) == 0.0 <==> AllEqual(s, c)
  {
    if s != [] {
      var n := |s| - 1;
      var init, last := s[..n], s[n];
      SumSqDevZeroIffAllEqual(init, c);
      SumSqDevNonNegative(init, c);
      if AllEqual(s, c) {
        assert AllEqual(init, c);
      }
      if SumSqDev(s, c) == 0.0 {
        if last != c {
          SquareOfNonZeroPositive(last - c);
          assert false;
        }
        forall i | 0 <= i < |s| ensures s[i] == c {
          if i < n { assert s[i] == init[i]; }
        }
      }
    }
  }

  /** Deviations that all vanish contribute nothing to a co-deviation. */
  lemma {:induction false} SumProdDevOfAllEqual(a: seq<real>, b: seq<real>, ca: real, cb: real)
    requires |a| == |b| && AllEqual(a, ca)
    ensures SumProdDev(a, b, ca, cb) == 0.0
  {
    if a != [] {
      var n := |a| - 1;
      assert AllEqual(a[..n], ca);
      SumProdDevOfAllEqual(a[..n], b[..n], ca, cb);
    }
  }

  lemma {:induction false} SumProdDevSymmetric(a: seq<real>, b: seq<real>, ca: real, cb: real)
    requires |a| == |b|
    ensures SumProdDev(a, b, ca, cb) == SumProdDev(b, a, cb, ca)
  {
    if a != [] {
      var n := |a| - 1;
      SumProdDevSymmetric(a[..n], b[..n], ca, cb);
    }
  }

  /** The right-hand side pab − cb·sa − ca·sb + n·ca·cb of `SumProdDevExpansion`. */
  function CenteredExpansion(pab: real, sa: real, sb: real, n: real, ca: real, cb: real): real {
    pab - cb * sa - ca * sb + n * ca * cb
  }

  /** Σ(a[i] − ca)(b[i] − cb) = Σab − cb·Σa − ca·Σb + n·ca·cb. */
  lemma {:induction false} SumProdDevExpansion(a: seq<real>, b: seq<real>, ca: real, cb: real)
    requires |a| == |b|
    ensures SumProdDev(a, b, ca, cb)
         == CenteredExpansion(SumProd(a, b), Sum(a), Sum(b), |a| as real, ca, cb)
  {
    hide Sum, SumProd, SumProdDev;
    if a == [] {
      SumsOfEmpty(a, b, ca, cb);
      assert CenteredExpansion(0.0, 0.0, 0.0, 0.0, ca, cb) == 0.0;
    } else {
      hide CenteredExpansion;
      var n := |a| - 1;
      var a', b', x, y := a[..|a| - 1], b[..|b| - 1], a[|a| - 1], b[|b| - 1];
      SumProdDevExpansion(a', b', ca, cb);
      calc {
        SumProdDev(a, b, ca, cb);
      ==  { SumProdDevSnoc(a, b, ca, cb); }
        SumProdDev(a', b', ca, cb) + (x - ca) * (y - cb);
      ==
        CenteredExpansion(SumProd(a', b'), Sum(a'), Sum(b'), n as real, ca, cb) + (x - ca) * (y - cb);
      ==  { CenteredExpansionStep(SumProd(a', b'), Sum(a'), Sum(b'), n as real, ca, cb, x, y); }
        CenteredExpansion(SumProd(a', b') + x * y, Sum(a') + x, Sum(b') + y, n as real + 1.0, ca, cb);
      ==  { SumProdSnoc(a, b);
            SumSnoc(a);
            SumSnoc(b);
            assert n as real + 1.0 == |a| as real; }
        CenteredExpansion(SumProd(a, b), Sum(a), Sum(b), |a| as real, ca, cb);
      }
    }
  }

  lemma CenteredExpansionStep(pab: real, sa: real, sb: real, n: real, ca: real, cb: real,
                              x: real, y: real)
    ensures CenteredExpansion(pab + x * y, sa + x, sb + y, n + 1.0, ca, cb)
         == CenteredExpansion(pab, sa, sb, n, ca, cb) + (x - ca) * (y - cb)
  {
    Distribute(cb, sa, x);
    Distribute(ca, sb, y);
    assert (n + 1.0) * ca * cb == n * ca * cb + ca * cb;
    assert (x - ca) * (y - cb) == x * y - cb * x - ca * y + ca * cb;
  }

  /** Cauchy–Schwarz for co-deviations: (Σ(a − ca)(b − cb))² ≤ Σ(a − ca)²·Σ(b − cb)². */
  lemma {:induction false} CauchySchwarz(a: seq<real>, b: seq<real>, ca: real, cb: real)
    requires |a| == |b|
    ensures SquareBounded(SumProdDev(a, b, ca, cb), SumSqDev(a, ca), SumSqDev(b, cb))
  {
    hide SumProdDev, SumSqDev;
    if a == [] {
      SumsOfEmpty(a, b, ca, cb);
      assert Square(0.0) == 0.0 * 0.0;
    } else {
      var a', b' := a[..|a| - 1], b[..|b| - 1];
      CauchySchwarz(a', b', ca, cb);
      SumSqDevNonNegative(a', ca);
      SumSqDevNonNegative(b', cb);
      SumSqDevSnoc(a, ca);
      SumSqDevSnoc(b, cb);
      SumProdDevSnoc(a, b, ca, cb);
      CauchySchwarzStep(SumSqDev(a', ca), SumProdDev(a', b', ca, cb), SumSqDev(b', cb),
        a[|a| - 1] - ca, b[|b| - 1] - cb, SumSqDev(a, ca), SumProdDev(a, b, ca, cb), SumSqDev(b, cb));
    }
  }

  /** One more term keeps the bound: P² ≤ A·B implies (P + u·v)² ≤ (A + u²)·(B + v²). */
  lemma CauchySchwarzStep(A: real, P: real, B: real, u: real, v: real, A1: real, P1: real, B1: real)
    requires 0.0 <= A && 0.0 <= B && SquareBounded(P, A, B)
    requires A1 == A + Square(u) && P1 == P + u * v && B1 == B + Square(v)
    ensures SquareBounded(P1, A1, B1)
  {
    hide Square;
    SquareNonNegative(u);
    SquareNonNegative(v);
    PositiveProduct(A, Square(v));
    PositiveProduct(B, Square(u));
    CrossTermSquare(A, P, B, u, v);
    TwiceBelowSum(A * Square(v), B * Square(u), P * (u * v));
    SquareOfProduct(u, v);
    ExpandSquare(P, u * v);
    ExpandProduct(A, Square(u), B, Square(v));
  }

  /** (a + b)² = a² + 2·a·b + b². */
  lemma ExpandSquare(a: real, b: real)
    ensures Square(a + b) == Square(a) + 2.0 * (a * b) + Square(b)
  {
  }

  lemma ExpandProduct(a: real, b: real, c: real, d: real)
    ensures (a + b) * (c + d) == a * c + a * d + b * c + b * d
  {
  }

  /** (P·u·v)² ≤ (A·v²)·(B·u²) when P² ≤ A·B. */
  lemma CrossTermSquare(A: real, P: real, B: real, u: real, v: real)
    requires Square(P) <= A * B
    ensures Square(P * (u * v)) <= (A * Square(v)) * (B * Square(u))
  {
    SquareNonNegative(u * v);
    SquareOfProduct(P, u * v);
    SquareOfProduct(u, v);
    MultiplyNonNegative(Square(u * v), Square(P), A * B);
    calc {
      Square(P * (u * v));
    ==
      Square(u * v) * Square(P);
    <=
      Square(u * v) * (A * B);
    ==
      (Square(u) * Square(v)) * (A * B);
    ==
      (A * Square(v)) * (B * Square(u));
    }
  }

  /** Z² ≤ X·Y with X, Y ≥ 0 gives 2·Z ≤ X + Y. */
  lemma TwiceBelowSum(X: real, Y: real, Z: real)
    requires 0.0 <= X && 0.0 <= Y && Square(Z) <= X * Y
    ensures 2.0 * Z <= X + Y
  {
    if X + Y < 2.0 * Z {
      SquareStrictlyMonotonic(X + Y, 2.0 * Z);
      SquareNonNegative(X - Y);
      assert false;
    }
  }
}
