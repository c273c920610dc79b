/** JavaScript's `Math.sqrt`, `Math.log`, `Math.exp`, `Math.pow`, `Math.cos`, `Math.sin`
    and `Math.PI`, passed around as a record of function values. The model never computes
    them; it only relies on the few laws collected in `Lawful`. IEEE rounding is not
    modelled. The record is only ever applied through the named functions below, so that
    every use of, say, `Math.sqrt(x)` is one and the same term `Sqrt(m, x)`. */
module MathLib {

  datatype Transcendentals = Transcendentals(
    sqrt: real -> real,
    log: real -> real,
    exp: real -> real,
    pow: (real, real) -> real,
    cos: real -> real,
    sin: real -> real,
    pi: real)

  /** `Math.sqrt(x)` */
  function Sqrt(m: Transcendentals, x: real): real {
    m.sqrt(x)
  }

  /** `Math.log(x)`, the natural logarithm. */
  function Log(m: Transcendentals, x: real): real {
    m.log(x)
  }

  /** `Math.exp(x)` */
  function Exp(m: Transcendentals, x: real): real {
    m.exp(x)
  }

  /** `Math.pow(b, e)` */
  function Pow(m: Transcendentals, b: real, e: real): real {
    m.pow(b, e)
  }

  /** `Math.cos(t)` */
  function Cos(m: Transcendentals, t: real): real {
    m.cos(t)
  }

  /** `Math.sin(t)` */
  function Sin(m: Transcendentals, t: real): real {
    m.sin(t)
  }

  /** Names under which the two product laws below are stated: they fire only where a
      proof mentions these terms (through `SqrtSquared` and `CosSinSquares`), so other
      proofs that merely mention `Sqrt` or `Cos` do not drown in products. */
  ghost function SquareLawAt(m: Transcendentals, x: real): real {
    Sqrt(m, x)
  }

  ghost function CircleLawAt(m: Transcendentals, t: real): real {
    Cos(m, t)
  }

  ghost function PowerLawAt(m: Transcendentals, b: real, n: nat): real {
    Pow(m, b, n as real)
  }

  /** bⁿ by repeated multiplication. */
  function PowNat(b: real, n: nat): real {
    if n == 0 then 1.0 else b * PowNat(b, n - 1)
  }

  /** The laws of `Math.*` the model relies on. */
  ghost predicate Lawful(m: Transcendentals) {
    && 3.14159 < m.pi < 3.14160
    && (forall x :: 0.0 <= x ==> 0.0 <= Sqrt(m, x))
    && (forall x {:trigger SquareLawAt(m, x)} :: 0.0 <= x ==> Sqrt(m, x) * Sqrt(m, x) == x)
    && (forall t {:trigger CircleLawAt(m, t)} :: Cos(m, t) * Cos(m, t) + Sin(m, t) * Sin(m, t) == 1.0)
    && Log(m, 1.0) == 0.0
    && (forall x :: 0.0 < x < 1.0 ==> Log(m, x) < 0.0)
    && (forall x :: 1.0 < x ==> 0.0 < Log(m, x))
    && (forall x :: 0.0 < Exp(m, x))
    && (forall b, e :: 0.0 < b ==> 0.0 < Pow(m, b, e))
    && (forall b, n: nat {:trigger PowerLawAt(m, b, n)} :: Pow(m, b, n as real) == PowNat(b, n))
  }

  /** `sqrt(x)` is a non-negative number whose square is `x`. */
  lemma SqrtSquared(m: Transcendentals, x: real)
    requires Lawful(m) && 0.0 <= x
    ensures 0.0 <= Sqrt(m, x) && Sqrt(m, x) * Sqrt(m, x) == x
  {
    assert SquareLawAt(m, x) == Sqrt(m, x);
  }

  /** cos²θ + sin²θ = 1. */
  lemma CosSinSquares(m: Transcendentals, t: real)
    requires Lawful(m)
    ensures Cos(m, t) * Cos(m, t) + Sin(m, t) * Sin(m, t) == 1.0
  {
    assert CircleLawAt(m, t) == Cos(m, t);
  }

  /** `Math.pow` with a natural exponent is repeated multiplication. */
  lemma PowOfNat(m: Transcendentals, b: real, n: nat)
    requires Lawful(m)
    ensures Pow(m, b, n as real) == PowNat(b, n)
  {
    assert PowerLawAt(m, b, n) == Pow(m, b, n as real);
  }

  /** Multiplying by a non-negative factor keeps an inequality. */
  lemma MulLeft(a: real, b: real, x: real)
    requires a <= b && 0.0 <= x
    ensures a * x <= b * x
  {
    var d := b - a;
    assert d * x >= 0.0;
    assert b * x == a * x + d * x;
  }

  /** Dividing by a positive number keeps an inequality. */
  lemma DivLeft(a: real, b: real, n: real)
    requires a <= b && 0.0 < n
    ensures a / n <= b / n
  {
    MulLeft(a, b, 1.0 / n);
    assert a / n == a * (1.0 / n) && b / n == b * (1.0 / n);
  }

  /** Multiplying by a positive factor keeps a strict inequality. */
  lemma MulStrict(a: real, b: real, x: real)
    requires a < b && 0.0 < x
    ensures a * x < b * x
  {
    var d := b - a;
    assert d * x > 0.0;
    assert b * x == a * x + d * x;
  }

  /** A product of two positive numbers is positive. */
  lemma MulPositive(a: real, b: real)
    requires 0.0 < a && 0.0 < b
    ensures 0.0 < a * b
  {
  }

  /** A product of two non-zero numbers is non-zero. */
  lemma MulNonZero(a: real, b: real)
    requires a != 0.0 && b != 0.0
    ensures a * b != 0.0
  {
    if 0.0 < a && 0.0 < b {
      MulPositive(a, b);
    } else if 0.0 < a {
      MulPositive(a, -b);
    } else if 0.0 < b {
      MulPositive(-a, b);
    } else {
      MulPositive(-a, -b);
    }
  }

  /** Squaring is strictly increasing on the non-negative reals. */
  lemma SquareStrict(a: real, b: real)
    requires 0.0 <= a < b
    ensures a * a < b * b
  {
    var lo, mid, hi := a * a, a * b, b * b;
    assert lo <= mid;
    assert mid < hi;
  }

  /** Two non-negative numbers with the same square are equal. */
  lemma SquareInjective(a: real, b: real)
    requires 0.0 <= a && 0.0 <= b && a * a == b * b
    ensures a == b
  {
    if a < b {
      SquareStrict(a, b);
    } else if b < a {
      SquareStrict(b, a);
    }
  }

  /** `sqrt` is the only non-negative root. */
  lemma SqrtOfSquare(m: Transcendentals, a: real, b: real)
    requires Lawful(m) && 0.0 <= b && b * b == a
    ensures Sqrt(m, a) == b
  {
    SqrtSquared(m, a);
    SquareInjective(Sqrt(m, a), b);
  }

  lemma SqrtZero(m: Transcendentals)
    requires Lawful(m)
    ensures Sqrt(m, 0.0) == 0.0
  {
    SqrtOfSquare(m, 0.0, 0.0);
  }

  lemma SqrtOne(m: Transcendentals)
    requires Lawful(m)
    ensures Sqrt(m, 1.0) == 1.0
  {
    SqrtOfSquare(m, 1.0, 1.0);
  }

  lemma SqrtPositive(m: Transcendentals, a: real)
    requires Lawful(m) && 0.0 < a
    ensures 0.0 < Sqrt(m, a)
  {
    SqrtSquared(m, a);
  }

  lemma SqrtMonotone(m: Transcendentals, a: real, b: real)
    requires Lawful(m) && 0.0 <= a <= b
    ensures Sqrt(m, a) <= Sqrt(m, b)
  {
    SqrtSquared(m, a);
    SqrtSquared(m, b);
    var sa, sb := Sqrt(m, a), Sqrt(m, b);
    if sb < sa {
      SquareStrict(sb, sa);
    }
  }

  /** `sqrt(c² · a) = c · sqrt(a)` for c ≥ 0. */
  lemma SqrtScale(m: Transcendentals, c: real, a: real)
    requires Lawful(m) && 0.0 <= c && 0.0 <= a
    ensures Sqrt(m, c * c * a) == c * Sqrt(m, a)
  {
    SqrtSquared(m, a);
    var s := Sqrt(m, a);
    assert (c * s) * (c * s) == c * c * (s * s);
    SqrtOfSquare(m, c * c * a, c * s);
  }

  /** The squared length of (s·cos θ, s·sin θ) is s². */
  lemma PolarLength(m: Transcendentals, s: real, theta: real)
    requires Lawful(m)
    ensures (s * Cos(m, theta)) * (s * Cos(m, theta)) + (s * Sin(m, theta)) * (s * Sin(m, theta)) == s * s
  {
    CosSinSquares(m, theta);
    var c, n := Cos(m, theta), Sin(m, theta);
    calc {
      (s * c) * (s * c) + (s * n) * (s * n);
      s * s * (c * c + n * n);
      s * s;
    }
  }
}
