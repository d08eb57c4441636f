/** The numeric ground the vector code stands on.

    The Rust source computes with f32 and calls the platform's `sqrt`, `cos`,
    `sin`, `atan2` and `acos`. Here every number is an exact `real`, and the
    five routines are a `Math` value passed to each operation that needs one:
    nothing is known about them except the laws collected in `Lawful`, all of
    which the real functions satisfy once rescaled to the period 2 * PI (PI
    is a rational close to pi, not pi itself). Rounding, NaN and infinities are not
    modelled (the one NaN the source relies on is modelled in `Vector`). */
module Numerics {

  /** `std::f32::consts::PI`, taken as an exact positive real. */
  const PI: real := 3.14159265358979323846

  /** `f32::sqrt`, `f32::cos`, `f32::sin`, `y.atan2(x)` (written
      `atan2(y, x)`, as Rust's receiver is the ordinate) and `f32::acos`. */
  datatype Math = Math(
    sqrt: real -> real,
    cos: real -> real,
    sin: real -> real,
    atan2: (real, real) -> real,
    acos: real -> real)

  // Each law is stated pointwise by a predicate of its own, and `Lawful`
  // quantifies over the points. The quantifiers of `Lawful` therefore fire
  // only where a proof names the point it needs (`assert SqrtAt(m, x);`),
  // which keeps the nonlinear arithmetic of the proofs small.

  /** The square root of a non-negative number is the non-negative number
      whose square it is. */
  ghost predicate SqrtAt(m: Math, x: real) {
    x >= 0.0 ==> m.sqrt(x) >= 0.0 && m.sqrt(x) * m.sqrt(x) == x
  }

  /** cos^2 + sin^2 = 1. */
  ghost predicate PythagorasAt(m: Math, a: real) {
    m.cos(a) * m.cos(a) + m.sin(a) * m.sin(a) == 1.0
  }

  /** Turning by a quarter: cos(a + PI/2) = -sin a, sin(a + PI/2) = cos a. */
  ghost predicate QuarterTurnAt(m: Math, a: real) {
    m.cos(a + PI / 2.0) == -m.sin(a) && m.sin(a + PI / 2.0) == m.cos(a)
  }

  /** `atan2` lies in (-PI, PI]. */
  ghost predicate Atan2RangeAt(m: Math, y: real, x: real) {
    -PI < m.atan2(y, x) <= PI
  }

  /** `atan2(y, x)` is the angle in (-PI, PI] of the ray through (x, y): if
      (x, y) is a positive multiple of (cos a, sin a), its `atan2` is a. */
  ghost predicate Atan2RayAt(m: Math, y: real, x: real, a: real) {
    && -PI < a <= PI
    && x * m.sin(a) == y * m.cos(a)
    && x * m.cos(a) + y * m.sin(a) > 0.0
    ==> m.atan2(y, x) == a
  }

  /** Every point is its length times the unit vector at its `atan2`. */
  ghost predicate PolarDecompositionAt(m: Math, y: real, x: real) {
    && x == m.sqrt(x * x + y * y) * m.cos(m.atan2(y, x))
    && y == m.sqrt(x * x + y * y) * m.sin(m.atan2(y, x))
  }

  /** `acos` maps [-1, 1] into [0, PI]. */
  ghost predicate AcosAt(m: Math, x: real) {
    -1.0 <= x <= 1.0 ==> 0.0 <= m.acos(x) <= PI
  }

  /** Everything the model assumes of the platform's math routines. The real
      cos, sin, atan2 and acos, rescaled to the period 2 * PI, satisfy all of
      it; the textbook ones do not, since PI is not pi. Besides the laws
      above: cos 0 = 1 and sin 0 = 0, PI/4 lies on the diagonal of the first quadrant,
      `atan2(0, 0) == 0` (Rust's convention) and acos 0 = PI/2. */
  ghost predicate Lawful(m: Math) {
    && (forall x :: SqrtAt(m, x))
    && (forall a :: PythagorasAt(m, a))
    && (forall a :: QuarterTurnAt(m, a))
    && (forall y, x :: Atan2RangeAt(m, y, x))
    && (forall y, x, a :: Atan2RayAt(m, y, x, a))
    && (forall y, x :: PolarDecompositionAt(m, y, x))
    && (forall x :: AcosAt(m, x))
    && m.cos(0.0) == 1.0 && m.sin(0.0) == 0.0
    && m.cos(PI / 4.0) == m.sin(PI / 4.0) > 0.0
    && m.atan2(0.0, 0.0) == 0.0
    && m.acos(0.0) == PI / 2.0
  }

  /** `f32::max(r, 0.)` on non-NaN input. */
  function Max(a: real, b: real): (r: real)
    ensures r >= a && r >= b && (r == a || r == b)
  {
    if a >= b then a else b
  }

  function Abs(a: real): (r: real)
    ensures r >= 0.0 && (r == a || r == -a)
  {
    if a >= 0.0 then a else -a
  }

  /** The wrap shared by both signed `angle` methods: a single correction of
      2 * PI towards zero when the difference leaves [-PI, PI]. */
  function WrapAngle(alpha: real): (r: real)
    ensures r == alpha || r == alpha - 2.0 * PI || r == alpha + 2.0 * PI
    ensures -3.0 * PI <= alpha <= 3.0 * PI ==> -PI <= r <= PI
    ensures -PI <= alpha <= PI ==> r == alpha
  {
    if alpha > PI then alpha - 2.0 * PI
    else if alpha < -PI then alpha + 2.0 * PI
    else alpha
  }

  /** The single correction is enough for the difference of two angles in
      (-PI, PI]: the result is that difference moved into [-PI, PI] by a
      whole number of turns, and it is -PI only when the difference is. */
  lemma WrapAngleOfDifference(p: real, q: real)
    requires -PI < p <= PI && -PI < q <= PI
    ensures -2.0 * PI < p - q < 2.0 * PI
    ensures -PI <= WrapAngle(p - q) <= PI
    ensures WrapAngle(p - q) == -PI ==> p - q == -PI
  {
  }

  /** The wrap is odd, on the boundary too: -PI and PI are both left alone. */
  lemma WrapAngleOdd(alpha: real)
    ensures WrapAngle(-alpha) == -WrapAngle(alpha)
  {
  }

  /** Wrapping twice is wrapping once, for every difference of two angles. */
  lemma WrapAngleIdempotent(alpha: real)
    requires -3.0 * PI <= alpha <= 3.0 * PI
    ensures WrapAngle(WrapAngle(alpha)) == WrapAngle(alpha)
  {
  }

  /** The number of whole turns that moves a into (-PI, PI]. */
  function Turns(a: real): int {
    ((PI - a) / (2.0 * PI)).Floor
  }

  /** The representative in (-PI, PI] that `atan2` gives for a direction a:
      a moved by a whole number of turns. */
  function Principal(a: real): (r: real)
    ensures -PI < r <= PI
    ensures -PI < a <= PI ==> r == a
    ensures -3.0 * PI < a <= 3.0 * PI ==> r == a || r == a - 2.0 * PI || r == a + 2.0 * PI
  {
    a + 2.0 * PI * Turns(a) as real
  }

  /** The principal representative is the only angle in (-PI, PI] a whole
      number of turns away from a. */
  lemma PrincipalUnique(a: real, k: int)
    requires -PI < a + 2.0 * PI * k as real <= PI
    ensures Principal(a) == a + 2.0 * PI * k as real
  {
    var d := Turns(a) - k;
    assert 2.0 * PI * Turns(a) as real - 2.0 * PI * k as real == 2.0 * PI * d as real;
    assert -1 < d < 1;
  }

  // ---------------------------------------------------------------------
  // The laws, one instance at a time.

  lemma Sqrt(m: Math, x: real)
    requires Lawful(m) && x >= 0.0
    ensures m.sqrt(x) >= 0.0 && m.sqrt(x) * m.sqrt(x) == x
  {
    assert SqrtAt(m, x);
  }

  /** Squares of non-negative numbers are ordered like the numbers. */
  lemma SquareMonotone(p: real, q: real)
    requires 0.0 <= p < q
    ensures p * p < q * q
  {
    MulPositive(q - p, q + p);
    assert (q - p) * (q + p) == q * q - p * p;
  }

  lemma MulPositive(a: real, b: real)
    requires a > 0.0 && b > 0.0
    ensures a * b > 0.0
  {
  }

  lemma MulNonnegative(a: real, b: real)
    requires a >= 0.0 && b >= 0.0
    ensures a * b >= 0.0
  {
  }

  lemma MulZero(a: real, b: real)
    requires a == 0.0 || b == 0.0
    ensures a * b == 0.0
  {
  }

  lemma Square(a: real)
    ensures a * a >= 0.0
  {
  }

  lemma ProductSquare(a: real, b: real)
    ensures (a * a) * (b * b) == (a * b) * (a * b)
  {
  }

  /** The products that make a quarter-turned vector perpendicular: the
      dot product of k(-s, c) or k(s, -c) with r(c, s) is 0. */
  lemma QuarterProducts(k: real, r: real, c: real, s: real)
    ensures (k * -s) * (r * c) + (k * c) * (r * s) == 0.0
    ensures (k * s) * (r * c) + (k * -c) * (r * s) == 0.0
  {
  }

  lemma SquarePositive(s: real)
    requires s != 0.0
    ensures s * s > 0.0
  {
    if s > 0.0 {
      MulPositive(s, s);
    } else {
      MulPositive(-s, -s);
      assert (-s) * (-s) == s * s;
    }
  }

  /** A sum of two squares is positive unless both terms are 0. */
  lemma SumOfSquaresPositive(x: real, y: real)
    requires x != 0.0 || y != 0.0
    ensures x * x + y * y > 0.0
  {
    if x != 0.0 {
      SquarePositive(x);
    } else {
      SquarePositive(y);
    }
  }

  /** A non-negative s whose square is x is the square root of x. */
  lemma SqrtUnique(m: Math, x: real, s: real)
    requires Lawful(m) && s >= 0.0 && s * s == x
    ensures m.sqrt(x) == s
  {
    var q := m.sqrt(x);
    Sqrt(m, x);
    if q < s {
      SquareMonotone(q, s);
    } else if s < q {
      SquareMonotone(s, q);
    }
  }

  lemma SqrtOfSquare(m: Math, r: real)
    requires Lawful(m)
    ensures m.sqrt(r * r) == Abs(r)
  {
    SqrtUnique(m, r * r, Abs(r));
  }

  /** The square root is 0 only at 0. */
  lemma SqrtZeroIff(m: Math, x: real)
    requires Lawful(m) && x >= 0.0
    ensures m.sqrt(x) == 0.0 <==> x == 0.0
  {
    Sqrt(m, x);
    SqrtOfSquare(m, 0.0);
  }

  /** sqrt(k^2 * x) = |k| * sqrt(x). */
  lemma SqrtScale(m: Math, k: real, x: real)
    requires Lawful(m) && x >= 0.0
    ensures m.sqrt(k * k * x) == Abs(k) * m.sqrt(x)
  {
    var s := m.sqrt(x);
    Sqrt(m, x);
    assert Abs(k) * s >= 0.0;
    assert (Abs(k) * s) * (Abs(k) * s) == (Abs(k) * Abs(k)) * (s * s);
    assert Abs(k) * Abs(k) == k * k;
    SqrtUnique(m, k * k * x, Abs(k) * s);
  }

  lemma Pythagoras(m: Math, a: real)
    requires Lawful(m)
    ensures m.cos(a) * m.cos(a) + m.sin(a) * m.sin(a) == 1.0
  {
    assert PythagorasAt(m, a);
  }

  lemma QuarterTurn(m: Math, a: real)
    requires Lawful(m)
    ensures m.cos(a + PI / 2.0) == -m.sin(a) && m.sin(a + PI / 2.0) == m.cos(a)
  {
    assert QuarterTurnAt(m, a);
  }

  lemma QuarterTurnBack(m: Math, a: real)
    requires Lawful(m)
    ensures m.cos(a - PI / 2.0) == m.sin(a) && m.sin(a - PI / 2.0) == -m.cos(a)
  {
    QuarterTurn(m, a - PI / 2.0);
    assert a - PI / 2.0 + PI / 2.0 == a;
  }

  lemma HalfTurn(m: Math, a: real)
    requires Lawful(m)
    ensures m.cos(a + PI) == -m.cos(a) && m.sin(a + PI) == -m.sin(a)
  {
    QuarterTurn(m, a);
    QuarterTurn(m, a + PI / 2.0);
    assert a + PI / 2.0 + PI / 2.0 == a + PI;
  }

  /** cos and sin have period 2 * PI. */
  lemma FullTurn(m: Math, a: real)
    requires Lawful(m)
    ensures m.cos(a + 2.0 * PI) == m.cos(a) && m.sin(a + 2.0 * PI) == m.sin(a)
  {
    HalfTurn(m, a);
    HalfTurn(m, a + PI);
    assert a + PI + PI == a + 2.0 * PI;
  }

  /** cos and sin have period 2 * PI over any whole number of turns. */
  lemma {:induction false} WholeTurns(m: Math, a: real, k: int)
    requires Lawful(m)
    ensures m.cos(a + 2.0 * PI * k as real) == m.cos(a)
    ensures m.sin(a + 2.0 * PI * k as real) == m.sin(a)
    decreases if k >= 0 then k else -k
  {
    if k > 0 {
      WholeTurns(m, a, k - 1);
      FullTurn(m, a + 2.0 * PI * (k - 1) as real);
      assert a + 2.0 * PI * (k - 1) as real + 2.0 * PI == a + 2.0 * PI * k as real;
    } else if k < 0 {
      WholeTurns(m, a, k + 1);
      FullTurn(m, a + 2.0 * PI * k as real);
      assert a + 2.0 * PI * k as real + 2.0 * PI == a + 2.0 * PI * (k + 1) as real;
    }
  }

  /** cos and sin agree at a direction and at its principal representative. */
  lemma PrincipalSameDirection(m: Math, a: real)
    requires Lawful(m)
    ensures m.cos(Principal(a)) == m.cos(a) && m.sin(Principal(a)) == m.sin(a)
  {
    WholeTurns(m, a, Turns(a));
  }

  /** The unit vectors at the four quarter turns. */
  lemma QuarterValues(m: Math)
    requires Lawful(m)
    ensures m.cos(PI / 2.0) == 0.0 && m.sin(PI / 2.0) == 1.0
    ensures m.cos(PI) == -1.0 && m.sin(PI) == 0.0
    ensures m.cos(-PI) == -1.0 && m.sin(-PI) == 0.0
    ensures m.cos(-PI / 2.0) == 0.0 && m.sin(-PI / 2.0) == -1.0
  {
    QuarterTurn(m, 0.0);
    HalfTurn(m, 0.0);
    HalfTurn(m, -PI);
    assert -PI + PI == 0.0;
    QuarterTurnBack(m, 0.0);
  }

  /** The unit vectors at the odd multiples of PI/4, from c = cos(PI/4). */
  lemma DiagonalValues(m: Math)
    requires Lawful(m)
    ensures m.cos(3.0 * PI / 4.0) == -m.cos(PI / 4.0) && m.sin(3.0 * PI / 4.0) == m.cos(PI / 4.0)
    ensures m.cos(-PI / 4.0) == m.cos(PI / 4.0) && m.sin(-PI / 4.0) == -m.cos(PI / 4.0)
    ensures m.cos(-3.0 * PI / 4.0) == -m.cos(PI / 4.0) && m.sin(-3.0 * PI / 4.0) == -m.cos(PI / 4.0)
  {
    QuarterTurn(m, PI / 4.0);
    assert PI / 4.0 + PI / 2.0 == 3.0 * PI / 4.0;
    QuarterTurnBack(m, PI / 4.0);
    assert PI / 4.0 - PI / 2.0 == -PI / 4.0;
    QuarterTurnBack(m, -PI / 4.0);
    assert -PI / 4.0 - PI / 2.0 == -3.0 * PI / 4.0;
  }

  lemma Atan2Range(m: Math, y: real, x: real)
    requires Lawful(m)
    ensures -PI < m.atan2(y, x) <= PI
  {
    assert Atan2RangeAt(m, y, x);
  }

  /** Any positive multiple of (cos a, sin a), a in (-PI, PI], has `atan2` a. */
  lemma Atan2OfRay(m: Math, y: real, x: real, a: real)
    requires Lawful(m) && -PI < a <= PI
    requires x * m.sin(a) == y * m.cos(a) && x * m.cos(a) + y * m.sin(a) > 0.0
    ensures m.atan2(y, x) == a
  {
    assert Atan2RayAt(m, y, x, a);
  }

  /** `atan2` inverts the polar construction: atan2(r sin a, r cos a) is the
      principal representative of a, for r > 0. */
  lemma Atan2OfPolar(m: Math, r: real, a: real)
    requires Lawful(m) && r > 0.0
    ensures m.atan2(r * m.sin(a), r * m.cos(a)) == Principal(a)
  {
    var p := Principal(a);
    PrincipalSameDirection(m, a);
    Pythagoras(m, p);
    var c, s := m.cos(p), m.sin(p);
    var x, y := r * c, r * s;
    assert x * s == y * c;
    assert x * c + y * s == r * (c * c + s * s) == r;
    Atan2OfRay(m, y, x, p);
    assert x == r * m.cos(a) && y == r * m.sin(a);
  }

  /** A point is its length, the square root of d = x^2 + y^2, times the
      unit vector at its `atan2`. */
  lemma PolarDecomposition(m: Math, y: real, x: real, d: real)
    requires Lawful(m) && d == x * x + y * y
    ensures x == m.sqrt(d) * m.cos(m.atan2(y, x))
    ensures y == m.sqrt(d) * m.sin(m.atan2(y, x))
  {
    assert PolarDecompositionAt(m, y, x);
  }

  lemma Acos(m: Math, x: real)
    requires Lawful(m) && -1.0 <= x <= 1.0
    ensures 0.0 <= m.acos(x) <= PI
  {
    assert AcosAt(m, x);
  }
}
