/** `src/goemetry.rs` (the file name is the source's own spelling): the
    older 2d vector, whose polar constructor does not clamp the radius and
    whose length and direction are called `norm` and `dir`. This is the
    vector `Wind` holds. */
module Goemetry {
  import opened Numerics

  /** `Vec2d`; the datatype constructor is `Vec2d::new`. */
  datatype Vec2d = Vec2d(x: real, y: real) {

    /** `from_polar`: (r cos phi, r sin phi) for every r, negative ones
        included. */
    static function FromPolar(m: Math, r: real, phi: real): Vec2d {
      Vec2d(r * m.cos(phi), r * m.sin(phi))
    }

    /** `neg`. */
    function Neg(): Vec2d {
      Vec2d(-x, -y)
    }

    /** `add`. */
    function Add(u: Vec2d): Vec2d {
      Vec2d(x + u.x, y + u.y)
    }

    /** `dot`: a vector's dot product with itself is never negative. */
    function Dot(other: Vec2d): (d: real)
      ensures other == this ==> d >= 0.0
    {
      x * other.x + y * other.y
    }

    /** `norm`: the magnitude, sqrt(v . v). */
    function Norm(m: Math): real {
      m.sqrt(Dot(this))
    }

    /** `angle`: the difference of the two directions, corrected once by a
        full turn. */
    function Angle(m: Math, other: Vec2d): real {
      WrapAngle(Dir(m) - other.Dir(m))
    }

    /** `dir`: the direction, `atan2(y, x)`. */
    function Dir(m: Math): real {
      m.atan2(y, x)
    }
  }

  // ---------------------------------------------------------------------
  // Algebra

  /** Negation is undone by negation, and a vector plus its negation is
      the zero vector. */
  lemma NegInvolutive(v: Vec2d)
    ensures v.Neg().Neg() == v
    ensures v.Add(v.Neg()) == Vec2d(0.0, 0.0)
  {
  }

  lemma AddCommutative(u: Vec2d, v: Vec2d)
    ensures u.Add(v) == v.Add(u)
  {
  }

  lemma DotSymmetric(u: Vec2d, v: Vec2d)
    ensures u.Dot(v) == v.Dot(u)
  {
  }

  // ---------------------------------------------------------------------
  // Magnitude

  /** A vector other than zero has a positive dot product with itself. */
  lemma DotPositive(v: Vec2d)
    requires v != Vec2d(0.0, 0.0)
    ensures v.Dot(v) > 0.0
  {
    calc {
      v.Dot(v);
    ==
      v.x * v.x + v.y * v.y;
    > { SumOfSquaresPositive(v.x, v.y); }
      0.0;
    }
  }

  /** The magnitude is never negative, and it is 0 exactly for the zero
      vector. */
  lemma NormNonnegative(m: Math, v: Vec2d)
    requires Lawful(m)
    ensures v.Norm(m) >= 0.0
    ensures v.Norm(m) == 0.0 <==> v == Vec2d(0.0, 0.0)
  {
    var d := v.Dot(v);
    Sqrt(m, d);
    SqrtZeroIff(m, d);
    SelfDotZero(v);
  }

  /** The dot product of a vector with itself is 0 exactly for the zero
      vector. */
  lemma SelfDotZero(v: Vec2d)
    ensures v.Dot(v) == 0.0 <==> v == Vec2d(0.0, 0.0)
  {
    if v != Vec2d(0.0, 0.0) {
      DotPositive(v);
    }
  }

  // ---------------------------------------------------------------------
  // Polar and cartesian form

  /** Without the clamp, a negative radius points the other way. */
  lemma FromPolarNegativeRadius(m: Math, r: real, phi: real)
    ensures Vec2d.FromPolar(m, -r, phi) == Vec2d.FromPolar(m, r, phi).Neg()
  {
  }

  /** The polar constructor makes a vector whose magnitude is |r|. */
  lemma FromPolarNorm(m: Math, r: real, phi: real)
    requires Lawful(m)
    ensures Vec2d.FromPolar(m, r, phi).Norm(m) == Abs(r)
  {
    var c, s := m.cos(phi), m.sin(phi);
    var v := Vec2d.FromPolar(m, r, phi);
    Pythagoras(m, phi);
    assert v.Dot(v) == (r * c) * (r * c) + (r * s) * (r * s);
    assert (r * c) * (r * c) + (r * s) * (r * s) == r * r * (c * c + s * s);
    assert c * c + s * s == 1.0;
    assert v.Dot(v) == r * r;
    SqrtOfSquare(m, r);
    assert v.Norm(m) == m.sqrt(r * r) == Abs(r);
  }

  /** A positive radius keeps the direction, up to whole turns. */
  lemma FromPolarDir(m: Math, r: real, phi: real)
    requires Lawful(m) && r > 0.0
    ensures Vec2d.FromPolar(m, r, phi).Dir(m) == Principal(phi)
  {
    assert Vec2d.FromPolar(m, r, phi) == Vec2d(r * m.cos(phi), r * m.sin(phi));
    Atan2OfPolar(m, r, phi);
  }

  /** Magnitude times the unit vector of the direction gives back the
      coordinates. */
  lemma PolarComponents(m: Math, v: Vec2d)
    requires Lawful(m)
    ensures v.Norm(m) * m.cos(v.Dir(m)) == v.x
    ensures v.Norm(m) * m.sin(v.Dir(m)) == v.y
  {
    PolarDecomposition(m, v.y, v.x, v.Dot(v));
  }

  /** Every vector is the polar construction of its magnitude and
      direction. */
  lemma PolarRoundTrip(m: Math, v: Vec2d)
    requires Lawful(m)
    ensures Vec2d.FromPolar(m, v.Norm(m), v.Dir(m)) == v
  {
    PolarComponents(m, v);
  }

  /** `dir` lies in (-PI, PI]. */
  lemma DirRange(m: Math, v: Vec2d)
    requires Lawful(m)
    ensures -PI < v.Dir(m) <= PI
  {
    Atan2Range(m, v.y, v.x);
  }

  // ---------------------------------------------------------------------
  // Signed angle between two vectors

  /** The angle is the difference of the directions moved into [-PI, PI]
      by at most one full turn. */
  lemma AngleRange(m: Math, u: Vec2d, v: Vec2d)
    requires Lawful(m)
    ensures -PI <= u.Angle(m, v) <= PI
    ensures var d := u.Dir(m) - v.Dir(m);
      u.Angle(m, v) == d || u.Angle(m, v) == d - 2.0 * PI || u.Angle(m, v) == d + 2.0 * PI
  {
    DirRange(m, u);
    DirRange(m, v);
    WrapAngleOfDifference(u.Dir(m), v.Dir(m));
  }

  /** Swapping the vectors negates the angle, also at the half turn. */
  lemma AngleAntisymmetric(m: Math, u: Vec2d, v: Vec2d)
    ensures u.Angle(m, v) == -v.Angle(m, u)
  {
    WrapAngleOdd(u.Dir(m) - v.Dir(m));
    assert v.Dir(m) - u.Dir(m) == -(u.Dir(m) - v.Dir(m));
  }

  lemma AngleToSelf(m: Math, v: Vec2d)
    ensures v.Angle(m, v) == 0.0
  {
  }

  /** The angle between two vectors built by the polar constructor with
      positive radii is the wrapped difference of the directions they were
      built with. */
  lemma AngleOfPolars(m: Math, r1: real, a1: real, r2: real, a2: real)
    requires Lawful(m) && r1 > 0.0 && r2 > 0.0
    requires -PI < a1 <= PI && -PI < a2 <= PI
    ensures Vec2d.FromPolar(m, r1, a1).Angle(m, Vec2d.FromPolar(m, r2, a2)) == WrapAngle(a1 - a2)
  {
    FromPolarDir(m, r1, a1);
    FromPolarDir(m, r2, a2);
  }

  // ---------------------------------------------------------------------
  // The values the unit tests pin down, exact in this model.

  lemma ExampleArithmetic()
    ensures Vec2d(5.0, 4.0).Neg() == Vec2d(-5.0, -4.0)
    ensures Vec2d(5.0, 4.0).Add(Vec2d(2.0, -8.0)) == Vec2d(7.0, -4.0)
    ensures Vec2d(5.0, 4.0).Dot(Vec2d(2.0, -8.0)) == -22.0
  {
  }

  lemma ExampleNorm(m: Math)
    requires Lawful(m)
    ensures Vec2d(3.0, 4.0).Norm(m) == 5.0
  {
    SqrtUnique(m, 25.0, 5.0);
  }

  lemma ExampleFromPolar(m: Math)
    requires Lawful(m)
    ensures Vec2d.FromPolar(m, 1.0, 0.0) == Vec2d(1.0, 0.0)
    ensures Vec2d.FromPolar(m, 1.0, PI / 2.0) == Vec2d(0.0, 1.0)
    ensures Vec2d.FromPolar(m, 1.0, PI) == Vec2d(-1.0, 0.0)
    ensures Vec2d.FromPolar(m, 1.0, 3.0 * PI / 2.0) == Vec2d(0.0, -1.0)
  {
    QuarterValues(m);
    HalfTurn(m, PI / 2.0);
    assert PI / 2.0 + PI == 3.0 * PI / 2.0;
  }

  /** (3, 3) against (1, 0) is PI/4; PI/2 against 3PI/4 is -PI/4; 7PI/8
      against -7PI/8 wraps to -PI/4, and back to PI/4; and the directions
      of the last two are 7PI/8 and -7PI/8. */
  lemma ExampleAngles(m: Math)
    requires Lawful(m)
    ensures Vec2d(3.0, 3.0).Angle(m, Vec2d(1.0, 0.0)) == PI / 4.0
    ensures Vec2d.FromPolar(m, 1.0, PI / 2.0).Angle(m, Vec2d.FromPolar(m, 1.0, 3.0 * PI / 4.0)) == -PI / 4.0
    ensures Vec2d.FromPolar(m, 1.0, 7.0 * PI / 8.0).Angle(m, Vec2d.FromPolar(m, 1.0, -7.0 * PI / 8.0)) == -PI / 4.0
    ensures Vec2d.FromPolar(m, 1.0, -7.0 * PI / 8.0).Angle(m, Vec2d.FromPolar(m, 1.0, 7.0 * PI / 8.0)) == PI / 4.0
    ensures Vec2d.FromPolar(m, 1.0, 7.0 * PI / 8.0).Dir(m) == 7.0 * PI / 8.0
    ensures Vec2d.FromPolar(m, 1.0, -7.0 * PI / 8.0).Dir(m) == -7.0 * PI / 8.0
  {
    var c := m.cos(PI / 4.0);
    Atan2OfRay(m, 3.0, 3.0, PI / 4.0);
    assert 3.0 * c + 3.0 * c > 0.0;
    Atan2OfRay(m, 0.0, 1.0, 0.0);
    AngleOfPolars(m, 1.0, PI / 2.0, 1.0, 3.0 * PI / 4.0);
    AngleOfPolars(m, 1.0, 7.0 * PI / 8.0, 1.0, -7.0 * PI / 8.0);
    AngleOfPolars(m, 1.0, -7.0 * PI / 8.0, 1.0, 7.0 * PI / 8.0);
    FromPolarDir(m, 1.0, 7.0 * PI / 8.0);
    FromPolarDir(m, 1.0, -7.0 * PI / 8.0);
  }
}
