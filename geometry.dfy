/** `src/geometry.rs`: the 2d vector with a clamping polar constructor, a
    signed angle between vectors, rotation, lengthening and scaling. The
    x axis points North and the y axis East, so a direction (`phi`) of 0
    is North and positive directions turn towards East. */
module Geometry {
  import opened Numerics

  /** `Vec2d`; the datatype constructor is `Vec2d::new`. */
  datatype Vec2d = Vec2d(x: real, y: real) {

    /** `from_polar`: the radius is clamped at 0 before the conversion, so
        a radius that is not positive gives the zero vector. */
    static function FromPolar(m: Math, r: real, phi: real): (v: Vec2d)
      ensures r <= 0.0 ==> v == Vec2d(0.0, 0.0)
    {
      var rn := Max(r, 0.0);
      Vec2d(rn * m.cos(phi), rn * m.sin(phi))
    }

    /** `neg`. */
    function Neg(): Vec2d {
      Vec2d(-x, -y)
    }

    /** `add`. */
    function Add(u: Vec2d): Vec2d {
      Vec2d(x + u.x, y + u.y)
    }

    /** `dot`: a vector's dot product with itself is never negative. */
    function Dot(other: Vec2d): (d: real)
      ensures other == this ==> d >= 0.0
    {
      x * other.x + y * other.y
    }

    /** `r`: the length, sqrt(v . v). */
    function R(m: Math): real {
      m.sqrt(Dot(this))
    }

    /** `angle`: the difference of the two directions, corrected once by a
        full turn. */
    function Angle(m: Math, other: Vec2d): real {
      WrapAngle(Phi(m) - other.Phi(m))
    }

    /** `phi`: the direction, `atan2(y, x)`. */
    function Phi(m: Math): real {
      m.atan2(y, x)
    }

    /** `rotate`: same length, direction turned by `angle`. */
    function Rotate(m: Math, angle: real): Vec2d {
      FromPolar(m, R(m), Phi(m) + angle)
    }

    /** `increase`: same direction, length changed by `amount`. */
    function Increase(m: Math, amount: real): Vec2d {
      FromPolar(m, R(m) + amount, Phi(m))
    }

    /** `multiply`: scaling by a factor, which may be negative. */
    function Multiply(v: real): Vec2d {
      Vec2d(v * x, v * y)
    }
  }

  // ---------------------------------------------------------------------
  // Algebra

  lemma NegInvolutive(v: Vec2d)
    ensures v.Neg().Neg() == v
    ensures v.Add(v.Neg()) == Vec2d(0.0, 0.0)
  {
  }

  lemma AddCommutative(u: Vec2d, v: Vec2d)
    ensures u.Add(v) == v.Add(u)
  {
  }

  lemma DotSymmetric(u: Vec2d, v: Vec2d)
    ensures u.Dot(v) == v.Dot(u)
  {
  }

  /** Multiplying by 1 changes nothing and multiplying by -1 negates. */
  lemma MultiplyByUnit(v: Vec2d)
    ensures v.Multiply(1.0) == v
    ensures v.Multiply(-1.0) == v.Neg()
  {
  }

  // ---------------------------------------------------------------------
  // Length

  /** The length is never negative, and it is 0 exactly for the zero
      vector. */
  lemma LengthNonnegative(m: Math, v: Vec2d)
    requires Lawful(m)
    ensures v.R(m) >= 0.0
    ensures v.R(m) == 0.0 <==> v == Vec2d(0.0, 0.0)
  {
    var d := v.Dot(v);
    Sqrt(m, d);
    SqrtZeroIff(m, d);
    SelfDotZero(v);
  }

  /** The dot product of a vector with itself is 0 exactly for the zero
      vector. */
  lemma SelfDotZero(v: Vec2d)
    ensures v.Dot(v) == 0.0 <==> v == Vec2d(0.0, 0.0)
  {
    if v != Vec2d(0.0, 0.0) {
      DotPositive(v);
    }
  }

  /** A vector other than zero has a positive dot product with itself. */
  lemma DotPositive(v: Vec2d)
    requires v != Vec2d(0.0, 0.0)
    ensures v.Dot(v) > 0.0
  {
    calc {
      v.Dot(v);
    ==
      v.x * v.x + v.y * v.y;
    > { SumOfSquaresPositive(v.x, v.y); }
      0.0;
    }
  }

  /** Scaling by k scales the length by |k|. */
  lemma MultiplyLength(m: Math, v: Vec2d, k: real)
    requires Lawful(m)
    ensures v.Multiply(k).R(m) == Abs(k) * v.R(m)
  {
    var w := v.Multiply(k);
    var d := v.Dot(v);
    assert w.Dot(w) == k * k * d;
    SqrtScale(m, k, d);
    assert m.sqrt(k * k * d) == Abs(k) * m.sqrt(d);
    assert w.R(m) == m.sqrt(w.Dot(w));
  }

  // ---------------------------------------------------------------------
  // Polar and cartesian form

  /** The polar constructor makes a vector of the clamped length. */
  lemma FromPolarLength(m: Math, r: real, phi: real)
    requires Lawful(m)
    ensures Vec2d.FromPolar(m, r, phi).R(m) == Max(r, 0.0)
  {
    var rn := Max(r, 0.0);
    var c, s := m.cos(phi), m.sin(phi);
    var v := Vec2d.FromPolar(m, r, phi);
    Pythagoras(m, phi);
    assert v.Dot(v) == (rn * c) * (rn * c) + (rn * s) * (rn * s);
    assert (rn * c) * (rn * c) + (rn * s) * (rn * s) == rn * rn * (c * c + s * s);
    assert c * c + s * s == 1.0;
    assert v.Dot(v) == rn * rn;
    SqrtOfSquare(m, rn);
    assert v.R(m) == m.sqrt(rn * rn) == rn;
  }

  /** A positive radius keeps the direction, up to whole turns. */
  lemma FromPolarDirection(m: Math, r: real, phi: real)
    requires Lawful(m) && r > 0.0
    ensures Vec2d.FromPolar(m, r, phi).Phi(m) == Principal(phi)
  {
    assert Vec2d.FromPolar(m, r, phi) == Vec2d(r * m.cos(phi), r * m.sin(phi));
    Atan2OfPolar(m, r, phi);
  }

  /** Length times the unit vector of the direction gives back the
      coordinates. */
  lemma PolarComponents(m: Math, v: Vec2d)
    requires Lawful(m)
    ensures v.R(m) * m.cos(v.Phi(m)) == v.x
    ensures v.R(m) * m.sin(v.Phi(m)) == v.y
  {
    PolarDecomposition(m, v.y, v.x, v.Dot(v));
  }

  /** Every vector is the polar construction of its length and direction. */
  lemma PolarRoundTrip(m: Math, v: Vec2d)
    requires Lawful(m)
    ensures Vec2d.FromPolar(m, v.R(m), v.Phi(m)) == v
  {
    LengthNonnegative(m, v);
    PolarComponents(m, v);
  }

  /** `phi` lies in (-PI, PI]. */
  lemma DirectionRange(m: Math, v: Vec2d)
    requires Lawful(m)
    ensures -PI < v.Phi(m) <= PI
  {
    Atan2Range(m, v.y, v.x);
  }

  // ---------------------------------------------------------------------
  // Signed angle between two vectors

  /** The angle is the difference of the directions moved into [-PI, PI]
      by at most one full turn. */
  lemma AngleRange(m: Math, u: Vec2d, v: Vec2d)
    requires Lawful(m)
    ensures -PI <= u.Angle(m, v) <= PI
    ensures var d := u.Phi(m) - v.Phi(m);
      u.Angle(m, v) == d || u.Angle(m, v) == d - 2.0 * PI || u.Angle(m, v) == d + 2.0 * PI
  {
    DirectionRange(m, u);
    DirectionRange(m, v);
    WrapAngleOfDifference(u.Phi(m), v.Phi(m));
  }

  /** Swapping the vectors negates the angle, also at the half turn. */
  lemma AngleAntisymmetric(m: Math, u: Vec2d, v: Vec2d)
    ensures u.Angle(m, v) == -v.Angle(m, u)
  {
    WrapAngleOdd(u.Phi(m) - v.Phi(m));
    assert v.Phi(m) - u.Phi(m) == -(u.Phi(m) - v.Phi(m));
  }

  lemma AngleToSelf(m: Math, v: Vec2d)
    ensures v.Angle(m, v) == 0.0
  {
  }

  /** The angle between two vectors built by the polar constructor is the
      wrapped difference of the directions they were built with. */
  lemma AngleOfPolars(m: Math, r1: real, a1: real, r2: real, a2: real)
    requires Lawful(m) && r1 > 0.0 && r2 > 0.0
    requires -PI < a1 <= PI && -PI < a2 <= PI
    ensures Vec2d.FromPolar(m, r1, a1).Angle(m, Vec2d.FromPolar(m, r2, a2)) == WrapAngle(a1 - a2)
  {
    FromPolarDirection(m, r1, a1);
    FromPolarDirection(m, r2, a2);
  }

  // ---------------------------------------------------------------------
  // Rotation and lengthening

  /** Rotation keeps the length. */
  lemma RotateLength(m: Math, v: Vec2d, delta: real)
    requires Lawful(m)
    ensures v.Rotate(m, delta).R(m) == v.R(m)
  {
    LengthNonnegative(m, v);
    FromPolarLength(m, v.R(m), v.Phi(m) + delta);
  }

  /** Rotating a vector other than zero by delta, less than a half turn
      either way, turns it by exactly delta. */
  lemma RotateAngle(m: Math, v: Vec2d, delta: real)
    requires Lawful(m) && v != Vec2d(0.0, 0.0) && -PI < delta < PI
    ensures v.Rotate(m, delta).Angle(m, v) == delta
  {
    LengthNonnegative(m, v);
    DirectionRange(m, v);
    var p := v.Phi(m);
    FromPolarDirection(m, v.R(m), p + delta);
  }

  /** Lengthening by `amount` gives the length r + amount, clamped at 0. */
  lemma IncreaseLength(m: Math, v: Vec2d, amount: real)
    requires Lawful(m)
    ensures v.Increase(m, amount).R(m) == Max(v.R(m) + amount, 0.0)
  {
    FromPolarLength(m, v.R(m) + amount, v.Phi(m));
  }

  /** Lengthening keeps the direction while the length stays positive. */
  lemma IncreaseDirection(m: Math, v: Vec2d, amount: real)
    requires Lawful(m) && v.R(m) + amount > 0.0
    ensures v.Increase(m, amount).Phi(m) == v.Phi(m)
  {
    DirectionRange(m, v);
    FromPolarDirection(m, v.R(m) + amount, v.Phi(m));
  }

  // ---------------------------------------------------------------------
  // The values the unit tests pin down, exact in this model.

  lemma ExampleArithmetic()
    ensures Vec2d(5.0, 4.0).Neg() == Vec2d(-5.0, -4.0)
    ensures Vec2d(5.0, 4.0).Add(Vec2d(2.0, -8.0)) == Vec2d(7.0, -4.0)
    ensures Vec2d(5.0, 4.0).Dot(Vec2d(2.0, -8.0)) == -22.0
  {
  }

  lemma ExampleLength(m: Math)
    requires Lawful(m)
    ensures Vec2d(3.0, 4.0).R(m) == 5.0
  {
    SqrtUnique(m, 25.0, 5.0);
  }

  lemma ExampleFromPolar(m: Math)
    requires Lawful(m)
    ensures Vec2d.FromPolar(m, 1.0, 0.0) == Vec2d(1.0, 0.0)
    ensures Vec2d.FromPolar(m, 1.0, PI / 2.0) == Vec2d(0.0, 1.0)
    ensures Vec2d.FromPolar(m, 1.0, PI) == Vec2d(-1.0, 0.0)
    ensures Vec2d.FromPolar(m, 1.0, 3.0 * PI / 2.0) == Vec2d(0.0, -1.0)
  {
    QuarterValues(m);
    HalfTurn(m, PI / 2.0);
    assert PI / 2.0 + PI == 3.0 * PI / 2.0;
  }

  /** (3, 3) against (1, 0) is PI/4; PI/2 against 3PI/4 is -PI/4; 7PI/8
      against -7PI/8 wraps to -PI/4, and back to PI/4; and the directions
      of the last two are 7PI/8 and -7PI/8. */
  lemma ExampleAngles(m: Math)
    requires Lawful(m)
    ensures Vec2d(3.0, 3.0).Angle(m, Vec2d(1.0, 0.0)) == PI / 4.0
    ensures Vec2d.FromPolar(m, 1.0, PI / 2.0).Angle(m, Vec2d.FromPolar(m, 1.0, 3.0 * PI / 4.0)) == -PI / 4.0
    ensures Vec2d.FromPolar(m, 1.0, 7.0 * PI / 8.0).Angle(m, Vec2d.FromPolar(m, 1.0, -7.0 * PI / 8.0)) == -PI / 4.0
    ensures Vec2d.FromPolar(m, 1.0, -7.0 * PI / 8.0).Angle(m, Vec2d.FromPolar(m, 1.0, 7.0 * PI / 8.0)) == PI / 4.0
    ensures Vec2d.FromPolar(m, 1.0, 7.0 * PI / 8.0).Phi(m) == 7.0 * PI / 8.0
    ensures Vec2d.FromPolar(m, 1.0, -7.0 * PI / 8.0).Phi(m) == -7.0 * PI / 8.0
  {
    var c := m.cos(PI / 4.0);
    Atan2OfRay(m, 3.0, 3.0, PI / 4.0);
    assert 3.0 * c + 3.0 * c > 0.0;
    Atan2OfRay(m, 0.0, 1.0, 0.0);
    AngleOfPolars(m, 1.0, PI / 2.0, 1.0, 3.0 * PI / 4.0);
    AngleOfPolars(m, 1.0, 7.0 * PI / 8.0, 1.0, -7.0 * PI / 8.0);
    AngleOfPolars(m, 1.0, -7.0 * PI / 8.0, 1.0, 7.0 * PI / 8.0);
    FromPolarDirection(m, 1.0, 7.0 * PI / 8.0);
    FromPolarDirection(m, 1.0, -7.0 * PI / 8.0);
  }

  /** Rotations across the half turn, and lengthening past zero. */
  lemma ExampleRotateIncrease(m: Math)
    requires Lawful(m)
    ensures Vec2d.FromPolar(m, 1.0, PI / 2.0).Rotate(m, PI / 4.0) == Vec2d.FromPolar(m, 1.0, 3.0 * PI / 4.0)
    ensures Vec2d.FromPolar(m, 1.0, 3.0 * PI / 4.0).Rotate(m, PI / 2.0) == Vec2d.FromPolar(m, 1.0, -3.0 * PI / 4.0)
    ensures Vec2d.FromPolar(m, 1.0, -3.0 * PI / 4.0).Rotate(m, -PI / 2.0) == Vec2d.FromPolar(m, 1.0, 3.0 * PI / 4.0)
    ensures Vec2d.FromPolar(m, 1.0, 0.0).Increase(m, 3.0) == Vec2d.FromPolar(m, 4.0, 0.0)
    ensures Vec2d.FromPolar(m, 1.0, 0.0).Increase(m, -3.0) == Vec2d.FromPolar(m, 0.0, 0.0)
  {
    FromPolarLength(m, 1.0, PI / 2.0);
    FromPolarDirection(m, 1.0, PI / 2.0);
    assert PI / 2.0 + PI / 4.0 == 3.0 * PI / 4.0;
    FromPolarLength(m, 1.0, 3.0 * PI / 4.0);
    FromPolarDirection(m, 1.0, 3.0 * PI / 4.0);
    PrincipalSameDirection(m, 3.0 * PI / 4.0 + PI / 2.0);
    FromPolarLength(m, 1.0, -3.0 * PI / 4.0);
    FromPolarDirection(m, 1.0, -3.0 * PI / 4.0);
    PrincipalSameDirection(m, -3.0 * PI / 4.0 - PI / 2.0);
    FromPolarLength(m, 1.0, 0.0);
    FromPolarDirection(m, 1.0, 0.0);
  }
}
