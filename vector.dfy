/** `src/vector.rs`: the earliest 2d vector, whose `angle` is the unsigned
    angle `acos(u . v / (|u| |v|))`. The crate root does not declare this
    file as a module, so nothing else uses it. */
module Vector {
  import opened Numerics

  /** An f32 result that is either a number or NaN. The only NaN modelled
      is the one `angle` makes when a vector has length 0. */
  datatype Float = Num(value: real) | NaN

  /** `Vec2d`; the datatype constructor is `Vec2d::new`. */
  datatype Vec2d = Vec2d(x: real, y: real) {

    /** `neg`. */
    function Neg(): Vec2d {
      Vec2d(-x, -y)
    }

    /** `add`. */
    function Add(u: Vec2d): Vec2d {
      Vec2d(x + u.x, y + u.y)
    }

    /** `dot`: a vector's dot product with itself is never negative. */
    function Dot(other: Vec2d): (d: real)
      ensures other == this ==> d >= 0.0
    {
      x * other.x + y * other.y
    }

    /** `norm`: the magnitude, sqrt(v . v). */
    function Norm(m: Math): real {
      m.sqrt(Dot(this))
    }

    /** `angle`: acos of the cosine u . v / (|u| |v|). When a vector has
        length 0 the f32 quotient has a zero divisor (and a zero
        dividend), which makes NaN, and `acos` of NaN is NaN. */
    function Angle(m: Math, other: Vec2d): Float {
      if Norm(m) * other.Norm(m) == 0.0 then NaN else Num(m.acos(Cosine(m, other)))
    }

    /** The quotient `angle` hands to `acos`. */
    function Cosine(m: Math, other: Vec2d): real
      requires Norm(m) * other.Norm(m) != 0.0
    {
      Dot(other) / (Norm(m) * other.Norm(m))
    }
  }

  // ---------------------------------------------------------------------
  // Algebra

  lemma NegInvolutive(v: Vec2d)
    ensures v.Neg().Neg() == v
    ensures v.Add(v.Neg()) == Vec2d(0.0, 0.0)
  {
  }

  lemma AddCommutative(u: Vec2d, v: Vec2d)
    ensures u.Add(v) == v.Add(u)
  {
  }

  lemma DotSymmetric(u: Vec2d, v: Vec2d)
    ensures u.Dot(v) == v.Dot(u)
  {
  }

  // ---------------------------------------------------------------------
  // Magnitude

  /** A vector other than zero has a positive dot product with itself. */
  lemma DotPositive(v: Vec2d)
    requires v != Vec2d(0.0, 0.0)
    ensures v.Dot(v) > 0.0
  {
    calc {
      v.Dot(v);
    ==
      v.x * v.x + v.y * v.y;
    > { SumOfSquaresPositive(v.x, v.y); }
      0.0;
    }
  }

  /** The magnitude is never negative, it is 0 exactly for the zero
      vector, and its square is the vector's dot product with itself. */
  lemma NormNonnegative(m: Math, v: Vec2d)
    requires Lawful(m)
    ensures v.Norm(m) >= 0.0
    ensures v.Norm(m) * v.Norm(m) == v.Dot(v)
    ensures v.Norm(m) == 0.0 <==> v == Vec2d(0.0, 0.0)
  {
    var d := v.Dot(v);
    Sqrt(m, d);
    SqrtZeroIff(m, d);
    SelfDotZero(v);
  }

  /** The dot product of a vector with itself is 0 exactly for the zero
      vector. */
  lemma SelfDotZero(v: Vec2d)
    ensures v.Dot(v) == 0.0 <==> v == Vec2d(0.0, 0.0)
  {
    if v != Vec2d(0.0, 0.0) {
      DotPositive(v);
    }
  }

  // ---------------------------------------------------------------------
  // Cauchy-Schwarz and the range of `angle`

  /** (u . v)^2 <= (u . u)(v . v). */
  lemma CauchySchwarz(u: Vec2d, v: Vec2d)
    ensures u.Dot(v) * u.Dot(v) <= u.Dot(u) * v.Dot(v)
  {
    var a, b, c, d := u.x, u.y, v.x, v.y;
    calc {
      u.Dot(v) * u.Dot(v);
    ==
      (a * c + b * d) * (a * c + b * d);
    <= { Lagrange(a, b, c, d); }
      (a * a + b * b) * (c * c + d * d);
    ==
      u.Dot(u) * v.Dot(v);
    }
  }

  /** Lagrange's identity in two dimensions leaves a square over. */
  lemma Lagrange(a: real, b: real, c: real, d: real)
    ensures (a * c + b * d) * (a * c + b * d) <= (a * a + b * b) * (c * c + d * d)
  {
    var e := a * d - b * c;
    assert (a * a + b * b) * (c * c + d * d) - (a * c + b * d) * (a * c + b * d) == e * e;
    Square(e);
  }

  /** Of two non-negative numbers, a square no larger bounds the number:
      d^2 <= p^2 gives -p <= d <= p. */
  lemma BoundBySquare(d: real, p: real)
    requires p >= 0.0 && d * d <= p * p
    ensures -p <= d <= p
  {
    if d > p {
      SquareMonotone(p, d);
    } else if -d > p {
      SquareMonotone(p, -d);
    }
  }

  lemma QuotientBounds(q: real, d: real, p: real)
    requires p > 0.0 && -p <= d <= p && q * p == d
    ensures -1.0 <= q <= 1.0
  {
    if q > 1.0 {
      MulPositive(q - 1.0, p);
    } else if q < -1.0 {
      MulPositive(-1.0 - q, p);
    }
  }


  /** The product of the magnitudes is 0 exactly when one of the vectors
      is zero, and positive otherwise. */
  lemma NormProduct(m: Math, u: Vec2d, v: Vec2d)
    requires Lawful(m)
    ensures u.Norm(m) * v.Norm(m) >= 0.0
    ensures u.Norm(m) * v.Norm(m) == 0.0 <==> u == Vec2d(0.0, 0.0) || v == Vec2d(0.0, 0.0)
  {
    NormNonnegative(m, u);
    NormNonnegative(m, v);
    if u == Vec2d(0.0, 0.0) || v == Vec2d(0.0, 0.0) {
      MulZero(u.Norm(m), v.Norm(m));
    } else {
      MulPositive(u.Norm(m), v.Norm(m));
    }
  }

  /** |u . v| <= |u| |v|. */
  lemma DotBoundedByNorms(m: Math, u: Vec2d, v: Vec2d)
    requires Lawful(m)
    ensures -(u.Norm(m) * v.Norm(m)) <= u.Dot(v) <= u.Norm(m) * v.Norm(m)
  {
    NormNonnegative(m, u);
    NormNonnegative(m, v);
    NormProduct(m, u, v);
    calc {
      u.Dot(v) * u.Dot(v);
    <= { CauchySchwarz(u, v); }
      u.Dot(u) * v.Dot(v);
    ==
      (u.Norm(m) * u.Norm(m)) * (v.Norm(m) * v.Norm(m));
    == { ProductSquare(u.Norm(m), v.Norm(m)); }
      (u.Norm(m) * v.Norm(m)) * (u.Norm(m) * v.Norm(m));
    }
    BoundBySquare(u.Dot(v), u.Norm(m) * v.Norm(m));
  }

  /** For vectors other than zero the cosine handed to `acos` lies in
      [-1, 1]. */
  lemma CosineBounds(m: Math, u: Vec2d, v: Vec2d)
    requires Lawful(m) && u != Vec2d(0.0, 0.0) && v != Vec2d(0.0, 0.0)
    ensures u.Norm(m) * v.Norm(m) > 0.0
    ensures -1.0 <= u.Cosine(m, v) <= 1.0
  {
    var p := u.Norm(m) * v.Norm(m);
    assert p > 0.0 by {
      NormProduct(m, u, v);
    }
    assert -p <= u.Dot(v) <= p by {
      DotBoundedByNorms(m, u, v);
    }
    CosineTimesNorms(m, u, v);
    QuotientBounds(u.Cosine(m, v), u.Dot(v), p);
  }

  /** Scaled back by the product of the magnitudes, the cosine gives the
      dot product again. */
  lemma CosineTimesNorms(m: Math, u: Vec2d, v: Vec2d)
    requires u.Norm(m) * v.Norm(m) != 0.0
    ensures u.Cosine(m, v) * (u.Norm(m) * v.Norm(m)) == u.Dot(v)
  {
  }

  /** `angle` is NaN exactly when one of the vectors is zero; otherwise it
      lies in [0, PI]. */
  lemma AngleRange(m: Math, u: Vec2d, v: Vec2d)
    requires Lawful(m)
    ensures u.Angle(m, v) == NaN <==> u == Vec2d(0.0, 0.0) || v == Vec2d(0.0, 0.0)
    ensures u.Angle(m, v).Num? ==> 0.0 <= u.Angle(m, v).value <= PI
  {
    NormProduct(m, u, v);
    if u != Vec2d(0.0, 0.0) && v != Vec2d(0.0, 0.0) {
      CosineBounds(m, u, v);
      Acos(m, u.Cosine(m, v));
    }
  }

  /** The unsigned angle does not depend on the order of the vectors. */
  lemma AngleSymmetric(m: Math, u: Vec2d, v: Vec2d)
    ensures u.Angle(m, v) == v.Angle(m, u)
  {
    assert u.Norm(m) * v.Norm(m) == v.Norm(m) * u.Norm(m);
    DotSymmetric(u, v);
  }

  // ---------------------------------------------------------------------
  // The values the unit tests pin down, exact in this model.

  lemma ExampleArithmetic()
    ensures Vec2d(5.0, 4.0).Neg() == Vec2d(-5.0, -4.0)
    ensures Vec2d(5.0, 4.0).Add(Vec2d(2.0, -8.0)) == Vec2d(7.0, -4.0)
    ensures Vec2d(5.0, 4.0).Dot(Vec2d(2.0, -8.0)) == -22.0
  {
  }

  lemma ExampleNorm(m: Math)
    requires Lawful(m)
    ensures Vec2d(3.0, 4.0).Norm(m) == 5.0
  {
    SqrtUnique(m, 25.0, 5.0);
  }

  /** (3, 3) and (-4, 4) are perpendicular: the angle is PI/2. */
  lemma ExampleAngle(m: Math)
    requires Lawful(m)
    ensures Vec2d(3.0, 3.0).Angle(m, Vec2d(-4.0, 4.0)) == Num(PI / 2.0)
  {
    var u, v := Vec2d(3.0, 3.0), Vec2d(-4.0, 4.0);
    NormProduct(m, u, v);
    assert u.Dot(v) == 0.0;
    assert u.Cosine(m, v) == 0.0;
  }
}
