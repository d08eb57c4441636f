/** `src/aerodynamics.rs`: the lift coefficient of the sail, read from an
    empirical table by linear interpolation, and the lift force built from
    it.

    The file imports the `goemetry.rs` vector but calls `r` and `phi`,
    which only the `geometry.rs` vector has; the model uses the
    `geometry.rs` vector, whose clamping `from_polar` is the one whose
    behaviour the lift depends on. */
module Aerodynamics {
  import opened Numerics
  import opened Geometry

  /** `AIR_DENSITY`. */
  const AIR_DENSITY: real := 1.0

  /** A coefficient table: one entry per 10 degrees of attack, 0 to 100. */
  type Table = t: seq<real> | |t| == 11
    witness [0.0, 0.0, 0.0, 0.0, 0.0, 0.0, 0.0, 0.0, 0.0, 0.0, 0.0]

  /** `LIFT_COEFF`. */
  const LIFT_COEFF: Table := [0.0, 0.1, 1.3, 1.5, 1.4, 1.3, 1.0, 0.8, 0.4, 0.3, 0.15]

  // ---------------------------------------------------------------------
  // The f32 helpers the lookup uses

  /** `angle / PI * 180.0`: radians to degrees. */
  function Degrees(radians: real): real {
    radians / PI * 180.0
  }

  /** `f32::trunc`: rounding towards zero. */
  function Trunc(x: real): (t: int)
    ensures Abs(t as real) <= Abs(x) < Abs(t as real) + 1.0
    ensures (t as real) * x >= 0.0
  {
    if x >= 0.0 then x.Floor else -((-x).Floor)
  }

  /** `f32::fract`: x minus its truncation, so it has the sign of x. */
  function Fract(x: real): (f: real)
    ensures -1.0 < f < 1.0
    ensures x >= 0.0 ==> 0.0 <= f < 1.0
  {
    x - Trunc(x) as real
  }

  /** c lies on the closed segment between a and b. */
  predicate Between(c: real, a: real, b: real) {
    if a <= b then a <= c <= b else b <= c <= a
  }

  // ---------------------------------------------------------------------
  // `airfoil_coefficient`

  /** `airfoil_coefficient`: 0 outside [0, 99] degrees; inside, the entry of
      the 10-degree step the angle falls in, moved towards the next entry in
      proportion to the angle's position within the step. */
  function AirfoilCoefficient(angleOfAttack: real, table: Table): (c: real)
    ensures Degrees(angleOfAttack) > 99.0 || Degrees(angleOfAttack) < 0.0 ==> c == 0.0
  {
    var angle := Degrees(angleOfAttack);
    if angle > 99.0 || angle < 0.0 then 0.0
    else
      var idx := (angle / 10.0).Floor;
      var a := table[idx];
      var b := table[idx + 1];
      a + (b - a) * Fract(angle / 10.0)
  }

  /** The step a degree value in [0, 99] falls in is one of 0 to 9, so both
      `table[idx]` and `table[idx + 1]` exist. */
  lemma StepInBounds(angle: real)
    requires 0.0 <= angle <= 99.0
    ensures 0 <= (angle / 10.0).Floor <= 9
  {
  }

  /** On every step [10 i, 10 i + 10) inside [0, 99] the coefficient is the
      straight line from `table[i]` at 10 i towards `table[i + 1]` at
      10 i + 10. */
  lemma CoefficientOnStep(angleOfAttack: real, table: Table, i: int)
    requires 0 <= i <= 9
    requires 10.0 * i as real <= Degrees(angleOfAttack) < 10.0 * i as real + 10.0
    requires Degrees(angleOfAttack) <= 99.0
    ensures AirfoilCoefficient(angleOfAttack, table)
      == table[i] + (table[i + 1] - table[i]) * ((Degrees(angleOfAttack) - 10.0 * i as real) / 10.0)
  {
    var angle := Degrees(angleOfAttack);
    assert (angle / 10.0).Floor == i;
    assert Fract(angle / 10.0) == (angle - 10.0 * i as real) / 10.0;
  }

  /** At a multiple of 10 degrees the coefficient is the table entry. */
  lemma CoefficientAtTableEntry(angleOfAttack: real, table: Table, i: int)
    requires 0 <= i <= 9 && Degrees(angleOfAttack) == 10.0 * i as real
    ensures AirfoilCoefficient(angleOfAttack, table) == table[i]
  {
    CoefficientOnStep(angleOfAttack, table, i);
  }

  lemma Interpolation(a: real, b: real, f: real)
    requires 0.0 <= f <= 1.0
    ensures Between(a + (b - a) * f, a, b)
  {
    if a <= b {
      MulNonnegative(b - a, f);
      MulNonnegative(b - a, 1.0 - f);
    } else {
      MulNonnegative(a - b, f);
      MulNonnegative(a - b, 1.0 - f);
    }
  }

  /** Inside [0, 99] degrees the coefficient lies between the two table
      entries it interpolates. */
  lemma CoefficientBetweenEntries(angleOfAttack: real, table: Table)
    requires 0.0 <= Degrees(angleOfAttack) <= 99.0
    ensures var i := (Degrees(angleOfAttack) / 10.0).Floor;
      0 <= i <= 9 && Between(AirfoilCoefficient(angleOfAttack, table), table[i], table[i + 1])
  {
    var angle := Degrees(angleOfAttack);
    var i := (angle / 10.0).Floor;
    StepInBounds(angle);
    assert 10.0 * i as real <= angle < 10.0 * i as real + 10.0;
    CoefficientOnStep(angleOfAttack, table, i);
    Interpolation(table[i], table[i + 1], (angle - 10.0 * i as real) / 10.0);
  }

  /** Every entry of `LIFT_COEFF` lies in [0, 1.5], so every lift
      coefficient does. */
  lemma LiftCoefficientBounds(angleOfAttack: real)
    ensures 0.0 <= AirfoilCoefficient(angleOfAttack, LIFT_COEFF) <= 1.5
  {
    var angle := Degrees(angleOfAttack);
    if 0.0 <= angle <= 99.0 {
      CoefficientBetweenEntries(angleOfAttack, LIFT_COEFF);
    }
  }

  /** Past 0 degrees and up to 99 degrees the sail gives lift. */
  lemma LiftCoefficientPositive(angleOfAttack: real)
    requires 0.0 < Degrees(angleOfAttack) <= 99.0
    ensures AirfoilCoefficient(angleOfAttack, LIFT_COEFF) > 0.0
  {
    var angle := Degrees(angleOfAttack);
    var i := (angle / 10.0).Floor;
    CoefficientBetweenEntries(angleOfAttack, LIFT_COEFF);
    if i == 0 {
      CoefficientOnStep(angleOfAttack, LIFT_COEFF, 0);
    }
  }

  /** The three values the unit test checks. */
  lemma ExampleCoefficient()
    ensures AirfoilCoefficient(0.0, LIFT_COEFF) == 0.0
    ensures AirfoilCoefficient(PI, LIFT_COEFF) == 0.0
    ensures AirfoilCoefficient(PI / 4.0, LIFT_COEFF) == 1.35
  {
    CoefficientAtTableEntry(0.0, LIFT_COEFF, 0);
    assert Degrees(PI) == 180.0;
    assert Degrees(PI / 4.0) == 45.0;
    CoefficientOnStep(PI / 4.0, LIFT_COEFF, 4);
  }

  // ---------------------------------------------------------------------
  // `lift`

  /** 1/2 rho |w|^2 A cl: the magnitude of the lift for a wind speed, a
      sail area and a lift coefficient. */
  function LiftMagnitude(windSpeed: real, sailArea: real, cl: real): real {
    0.5 * AIR_DENSITY * windSpeed * windSpeed * sailArea * cl
  }

  /** The direction of the lift: a quarter turn from the wind's direction,
      towards East of it when the angle of attack is positive and towards
      West of it otherwise. */
  function LiftDirection(m: Math, wind: Vec2d, aoa: real): real {
    if aoa > 0.0 then wind.Phi(m) + PI / 2.0 else wind.Phi(m) - PI / 2.0
  }

  /** The angle of attack: the signed angle from the sail's chord to the
      direction the wind comes from. */
  function AttackAngle(m: Math, wind: Vec2d, chord: Vec2d): real {
    wind.Neg().Angle(m, chord)
  }

  /** The lift once the angle of attack is known: the coefficient of |aoa|
      gives the magnitude, the sign of aoa the side. */
  function LiftForAttack(m: Math, wind: Vec2d, sailArea: real, aoa: real): Vec2d {
    Vec2d.FromPolar(m,
      LiftMagnitude(wind.R(m), sailArea, AirfoilCoefficient(Abs(aoa), LIFT_COEFF)),
      LiftDirection(m, wind, aoa))
  }

  /** The sail's chord as the source builds it, `from_polar(sail_angle, 1.)`:
      the sail angle is passed as the radius and 1 as the direction. */
  function SailChord(m: Math, sailAngle: real): Vec2d {
    Vec2d.FromPolar(m, sailAngle, 1.0)
  }

  /** `lift`, as written. */
  function Lift(m: Math, wind: Vec2d, sailArea: real, sailAngle: real): Vec2d {
    LiftForAttack(m, wind, sailArea, AttackAngle(m, wind, SailChord(m, sailAngle)))
  }

  /** The chord `from_polar(1., sail_angle)`: a unit vector at the sail
      angle. */
  function SailChordIntended(m: Math, sailAngle: real): Vec2d {
    Vec2d.FromPolar(m, 1.0, sailAngle)
  }

  /** `lift` with the chord the sail angle describes. */
  function LiftIntended(m: Math, wind: Vec2d, sailArea: real, sailAngle: real): Vec2d {
    LiftForAttack(m, wind, sailArea, AttackAngle(m, wind, SailChordIntended(m, sailAngle)))
  }

  /** The angle of attack lies in [-PI, PI], so |aoa| is at most 180
      degrees. */
  lemma AttackAngleRange(m: Math, wind: Vec2d, chord: Vec2d)
    requires Lawful(m)
    ensures -PI <= AttackAngle(m, wind, chord) <= PI
    ensures 0.0 <= Degrees(Abs(AttackAngle(m, wind, chord))) <= 180.0
  {
    AngleRange(m, wind.Neg(), chord);
  }

  /** The magnitude is never negative for a sail area that is not, with the
      coefficients of `LIFT_COEFF`; it is 0 in still air. */
  lemma LiftMagnitudeNonnegative(windSpeed: real, sailArea: real, aoa: real)
    requires sailArea >= 0.0
    ensures LiftMagnitude(windSpeed, sailArea, AirfoilCoefficient(aoa, LIFT_COEFF)) >= 0.0
    ensures windSpeed == 0.0 ==> LiftMagnitude(windSpeed, sailArea, AirfoilCoefficient(aoa, LIFT_COEFF)) == 0.0
  {
    var cl := AirfoilCoefficient(aoa, LIFT_COEFF);
    LiftCoefficientBounds(aoa);
    MulNonnegative(sailArea, cl);
    Square(windSpeed);
    MulNonnegative(windSpeed * windSpeed, sailArea * cl);
    assert LiftMagnitude(windSpeed, sailArea, cl) == 0.5 * ((windSpeed * windSpeed) * (sailArea * cl));
  }

  /** The lift's length is its magnitude, clamped at 0 by `from_polar`. */
  lemma LiftLength(m: Math, wind: Vec2d, sailArea: real, aoa: real)
    requires Lawful(m)
    ensures LiftForAttack(m, wind, sailArea, aoa).R(m)
      == Max(LiftMagnitude(wind.R(m), sailArea, AirfoilCoefficient(Abs(aoa), LIFT_COEFF)), 0.0)
    ensures sailArea >= 0.0 ==>
      LiftForAttack(m, wind, sailArea, aoa).R(m) == LiftMagnitude(wind.R(m), sailArea, AirfoilCoefficient(Abs(aoa), LIFT_COEFF))
  {
    var lm := LiftMagnitude(wind.R(m), sailArea, AirfoilCoefficient(Abs(aoa), LIFT_COEFF));
    FromPolarLength(m, lm, LiftDirection(m, wind, aoa));
    if sailArea >= 0.0 {
      LiftMagnitudeNonnegative(wind.R(m), sailArea, Abs(aoa));
    }
  }

  /** Still air gives no lift. */
  lemma NoWindNoLift(m: Math, sailArea: real, aoa: real)
    requires Lawful(m)
    ensures LiftForAttack(m, Vec2d(0.0, 0.0), sailArea, aoa) == Vec2d(0.0, 0.0)
  {
    var w := Vec2d(0.0, 0.0);
    LengthNonnegative(m, w);
    ZeroSpeedZeroMagnitude(sailArea, AirfoilCoefficient(Abs(aoa), LIFT_COEFF));
  }

  lemma ZeroSpeedZeroMagnitude(sailArea: real, cl: real)
    ensures LiftMagnitude(0.0, sailArea, cl) == 0.0
  {
  }

  /** The lift is perpendicular to the wind. */
  lemma LiftPerpendicular(m: Math, wind: Vec2d, sailArea: real, aoa: real)
    requires Lawful(m)
    ensures LiftForAttack(m, wind, sailArea, aoa).Dot(wind) == 0.0
  {
    var lm := LiftMagnitude(wind.R(m), sailArea, AirfoilCoefficient(Abs(aoa), LIFT_COEFF));
    QuarterTurnPerpendicular(m, wind, lm);
  }

  /** A vector a quarter turn from w, either way, is perpendicular to w. */
  lemma QuarterTurnPerpendicular(m: Math, w: Vec2d, r: real)
    requires Lawful(m)
    ensures Vec2d.FromPolar(m, r, w.Phi(m) + PI / 2.0).Dot(w) == 0.0
    ensures Vec2d.FromPolar(m, r, w.Phi(m) - PI / 2.0).Dot(w) == 0.0
  {
    var k := Max(r, 0.0);
    var p := w.Phi(m);
    var c, s := m.cos(p), m.sin(p);
    PolarComponents(m, w);
    QuarterTurn(m, p);
    QuarterTurnBack(m, p);
    assert Vec2d.FromPolar(m, r, p + PI / 2.0) == Vec2d(k * -s, k * c);
    assert Vec2d.FromPolar(m, r, p - PI / 2.0) == Vec2d(k * s, k * -c);
    QuarterProducts(k, w.R(m), c, s);
  }

  /** With a positive magnitude the lift is a quarter turn from the wind:
      towards East of it (PI/2) when the angle of attack is positive, and
      towards West of it (-PI/2) otherwise. */
  lemma LiftSide(m: Math, wind: Vec2d, sailArea: real, aoa: real)
    requires Lawful(m)
    requires LiftMagnitude(wind.R(m), sailArea, AirfoilCoefficient(Abs(aoa), LIFT_COEFF)) > 0.0
    ensures LiftForAttack(m, wind, sailArea, aoa).Angle(m, wind) == if aoa > 0.0 then PI / 2.0 else -PI / 2.0
  {
    var lm := LiftMagnitude(wind.R(m), sailArea, AirfoilCoefficient(Abs(aoa), LIFT_COEFF));
    QuarterTurnAngle(m, wind, lm);
  }

  /** A vector of positive length a quarter turn from w makes the angle
      PI/2 or -PI/2 with w. */
  lemma QuarterTurnAngle(m: Math, w: Vec2d, r: real)
    requires Lawful(m) && r > 0.0
    ensures Vec2d.FromPolar(m, r, w.Phi(m) + PI / 2.0).Angle(m, w) == PI / 2.0
    ensures Vec2d.FromPolar(m, r, w.Phi(m) - PI / 2.0).Angle(m, w) == -PI / 2.0
  {
    var p := w.Phi(m);
    DirectionRange(m, w);
    FromPolarDirection(m, r, p + PI / 2.0);
    FromPolarDirection(m, r, p - PI / 2.0);
  }

  /** Mirroring the angle of attack keeps the magnitude and flips the
      lift to the other side. */
  lemma LiftMirror(m: Math, wind: Vec2d, sailArea: real, aoa: real)
    requires Lawful(m)
    ensures LiftForAttack(m, wind, sailArea, -aoa) == LiftForAttack(m, wind, sailArea, aoa).Neg()
  {
    if aoa == 0.0 {
      NoAttackNoLift(m, wind, sailArea);
    } else {
      var lm := LiftMagnitude(wind.R(m), sailArea, AirfoilCoefficient(Abs(aoa), LIFT_COEFF));
      assert Abs(-aoa) == Abs(aoa);
      OppositeQuarterTurns(m, lm, wind.Phi(m));
    }
  }

  /** An angle of attack of 0 gives no lift: the coefficient is the first
      table entry, 0. */
  lemma NoAttackNoLift(m: Math, wind: Vec2d, sailArea: real)
    ensures LiftForAttack(m, wind, sailArea, 0.0) == Vec2d(0.0, 0.0)
  {
    CoefficientAtTableEntry(0.0, LIFT_COEFF, 0);
    assert AirfoilCoefficient(Abs(0.0), LIFT_COEFF) == 0.0;
    ZeroCoefficientZeroMagnitude(wind.R(m), sailArea);
  }

  lemma ZeroCoefficientZeroMagnitude(windSpeed: real, sailArea: real)
    ensures LiftMagnitude(windSpeed, sailArea, 0.0) == 0.0
  {
  }

  lemma OppositeQuarterTurns(m: Math, r: real, p: real)
    requires Lawful(m)
    ensures Vec2d.FromPolar(m, r, p - PI / 2.0) == Vec2d.FromPolar(m, r, p + PI / 2.0).Neg()
  {
    QuarterTurn(m, p);
    QuarterTurnBack(m, p);
  }

  // ---------------------------------------------------------------------
  // The swapped arguments of `from_polar` in `lift`

  /** As written, the chord points at 1 radian for every positive sail
      angle, and is the zero vector, whose `phi` is 0, otherwise. */
  lemma SailChordDirection(m: Math, sailAngle: real)
    requires Lawful(m)
    ensures SailChord(m, sailAngle).Phi(m) == if sailAngle > 0.0 then 1.0 else 0.0
  {
    if sailAngle > 0.0 {
      FromPolarDirection(m, sailAngle, 1.0);
    }
  }

  /** With the arguments in order the chord points along the sail angle,
      taken in (-PI, PI]. */
  lemma SailChordIntendedDirection(m: Math, sailAngle: real)
    requires Lawful(m)
    ensures SailChordIntended(m, sailAngle).Phi(m) == Principal(sailAngle)
  {
    FromPolarDirection(m, 1.0, sailAngle);
  }

  /** The lift as written is the intended lift for a sail angle of 1 radian
      when the sail angle is positive, and of 0 otherwise: the value of the
      sail angle is lost. */
  lemma LiftAsWritten(m: Math, wind: Vec2d, sailArea: real, sailAngle: real)
    requires Lawful(m)
    ensures Lift(m, wind, sailArea, sailAngle)
      == LiftIntended(m, wind, sailArea, if sailAngle > 0.0 then 1.0 else 0.0)
  {
    var s := if sailAngle > 0.0 then 1.0 else 0.0;
    SailChordDirection(m, sailAngle);
    SailChordIntendedDirection(m, s);
    assert AttackAngle(m, wind, SailChord(m, sailAngle)) == AttackAngle(m, wind, SailChordIntended(m, s));
  }

  /** Two positive sail angles, or two that are not, give the same lift. */
  lemma LiftIgnoresSailAngle(m: Math, wind: Vec2d, sailArea: real, s1: real, s2: real)
    requires Lawful(m) && (s1 > 0.0 <==> s2 > 0.0)
    ensures Lift(m, wind, sailArea, s1) == Lift(m, wind, sailArea, s2)
  {
    LiftAsWritten(m, wind, sailArea, s1);
    LiftAsWritten(m, wind, sailArea, s2);
  }

  /** With the chord the sail angle describes, the angle of attack is the
      wrapped angle from the sail to the direction the wind comes from. */
  lemma IntendedAttackAngle(m: Math, wind: Vec2d, sailAngle: real)
    requires Lawful(m)
    ensures AttackAngle(m, wind, SailChordIntended(m, sailAngle)) == WrapAngle(wind.Neg().Phi(m) - Principal(sailAngle))
  {
    SailChordIntendedDirection(m, sailAngle);
  }

  // ---------------------------------------------------------------------
  // Worked cases

  /** A wind of unit speed and a unit sail give the magnitude cl / 2. */
  lemma UnitMagnitude(cl: real)
    ensures LiftMagnitude(1.0, 1.0, cl) == 0.5 * cl
  {
  }

  /** The wind (1, 0) has length 1. */
  lemma NorthWindLength(m: Math)
    requires Lawful(m)
    ensures Vec2d(1.0, 0.0).R(m) == 1.0
  {
    assert Vec2d(1.0, 0.0).Dot(Vec2d(1.0, 0.0)) == 1.0 * 1.0;
    SqrtOfSquare(m, 1.0);
  }

  /** (1, 0) points North (0) and (-1, 0) South (PI). */
  lemma NorthSouthDirections(m: Math)
    requires Lawful(m)
    ensures Vec2d(1.0, 0.0).Phi(m) == 0.0
    ensures Vec2d(-1.0, 0.0).Phi(m) == PI
  {
    QuarterValues(m);
    Atan2OfRay(m, 0.0, 1.0, 0.0);
    Atan2OfRay(m, 0.0, -1.0, PI);
  }

  /** Wind (1, 0) and sail angle PI/2: as written the chord points at 1
      radian and the angle of attack is PI - 1. */
  lemma NorthWindAttack(m: Math)
    requires Lawful(m)
    ensures AttackAngle(m, Vec2d(1.0, 0.0), SailChord(m, PI / 2.0)) == PI - 1.0
  {
    NorthSouthDirections(m);
    assert Vec2d(1.0, 0.0).Neg() == Vec2d(-1.0, 0.0);
    SailChordDirection(m, PI / 2.0);
  }

  /** With the chord along the sail angle it is PI/2. */
  lemma NorthWindAttackIntended(m: Math)
    requires Lawful(m)
    ensures AttackAngle(m, Vec2d(1.0, 0.0), SailChordIntended(m, PI / 2.0)) == PI / 2.0
  {
    NorthSouthDirections(m);
    assert Vec2d(1.0, 0.0).Neg() == Vec2d(-1.0, 0.0);
    IntendedAttackAngle(m, Vec2d(1.0, 0.0), PI / 2.0);
  }

  /** Wind (1, 0), sail area 1, sail angle PI/2: as written the angle of
      attack is past 99 degrees and there is no lift. */
  lemma ExampleSwappedAsWritten(m: Math)
    requires Lawful(m)
    ensures Lift(m, Vec2d(1.0, 0.0), 1.0, PI / 2.0) == Vec2d(0.0, 0.0)
  {
    var w := Vec2d(1.0, 0.0);
    NorthWindAttack(m);
    assert Degrees(Abs(PI - 1.0)) > 99.0;
    UnitMagnitude(AirfoilCoefficient(Abs(PI - 1.0), LIFT_COEFF));
  }

  /** The same wind, sail and sail angle with the chord along the sail
      angle: the angle of attack is 90 degrees and the lift has magnitude
      0.15. */
  lemma ExampleSwappedIntended(m: Math)
    requires Lawful(m)
    ensures LiftIntended(m, Vec2d(1.0, 0.0), 1.0, PI / 2.0).R(m) == 0.15
  {
    var w := Vec2d(1.0, 0.0);
    NorthWindAttackIntended(m);
    NorthWindLength(m);
    assert Degrees(Abs(PI / 2.0)) == 90.0;
    CoefficientAtTableEntry(Abs(PI / 2.0), LIFT_COEFF, 9);
    UnitMagnitude(0.3);
    LiftLength(m, w, 1.0, PI / 2.0);
  }

  /** With a positive magnitude the lift points along its direction. */
  lemma LiftPointsAlongDirection(m: Math, wind: Vec2d, sailArea: real, aoa: real)
    requires Lawful(m)
    requires LiftMagnitude(wind.R(m), sailArea, AirfoilCoefficient(Abs(aoa), LIFT_COEFF)) > 0.0
    ensures LiftForAttack(m, wind, sailArea, aoa).Phi(m) == Principal(LiftDirection(m, wind, aoa))
  {
    FromPolarDirection(m,
      LiftMagnitude(wind.R(m), sailArea, AirfoilCoefficient(Abs(aoa), LIFT_COEFF)),
      LiftDirection(m, wind, aoa));
  }

  /** The wind of the first lift test, `from_polar(1., -PI)`, is (-1, 0):
      it blows South, from the North. */
  lemma SouthWind(m: Math)
    requires Lawful(m)
    ensures Vec2d.FromPolar(m, 1.0, -PI) == Vec2d(-1.0, 0.0)
    ensures Vec2d(-1.0, 0.0).R(m) == 1.0
  {
    QuarterValues(m);
    FromPolarLength(m, 1.0, -PI);
  }

  /** The first lift test: wind from the North, sail angle PI/4. As
      written the angle of attack is -1 radian; the lift points East. */
  lemma ExampleLift1(m: Math)
    requires Lawful(m)
    ensures Lift(m, Vec2d.FromPolar(m, 1.0, -PI), 1.0, PI / 4.0).Phi(m) == PI / 2.0
  {
    var w := Vec2d(-1.0, 0.0);
    SouthWind(m);
    SailChordDirection(m, PI / 4.0);
    SouthWindAttack(m, SailChord(m, PI / 4.0), 1.0);
    LiftSouthWind(m, AttackAngle(m, w, SailChord(m, PI / 4.0)), -1.0);
  }

  /** The first lift test with the chord along the sail angle: the angle of
      attack is -PI/4, and the lift points East as well. */
  lemma ExampleLift1Intended(m: Math)
    requires Lawful(m)
    ensures LiftIntended(m, Vec2d.FromPolar(m, 1.0, -PI), 1.0, PI / 4.0).Phi(m) == PI / 2.0
  {
    var w := Vec2d(-1.0, 0.0);
    SouthWind(m);
    SailChordIntendedDirection(m, PI / 4.0);
    SouthWindAttack(m, SailChordIntended(m, PI / 4.0), PI / 4.0);
    LiftSouthWind(m, AttackAngle(m, w, SailChordIntended(m, PI / 4.0)), -PI / 4.0);
  }

  /** The angle of attack of the wind (-1, 0) against a chord pointing at
      a in (-PI, PI] is -a. */
  lemma SouthWindAttack(m: Math, chord: Vec2d, a: real)
    requires Lawful(m) && chord.Phi(m) == a && -PI < a <= PI
    ensures AttackAngle(m, Vec2d(-1.0, 0.0), chord) == -a
  {
    NorthSouthDirections(m);
    assert Vec2d(-1.0, 0.0).Neg() == Vec2d(1.0, 0.0);
  }

  /** For the wind (-1, 0) and a negative angle of attack of at most 99
      degrees, the lift points East. */
  lemma LiftSouthWind(m: Math, aoa: real, expected: real)
    requires Lawful(m) && aoa == expected && -PI / 2.0 <= expected < 0.0
    ensures LiftForAttack(m, Vec2d(-1.0, 0.0), 1.0, aoa).Phi(m) == PI / 2.0
  {
    var w := Vec2d(-1.0, 0.0);
    SouthWind(m);
    NorthSouthDirections(m);
    assert 0.0 < Degrees(Abs(aoa)) <= 90.0;
    LiftCoefficientPositive(Abs(aoa));
    UnitMagnitude(AirfoilCoefficient(Abs(aoa), LIFT_COEFF));
    LiftPointsAlongDirection(m, w, 1.0, aoa);
  }

  /** The wind of the second lift test, `from_polar(1., -3PI/4)`: length 1,
      direction -3PI/4, and it comes from the direction PI/4. */
  lemma SouthWestWind(m: Math)
    requires Lawful(m)
    ensures Vec2d.FromPolar(m, 1.0, -3.0 * PI / 4.0).R(m) == 1.0
    ensures Vec2d.FromPolar(m, 1.0, -3.0 * PI / 4.0).Phi(m) == -3.0 * PI / 4.0
    ensures Vec2d.FromPolar(m, 1.0, -3.0 * PI / 4.0).Neg().Phi(m) == PI / 4.0
  {
    var c := m.cos(PI / 4.0);
    FromPolarLength(m, 1.0, -3.0 * PI / 4.0);
    FromPolarDirection(m, 1.0, -3.0 * PI / 4.0);
    DiagonalValues(m);
    assert Vec2d.FromPolar(m, 1.0, -3.0 * PI / 4.0).Neg() == Vec2d(c, c);
    SquarePositive(c);
    Atan2OfRay(m, c, c, PI / 4.0);
  }

  /** The second lift test: wind towards the South-West, sail angle 0. The
      angle of attack is PI/4 and the lift points at -PI/4. The sail angle 0
      is one the swapped arguments leave alone, so the intended lift agrees. */
  lemma ExampleLift2(m: Math)
    requires Lawful(m)
    ensures Lift(m, Vec2d.FromPolar(m, 1.0, -3.0 * PI / 4.0), 1.0, 0.0).Phi(m) == -PI / 4.0
    ensures LiftIntended(m, Vec2d.FromPolar(m, 1.0, -3.0 * PI / 4.0), 1.0, 0.0)
         == Lift(m, Vec2d.FromPolar(m, 1.0, -3.0 * PI / 4.0), 1.0, 0.0)
  {
    var w := Vec2d.FromPolar(m, 1.0, -3.0 * PI / 4.0);
    var aoa := AttackAngle(m, w, SailChord(m, 0.0));
    SouthWestWind(m);
    SailChordDirection(m, 0.0);
    assert aoa == PI / 4.0;
    ExampleCoefficient();
    UnitMagnitude(1.35);
    LiftPointsAlongDirection(m, w, 1.0, aoa);
    assert LiftDirection(m, w, aoa) == -PI / 4.0;
    LiftAsWritten(m, w, 1.0, 0.0);
  }
}
