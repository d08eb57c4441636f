# Sailboat physics in Dafny

This project models the physics library of a small sailing simulator. The
library is written in Rust and has three parts:

- **Two-dimensional vectors.** There are three generations of the same
  `Vec2d`, and each is modelled in its own module:
  - `Geometry` (`src/geometry.rs`): `from_polar` clamps negative radii. It has `r`, `phi`, `angle`, `rotate`, `increase` and `multiply`.
  - `Goemetry` (`src/goemetry.rs`, keeping the file's own spelling): `from_polar` does not clamp. It has `norm`, `dir` and `angle`.
  - `Vector` (`src/vector.rs`): the earliest vector. Its `angle` is the unsigned `acos(u·v / (|u||v|))`.
- **Aerodynamic lift** (`Aerodynamics`, `src/aerodynamics.rs`):
  - The lift coefficient is read by linear interpolation from an 11-entry table, one entry per 10 degrees of attack.
  - The lift force is `0.5 · ρ · |w|² · A · cl`. It points a quarter turn from the wind, to the side given by the sign of the angle of attack.
- **The `Wind` wrapper** (`Crate`, `src/lib.rs`): it holds a velocity, and `direction` gives that velocity's direction in degrees. 0 is North and 90 is East; the x axis points North.

Every operation of the library is a pure computation on small values, so each one is a Dafny `function` on datatypes.

Numbers are `real`. `PI` is the literal 3.14159265358979323846.

`sqrt`, `cos`, `sin`, `atan2` and `acos` are supplied by the caller as a value of the datatype `Numerics.Math`. Every property that needs them assumes the ghost predicate `Numerics.Lawful(m)`, which lists their laws:
- Pythagoras, and the quarter turn `cos(a + PI/2) = -sin a`, `sin(a + PI/2) = cos a`.
- `sqrt` is the non-negative square root.
- `atan2` lies in (-PI, PI] and returns the angle of any ray through it.
- A point is its radius times the unit vector of its `atan2`.
- `atan2(0, 0) = 0`.
- `cos 0 = 1`, `sin 0 = 0`, and PI/4 lies on the diagonal.
- `acos` maps [-1, 1] into [0, PI], and `acos 0 = PI/2`.

PI is a rational number close to π, not π itself, so the laws hold of the real functions rescaled to period 2·PI (`cos(a·π/PI)`, `sin(a·π/PI)`, and `atan2` and `acos` scaled by PI/π), not of the textbook ones. Within the model these laws are the only facts about the five functions. So every numerical test of the source is proved exactly, not up to an epsilon.

The signed `angle` of both `geometry.rs` and `goemetry.rs` subtracts two directions and corrects the difference by one full turn when it leaves [-PI, PI]. This is `Numerics.WrapAngle`. A difference of exactly -PI is left as it is, so the result lies in the closed interval [-PI, PI]. Described in prose, the range is (-PI, PI]; the model follows the code. With the closed range, `angle` is exactly antisymmetric.

## Model

| member | source | states |
|---|---|---|
| Numerics.WrapAngle | src/geometry.rs:50-59 | the angle correction adds or subtracts at most one full turn; it lands in [-PI, PI] for any difference within three half turns, and leaves a difference already in [-PI, PI] (both ends included) unchanged |
| Numerics.WrapAngleOfDifference | src/geometry.rs:50-59 | the difference of two directions in (-PI, PI] lies strictly between -2PI and 2PI, so one correction brings it into [-PI, PI]; the result is -PI only when the difference itself is -PI |
| Numerics.WrapAngleOdd | src/geometry.rs:50-59 | correcting a negated difference gives the negated correction, at the ends ±PI too |
| Numerics.WrapAngleIdempotent | src/geometry.rs:50-59 | correcting an already corrected angle changes nothing |
| Numerics.Max | src/geometry.rs:23 | `r.max(0.)` is the larger of the two arguments and is one of them |
| Numerics.Abs | src/aerodynamics.rs:35 | `abs` is non-negative and is either the argument or its negation |
| Numerics.Principal | src/geometry.rs:62-64 | the representative in (-PI, PI] of an angle: it lies in that range and leaves an angle already there unchanged |
| Numerics.PrincipalSameDirection | src/geometry.rs:62-64 | an angle and its representative in (-PI, PI] have the same cosine and sine, so they describe the same direction |
| Geometry.Vec2d.FromPolar | src/geometry.rs:22-27 | a radius of at most 0 is clamped, which gives the zero vector |
| Geometry.Vec2d.Neg | src/geometry.rs:30-32 | body only; properties in Geometry.NegInvolutive and Geometry.MultiplyByUnit |
| Geometry.Vec2d.Add | src/geometry.rs:35-37 | body only; properties in Geometry.AddCommutative and Geometry.NegInvolutive |
| Geometry.Vec2d.R | src/geometry.rs:45-47 | body only; properties in Geometry.LengthNonnegative, Geometry.PolarComponents and Geometry.FromPolarLength |
| Geometry.Vec2d.Angle | src/geometry.rs:50-59 | body only; properties in Geometry.AngleRange, Geometry.AngleAntisymmetric and Geometry.AngleOfPolars |
| Geometry.Vec2d.Phi | src/geometry.rs:62-64 | body only; properties in Geometry.DirectionRange, Geometry.FromPolarDirection and Geometry.PolarRoundTrip |
| Geometry.Vec2d.Rotate | src/geometry.rs:67-69 | body only; properties in Geometry.RotateLength and Geometry.RotateAngle |
| Geometry.Vec2d.Increase | src/geometry.rs:72-74 | body only; properties in Geometry.IncreaseLength and Geometry.IncreaseDirection |
| Geometry.Vec2d.Multiply | src/geometry.rs:77-79 | body only; properties in Geometry.MultiplyByUnit and Geometry.MultiplyLength |
| Geometry.Vec2d.Dot | src/geometry.rs:40-42 | the dot product of a vector with itself is never negative |
| Geometry.NegInvolutive | src/geometry.rs:30-32 | negating twice gives the vector back; a vector plus its negation is zero |
| Geometry.AddCommutative | src/geometry.rs:35-37 | `add` is commutative |
| Geometry.DotSymmetric | src/geometry.rs:40-42 | `dot` is symmetric |
| Geometry.MultiplyByUnit | src/geometry.rs:77-79 | multiplying by 1 is the identity and multiplying by -1 is `neg` |
| Geometry.MultiplyLength | src/geometry.rs:77-79 | multiplying by k scales the length by abs(k) |
| Geometry.LengthNonnegative | src/geometry.rs:45-47 | the length is never negative, and it is 0 exactly for the zero vector |
| Geometry.SelfDotZero | src/geometry.rs:40-42 | the dot product of a vector with itself is 0 exactly for the zero vector |
| Geometry.DotPositive | src/geometry.rs:40-42 | a non-zero vector has a positive dot product with itself |
| Geometry.FromPolarLength | src/geometry.rs:22-27 | the polar constructor's vector has length max(r, 0) |
| Geometry.FromPolarDirection | src/geometry.rs:22-27 | with a positive radius the vector points along the given angle, for any angle, brought into (-PI, PI] by whole turns |
| Geometry.PolarComponents | src/geometry.rs:45-64 | the length times the cosine and sine of `phi` gives back x and y |
| Geometry.PolarRoundTrip | src/geometry.rs:22-27 | `from_polar(v.r(), v.phi())` is `v` for every vector: polar form round-trips |
| Geometry.DirectionRange | src/geometry.rs:62-64 | `phi` lies in (-PI, PI] |
| Geometry.AngleRange | src/geometry.rs:50-59 | the angle lies in [-PI, PI] and is the difference of the directions, up to one full turn |
| Geometry.AngleAntisymmetric | src/geometry.rs:50-59 | `u.angle(v) == -v.angle(u)` for all vectors |
| Geometry.AngleToSelf | src/geometry.rs:50-59 | the angle of a vector to itself is 0 |
| Geometry.AngleOfPolars | src/geometry.rs:50-59 | the angle between two polar vectors with positive radii is the corrected difference of their angles |
| Geometry.RotateLength | src/geometry.rs:67-69 | rotating keeps the length |
| Geometry.RotateAngle | src/geometry.rs:67-69 | a non-zero vector rotated by delta in (-PI, PI) is at angle delta from the original |
| Geometry.IncreaseLength | src/geometry.rs:72-74 | increasing by a gives length max(r + a, 0) |
| Geometry.IncreaseDirection | src/geometry.rs:72-74 | increasing to a positive length keeps the direction |
| Geometry.ExampleArithmetic | src/geometry.rs:112-129 | (5,4) negates to (-5,-4); (5,4)+(2,-8) = (7,-4); their dot product is -22 |
| Geometry.ExampleLength | src/geometry.rs:131-135 | the length of (3,4) is 5 |
| Geometry.ExampleFromPolar | src/geometry.rs:103-109 | unit vectors at 0, PI/2, PI and 3PI/2 are (1,0), (0,1), (-1,0) and (0,-1) |
| Geometry.ExampleAngles | src/geometry.rs:137-165 | the angles of the tests (PI/4, -PI/4, and both sides of the wrap at 7PI/8 vs -7PI/8) and `phi` of the unit vectors at ±7PI/8 |
| Geometry.ExampleRotateIncrease | src/geometry.rs:167-190 | the rotations of the tests, the one that wraps past PI included; increase by 3 and by -3 (clamped to zero) |
| Goemetry.Vec2d.Dot | src/goemetry.rs:39-41 | the dot product of a vector with itself is never negative |
| Goemetry.Vec2d.FromPolar | src/goemetry.rs:22-26 | body only; properties in Goemetry.FromPolarNorm, Goemetry.FromPolarDir and Goemetry.FromPolarNegativeRadius |
| Goemetry.Vec2d.Neg | src/goemetry.rs:29-31 | body only; properties in Goemetry.NegInvolutive |
| Goemetry.Vec2d.Add | src/goemetry.rs:34-36 | body only; properties in Goemetry.AddCommutative and Goemetry.NegInvolutive |
| Goemetry.Vec2d.Norm | src/goemetry.rs:44-46 | body only; properties in Goemetry.NormNonnegative, Goemetry.PolarComponents and Goemetry.FromPolarNorm |
| Goemetry.Vec2d.Angle | src/goemetry.rs:49-58 | body only; properties in Goemetry.AngleRange, Goemetry.AngleAntisymmetric and Goemetry.AngleOfPolars |
| Goemetry.Vec2d.Dir | src/goemetry.rs:61-63 | body only; properties in Goemetry.DirRange, Goemetry.FromPolarDir and Goemetry.PolarRoundTrip |
| Goemetry.NegInvolutive | src/goemetry.rs:29-36 | negating twice gives the vector back; `v.add(v.neg())` is zero |
| Goemetry.AddCommutative | src/goemetry.rs:34-36 | `add` is commutative |
| Goemetry.DotSymmetric | src/goemetry.rs:39-41 | `dot` is symmetric |
| Goemetry.DotPositive | src/goemetry.rs:39-41 | a non-zero vector has a positive dot product with itself |
| Goemetry.NormNonnegative | src/goemetry.rs:44-46 | `norm` is never negative, and it is 0 exactly for the zero vector |
| Goemetry.SelfDotZero | src/goemetry.rs:39-41 | the dot product of a vector with itself is 0 exactly for the zero vector |
| Goemetry.FromPolarNegativeRadius | src/goemetry.rs:22-26 | without the clamp, a negative radius gives the opposite vector |
| Goemetry.FromPolarNorm | src/goemetry.rs:22-26 | the polar constructor's vector has norm abs(r) |
| Goemetry.FromPolarDir | src/goemetry.rs:22-26 | with a positive radius the vector points along the given angle, for any angle, brought into (-PI, PI] by whole turns |
| Goemetry.PolarComponents | src/goemetry.rs:44-63 | norm times the cosine and sine of `dir` gives back x and y |
| Goemetry.PolarRoundTrip | src/goemetry.rs:22-26 | `from_polar(v.norm(), v.dir())` is `v`: polar form round-trips |
| Goemetry.DirRange | src/goemetry.rs:61-63 | `dir` lies in (-PI, PI] |
| Goemetry.AngleRange | src/goemetry.rs:49-58 | the angle lies in [-PI, PI] and is the difference of the directions, up to one full turn |
| Goemetry.AngleAntisymmetric | src/goemetry.rs:49-58 | `u.angle(v) == -v.angle(u)` for all vectors |
| Goemetry.AngleToSelf | src/goemetry.rs:49-58 | `v.angle(v)` is 0 |
| Goemetry.AngleOfPolars | src/goemetry.rs:49-58 | the angle between two polar vectors with positive radii is the corrected difference of their angles |
| Goemetry.ExampleArithmetic | src/goemetry.rs:95-113 | (5,4) negates to (-5,-4); (5,4)+(2,-8) = (7,-4); their dot product is -22 |
| Goemetry.ExampleNorm | src/goemetry.rs:115-119 | the norm of (3,4) is 5 |
| Goemetry.ExampleFromPolar | src/goemetry.rs:87-93 | unit vectors at 0, PI/2, PI and 3PI/2 are (1,0), (0,1), (-1,0) and (0,-1) |
| Goemetry.ExampleAngles | src/goemetry.rs:121-149 | the angles of the tests, both sides of the wrap, and `dir` of the unit vectors at ±7PI/8 |
| Vector.Vec2d.Dot | src/vector.rs:30-32 | the dot product of a vector with itself is never negative |
| Vector.Vec2d.Neg | src/vector.rs:20-22 | body only; properties in Vector.NegInvolutive |
| Vector.Vec2d.Add | src/vector.rs:25-27 | body only; properties in Vector.AddCommutative and Vector.NegInvolutive |
| Vector.Vec2d.Norm | src/vector.rs:35-37 | body only; properties in Vector.NormNonnegative and Vector.NormProduct |
| Vector.Vec2d.Cosine | src/vector.rs:41 | body only (the argument of `acos`); properties in Vector.CosineBounds |
| Vector.Vec2d.Angle | src/vector.rs:40-42 | body only; properties in Vector.AngleRange and Vector.AngleSymmetric |
| Vector.NegInvolutive | src/vector.rs:20-22 | negating twice gives the vector back; a vector plus its negation is zero |
| Vector.AddCommutative | src/vector.rs:25-27 | `add` is commutative |
| Vector.DotSymmetric | src/vector.rs:30-32 | `dot` is symmetric |
| Vector.DotPositive | src/vector.rs:30-32 | a non-zero vector has a positive dot product with itself |
| Vector.NormNonnegative | src/vector.rs:35-37 | `norm` is never negative, its square is `dot(v, v)`, and it is 0 exactly for the zero vector |
| Vector.SelfDotZero | src/vector.rs:30-32 | the dot product of a vector with itself is 0 exactly for the zero vector |
| Vector.CauchySchwarz | src/vector.rs:30-32 | (u·v)² ≤ (u·u)(v·v) |
| Vector.NormProduct | src/vector.rs:40-42 | the product of the norms is never negative, and it is 0 exactly when one vector is zero |
| Vector.DotBoundedByNorms | src/vector.rs:40-42 | abs(u·v) ≤ abs(u) · abs(v) |
| Vector.CosineBounds | src/vector.rs:40-42 | for non-zero vectors the divisor is positive and the argument of `acos` lies in [-1, 1] |
| Vector.AngleRange | src/vector.rs:40-42 | `angle` is NaN exactly when one of the vectors is zero, and otherwise lies in [0, PI] |
| Vector.AngleSymmetric | src/vector.rs:40-42 | `angle` does not depend on the order of the vectors |
| Vector.ExampleArithmetic | src/vector.rs:53-70 | (5,4) negates to (-5,-4); (5,4)+(2,-8) = (7,-4); their dot product is -22 |
| Vector.ExampleNorm | src/vector.rs:72-76 | the norm of (3,4) is 5 |
| Vector.ExampleAngle | src/vector.rs:78-83 | (3,3) and (-4,4) are at angle PI/2 |
| Aerodynamics.Trunc | src/aerodynamics.rs:20 | the integer part of `fract` is at most x in size, within 1 of it, and has its sign |
| Aerodynamics.Fract | src/aerodynamics.rs:20 | `fract` lies strictly between -1 and 1, and in [0, 1) for x ≥ 0 |
| Aerodynamics.Degrees | src/aerodynamics.rs:14 | body only (radians to degrees); used by Aerodynamics.AirfoilCoefficient and Aerodynamics.AttackAngleRange |
| Aerodynamics.AirfoilCoefficient | src/aerodynamics.rs:13-21 | an angle over 99 or under 0 degrees gives coefficient 0 |
| Aerodynamics.StepInBounds | src/aerodynamics.rs:15-19 | for 0 to 99 degrees, `idx` lies in 0..9, so `table[idx]` and `table[idx+1]` are in bounds |
| Aerodynamics.CoefficientOnStep | src/aerodynamics.rs:17-20 | within the step [10i, 10i+10) the coefficient is the straight line from `table[i]` to `table[i+1]` |
| Aerodynamics.CoefficientAtTableEntry | src/aerodynamics.rs:17-20 | at 10i degrees the coefficient is exactly `table[i]` |
| Aerodynamics.CoefficientBetweenEntries | src/aerodynamics.rs:17-20 | in range, the coefficient lies between the two table entries around the angle |
| Aerodynamics.LiftCoefficientBounds | src/aerodynamics.rs:8-21 | with `LIFT_COEFF` the coefficient lies in [0, 1.5] for every angle |
| Aerodynamics.LiftCoefficientPositive | src/aerodynamics.rs:8-21 | with `LIFT_COEFF` the coefficient is positive between 0 (excluded) and 99 degrees |
| Aerodynamics.ExampleCoefficient | src/aerodynamics.rs:52-56 | 0 gives 0, PI gives 0, and PI/4 (45 degrees) gives 1.35 |
| Aerodynamics.LiftMagnitude | src/aerodynamics.rs:38 | body only, with `AIR_DENSITY` = 1; properties in Aerodynamics.LiftMagnitudeNonnegative |
| Aerodynamics.LiftDirection | src/aerodynamics.rs:39 | body only; properties in Aerodynamics.LiftSide and Aerodynamics.LiftPointsAlongDirection |
| Aerodynamics.AttackAngle | src/aerodynamics.rs:34 | body only; properties in Aerodynamics.AttackAngleRange and Aerodynamics.IntendedAttackAngle |
| Aerodynamics.LiftForAttack | src/aerodynamics.rs:33-40 | body only: the lift for a known angle of attack, with the coefficients of `LIFT_COEFF`; properties in Aerodynamics.LiftLength, Aerodynamics.LiftPerpendicular, Aerodynamics.LiftSide and Aerodynamics.LiftMirror |
| Aerodynamics.SailChord | src/aerodynamics.rs:32 | body only, as written; properties in Aerodynamics.SailChordDirection |
| Aerodynamics.Lift | src/aerodynamics.rs:31-41 | body only, as written; properties in Aerodynamics.LiftAsWritten and Aerodynamics.LiftIgnoresSailAngle |
| Aerodynamics.SailChordIntended | src/aerodynamics.rs:32 | body only, with the arguments in order; properties in Aerodynamics.SailChordIntendedDirection |
| Aerodynamics.LiftIntended | src/aerodynamics.rs:31-41 | body only, with the arguments in order; properties in Aerodynamics.IntendedAttackAngle and Aerodynamics.ExampleSwappedIntended |
| Aerodynamics.AttackAngleRange | src/aerodynamics.rs:34 | the angle of attack lies in [-PI, PI], so its size is 0 to 180 degrees |
| Aerodynamics.LiftMagnitudeNonnegative | src/aerodynamics.rs:33-38 | the lift magnitude is never negative for a non-negative sail area, and it is 0 for zero wind speed |
| Aerodynamics.LiftLength | src/aerodynamics.rs:38-40 | the lift's length is the magnitude, clamped at 0 by `from_polar` |
| Aerodynamics.NoWindNoLift | src/aerodynamics.rs:33-40 | zero wind gives the zero lift vector |
| Aerodynamics.LiftPerpendicular | src/aerodynamics.rs:39-40 | the lift is perpendicular to the wind: their dot product is 0 |
| Aerodynamics.QuarterTurnPerpendicular | src/aerodynamics.rs:39-40 | a polar vector a quarter turn either way from a vector's direction is perpendicular to it |
| Aerodynamics.LiftSide | src/aerodynamics.rs:39-40 | a positive lift is at angle +PI/2 from the wind when the angle of attack is positive, and at -PI/2 otherwise |
| Aerodynamics.QuarterTurnAngle | src/aerodynamics.rs:39-40 | a polar vector of positive radius a quarter turn from a vector's direction is at angle +PI/2 (or -PI/2) from it |
| Aerodynamics.LiftMirror | src/aerodynamics.rs:34-40 | negating the angle of attack gives the opposite lift, same size and other side; at 0 both are the zero vector |
| Aerodynamics.NoAttackNoLift | src/aerodynamics.rs:34-40 | an angle of attack of 0 gives the zero lift vector, because the first entry of `LIFT_COEFF` is 0 |
| Aerodynamics.OppositeQuarterTurns | src/aerodynamics.rs:39-40 | the polar vectors a quarter turn either side of a direction are each other's negation |
| Aerodynamics.LiftPointsAlongDirection | src/aerodynamics.rs:39-40 | a positive lift points along the wind's direction ± PI/2, taken in (-PI, PI] |
| Aerodynamics.SailChordDirection | src/aerodynamics.rs:32 | as written, the chord points at 1 radian for every positive sail angle, and at 0 otherwise |
| Aerodynamics.SailChordIntendedDirection | src/aerodynamics.rs:32 | with the arguments in order, the chord points along the sail angle, for any sail angle, brought into (-PI, PI] by whole turns |
| Aerodynamics.LiftAsWritten | src/aerodynamics.rs:31-41 | the lift as written equals the intended lift at sail angle 1 (positive sail angles) or 0 (others) |
| Aerodynamics.LiftIgnoresSailAngle | src/aerodynamics.rs:31-41 | as written, two sail angles of the same sign give the same lift |
| Aerodynamics.IntendedAttackAngle | src/aerodynamics.rs:32-34 | with the arguments in order, for any sail angle, the angle of attack is the corrected difference between the wind's origin and the sail angle brought into (-PI, PI] |
| Aerodynamics.NorthWindAttack | src/aerodynamics.rs:32-34 | as written, the wind (1,0) against sail angle PI/2 has angle of attack PI - 1 |
| Aerodynamics.NorthWindAttackIntended | src/aerodynamics.rs:32-34 | with the arguments in order, the same case has angle of attack PI/2 |
| Aerodynamics.ExampleSwappedAsWritten | src/aerodynamics.rs:31-41 | as written, the wind (1,0) with area 1 and sail angle PI/2 gives no lift |
| Aerodynamics.ExampleSwappedIntended | src/aerodynamics.rs:31-41 | with the arguments in order, the same case gives lift of length 0.15 |
| Aerodynamics.ExampleLift1 | src/aerodynamics.rs:59-62 | as written, the wind from_polar(1, -PI) with sail angle PI/4 gives lift with `phi` PI/2 |
| Aerodynamics.ExampleLift1Intended | src/aerodynamics.rs:59-62 | with the arguments in order, the same test gives `phi` PI/2 as well |
| Aerodynamics.ExampleLift2 | src/aerodynamics.rs:65-68 | the wind from_polar(1, -3PI/4) with sail angle 0 gives lift with `phi` -PI/4, the same whether the arguments are swapped or not |
| Crate.Wind.New | src/lib.rs:28-30 | `Wind::new` keeps the given velocity unchanged |
| Crate.Wind.Direction | src/lib.rs:33-37 | body only; properties in Crate.DirectionRange, Crate.DirectionOfPolar and Crate.DirectionRoundTrip |
| Crate.DirectionRange | src/lib.rs:33-37 | the direction lies in (-180, 180] degrees |
| Crate.DirectionOfPolar | src/lib.rs:33-37 | a wind of positive speed built at any heading has that heading, brought into (-PI, PI] by whole turns and converted to degrees, as its direction |
| Crate.DirectionRoundTrip | src/lib.rs:33-37 | the velocity is the polar vector of its norm and its direction converted back to radians |
| Crate.ExampleNorth | src/lib.rs:55 | the wind (1,0) has direction 0 |
| Crate.ExampleNorthEast | src/lib.rs:56 | the wind (3,3) has direction 45 |
| Crate.ExampleSouthWest | src/lib.rs:57 | the wind (-3,-3) has direction -135 |

## Left out

- f32 arithmetic: the model computes on exact reals. It does not model rounding, overflow, infinities, or NaN other than the one `src/vector.rs`'s `angle` makes for a zero vector.
- Concrete values of `sqrt`, `cos`, `sin`, `atan2` and `acos`: these functions are parameters constrained by the laws listed above. The tests compare within an epsilon; the model proves their values exactly, from the laws.
- The `print!` in `lift` (src/aerodynamics.rs:36): console output.
- The commented-out drag table (src/aerodynamics.rs:9): not live code.
- The empty structs `Sail`, `Sailboat` and `SailboatState`, and `Sailboat::new` (src/lib.rs:17-24, 40-44): they carry no data and no behaviour.
- The user interface (`ui/`, `examples/`), and the sailboat, drag and apparent-wind functions the interface calls: those functions are not part of this model, because their source belongs to another version of the library.
- `Vec2d::new` in all three vector files is the datatype constructor, so it has no member of its own.
- `lift` imports the `goemetry.rs` vector but calls `r` and `phi`, which only the `geometry.rs` vector has. The model builds lift from the `geometry.rs` vector.
- Aerodynamics.AirfoilCoefficient: `(angle / 10.).floor() as usize` is modelled as the floor of an exact real. The cast's saturation at 0 never matters, because the guard has already excluded negative angles.

## Findings

| source | as written | input that shows it | evidently intended | confidence | as-written member | corrected member |
|---|---|---|---|---|---|---|
| src/aerodynamics.rs:32 | `Vec2d::from_polar(sail_angle, 1.)` passes the sail angle as the radius and 1 as the angle. The chord then points at 1 radian for every positive sail angle, and at 0 (the zero vector) otherwise. The lift depends only on the sign of the sail angle. | wind (1, 0), sail area 1, sail angle PI/2: as written the angle of attack is PI - 1 (about 123 degrees), beyond the table, so the lift is zero | `Vec2d::from_polar(1., sail_angle)`, a unit chord along the sail; the same input then has angle of attack PI/2 and lift of length 0.15 | not executed | Aerodynamics.ExampleSwappedAsWritten | Aerodynamics.ExampleSwappedIntended |
