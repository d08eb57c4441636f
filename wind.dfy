/** `src/lib.rs`, the crate root: the `Wind` wrapper around a velocity
    vector of `src/goemetry.rs`, whose x axis points North, and its
    direction in degrees (0 is North, 90 is East). */
module Crate {
  import opened Numerics
  import opened Goemetry

  /** `Wind`: the velocity of the air. */
  datatype Wind = Wind(velocity: Vec2d) {

    /** `Wind::new`: the wind holds the given velocity unchanged. */
    static function New(velocity: Vec2d): (w: Wind)
      ensures w.velocity == velocity
    {
      Wind(velocity)
    }

    /** `direction`: the direction of the velocity converted from radians
        to degrees. */
    function Direction(m: Math): real {
      velocity.Dir(m) / PI * 180.0
    }
  }

  /** The direction lies in (-180, 180] degrees. */
  lemma DirectionRange(m: Math, w: Wind)
    requires Lawful(m)
    ensures -180.0 < w.Direction(m) <= 180.0
  {
    DirRange(m, w.velocity);
  }

  /** A wind built from a positive speed and any heading has the heading,
      taken in (-PI, PI] and converted to degrees, as its direction. */
  lemma DirectionOfPolar(m: Math, speed: real, heading: real)
    requires Lawful(m) && speed > 0.0
    ensures Wind.New(Vec2d.FromPolar(m, speed, heading)).Direction(m) == Principal(heading) / PI * 180.0
  {
    FromPolarDir(m, speed, heading);
  }

  /** The velocity is recovered from its magnitude and the direction in
      degrees: nothing but the speed is lost by `direction`. */
  lemma DirectionRoundTrip(m: Math, w: Wind)
    requires Lawful(m)
    ensures Vec2d.FromPolar(m, w.velocity.Norm(m), w.Direction(m) * PI / 180.0) == w.velocity
  {
    assert w.Direction(m) * PI / 180.0 == w.velocity.Dir(m);
    PolarRoundTrip(m, w.velocity);
  }

  /** The wind (1, 0) blows North: 0 degrees. */
  lemma ExampleNorth(m: Math)
    requires Lawful(m)
    ensures Wind.New(Vec2d(1.0, 0.0)).Direction(m) == 0.0
  {
    QuarterValues(m);
    Atan2OfRay(m, 0.0, 1.0, 0.0);
  }

  /** The wind (3, 3) blows North-East: 45 degrees. */
  lemma ExampleNorthEast(m: Math)
    requires Lawful(m)
    ensures Wind.New(Vec2d(3.0, 3.0)).Direction(m) == 45.0
  {
    var c := m.cos(PI / 4.0);
    assert 3.0 * c + 3.0 * c > 0.0;
    Atan2OfRay(m, 3.0, 3.0, PI / 4.0);
  }

  /** The wind (-3, -3) blows South-West: -135 degrees. */
  lemma ExampleSouthWest(m: Math)
    requires Lawful(m)
    ensures Wind.New(Vec2d(-3.0, -3.0)).Direction(m) == -135.0
  {
    var c := m.cos(PI / 4.0);
    DiagonalValues(m);
    assert -3.0 * -c + -3.0 * -c > 0.0;
    Atan2OfRay(m, -3.0, -3.0, -3.0 * PI / 4.0);
  }
}
