/**
 * The player's ship: its fuel-limited thrust, its turning towards the arrow-key
 * direction, and the sky colour that darkens with the distance from the nearest planet.
 */
module Ship {
  import opened Wrappers
  import opened Vectors
  import opened Scene
  import opened Collision

  /** `std::f32::consts::PI`, the f32 value written out exactly. */
  const PI: real := 13176795.0 / 4194304.0
  /** `std::f32::consts::TAU`. */
  const TAU: real := 2.0 * PI

  const MaxRotationSpeed: real := 3.0
  const MaxVelocityChange: real := 100.0

  /** `Ship`: the tank's capacity and what is left in it. */
  datatype Ship = Ship(maxFuel: real, fuel: real)

  /** `Ship::default()`: a full tank of 100. */
  const DefaultShip := Ship(100.0, 100.0)

  /**
   * The entity `ShipBundle::default()` spawns: mass 1, at rest at the origin, pulled by
   * gravity and colliding with colliders, with a 10×10 sprite but no `Circle`.
   */
  function ShipEntity(id: EntityId): Entity
  {
    Entity(id, Vec3(0.0, 0.0, 0.0), Some(Zero), Some(1.0), None, Some(Vec2(10.0, 10.0)),
           false, true, true, false, false, false)
  }

  /**
   * The ship collides as a point: it touches a collider exactly when its centre is
   * inside or on the collider's circle. It is moved by gravity but pulls on nothing.
   */
  lemma ShipIsPointBody(id: EntityId, k: Entity)
    requires k.collider && k.circle.Some? && k.id != id
    ensures Radius(ShipEntity(id)) == 0.0
    ensures Touching(ShipEntity(id), k) <==>
      DistanceSquared(Zero, k.Position()) <= k.circle.value * k.circle.value
    ensures !IsGravitySource(ShipEntity(id)) && ShipEntity(id).affectedByGravity
  {
    assert ShipEntity(id).Position() == Zero;
  }

  function Min(a: real, b: real): real { if a < b then a else b }
  function Max(a: real, b: real): real { if a < b then b else a }

  /**
   * Holding space for `delta` seconds burns `min(delta, fuel)` fuel and adds
   * `right * burnt * 100` to the velocity: the tank empties at one unit per second and
   * never goes below zero, and the speed gained is proportional to the fuel burnt.
   */
  function Thrust(ship: Ship, velocity: Vec2, right: Vec2, delta: real): (r: (Ship, Vec2))
    ensures r.0.maxFuel == ship.maxFuel
    ensures 0.0 <= ship.fuel && 0.0 <= delta ==> r.0.fuel == Max(ship.fuel - delta, 0.0)
    ensures r.1.Minus(velocity) == right.Times((ship.fuel - r.0.fuel) * MaxVelocityChange)
  {
    var fuelUsed := Min(delta, ship.fuel);
    (ship.(fuel := ship.fuel - fuelUsed), velocity.Plus(right.Times(fuelUsed).Times(MaxVelocityChange)))
  }

  function SumOf(ds: seq<real>): real
  {
    if |ds| == 0 then 0.0 else SumOf(ds[..|ds| - 1]) + ds[|ds| - 1]
  }

  /** Holding space through the frames `deltas`, facing `right` throughout. */
  function ThrustFrames(ship: Ship, velocity: Vec2, right: Vec2, deltas: seq<real>): (Ship, Vec2)
  {
    if |deltas| == 0 then (ship, velocity)
    else
      var (s, v) := ThrustFrames(ship, velocity, right, deltas[..|deltas| - 1]);
      Thrust(s, v, right, deltas[|deltas| - 1])
  }

  /** Over any run of frames the tank holds `max(fuel - total time, 0)`. */
  lemma {:induction false} ThrustFramesFuel(ship: Ship, velocity: Vec2, right: Vec2, deltas: seq<real>)
    requires 0.0 <= ship.fuel
    requires forall i :: 0 <= i < |deltas| ==> 0.0 <= deltas[i]
    ensures ThrustFrames(ship, velocity, right, deltas).0.fuel == Max(ship.fuel - SumOf(deltas), 0.0)
  {
    if |deltas| != 0 {
      var n := |deltas| - 1;
      ThrustFramesFuel(ship, velocity, right, deltas[..n]);
      var before := ThrustFrames(ship, velocity, right, deltas[..n]);
      assert SumOf(deltas) == SumOf(deltas[..n]) + deltas[n];
      assert 0.0 <= before.0.fuel && 0.0 <= deltas[n];
    }
  }

  /**
   * Over any run of frames the velocity gained is `right * 100` times the fuel burnt:
   * thrust stops exactly when the fuel runs out.
   */
  lemma {:induction false} ThrustFramesGain(ship: Ship, velocity: Vec2, right: Vec2, deltas: seq<real>)
    ensures ThrustFrames(ship, velocity, right, deltas).1.Minus(velocity)
            == right.Times((ship.fuel - ThrustFrames(ship, velocity, right, deltas).0.fuel) * MaxVelocityChange)
  {
    if |deltas| == 0 {
      assert velocity.Minus(velocity) == right.Times(0.0 * MaxVelocityChange);
    } else {
      var n := |deltas| - 1;
      ThrustFramesGain(ship, velocity, right, deltas[..n]);
      var before := ThrustFrames(ship, velocity, right, deltas[..n]);
      var after := Thrust(before.0, before.1, right, deltas[n]);
      BurnsAdd(right, velocity, before.1, after.1, ship.fuel, before.0.fuel, after.0.fuel);
    }
  }

  /** Velocity gains from consecutive burns add up like the fuel burnt. */
  lemma BurnsAdd(right: Vec2, v0: Vec2, v1: Vec2, v2: Vec2, f0: real, f1: real, f2: real)
    requires v1.Minus(v0) == right.Times((f0 - f1) * MaxVelocityChange)
    requires v2.Minus(v1) == right.Times((f1 - f2) * MaxVelocityChange)
    ensures v2.Minus(v0) == right.Times((f0 - f2) * MaxVelocityChange)
  {
    assert (f0 - f2) * MaxVelocityChange == (f0 - f1) * MaxVelocityChange + (f1 - f2) * MaxVelocityChange;
  }

  /** `rem_euclid` for a positive modulus: the remainder in `[0, m)`. */
  function RemEuclid(x: real, m: real): (r: real)
    requires 0.0 < m
    ensures 0.0 <= r < m
    ensures x - r == m * ((x / m).Floor as real)
  {
    var k := (x / m).Floor as real;
    FloorScaled(x, m);
    x - m * k
  }

  lemma FloorScaled(x: real, m: real)
    requires 0.0 < m
    ensures var k := (x / m).Floor as real;
      m * k <= x < m * k + m
  {
    var q := x / m;
    var k := q.Floor as real;
    assert k <= q < k + 1.0;
    assert m * q == x;
    MulMonotone(m, k, q);
    calc {
      x;
    ==
      m * q;
    < { MulStrictMonotone(m, q, k + 1.0); }
      m * (k + 1.0);
    ==
      m * k + m;
    }
  }

  lemma MulMonotone(m: real, a: real, b: real)
    requires 0.0 < m && a <= b
    ensures m * a <= m * b
  {
    assert m * b - m * a == m * (b - a);
  }

  lemma MulStrictMonotone(m: real, a: real, b: real)
    requires 0.0 < m && a < b
    ensures m * a < m * b
  {
    assert m * b - m * a == m * (b - a);
  }

  /** The angle difference `target - angle` brought into `(-π, π]`: the shorter way round. */
  function WrapAngle(x: real): (d: real)
    ensures -PI < d <= PI
    ensures x - d == (WrapTurns(x) as real) * TAU
  {
    var r := RemEuclid(x, TAU);
    if r > PI then r - TAU else r
  }

  /** How many whole turns `WrapAngle` takes off. */
  function WrapTurns(x: real): int
  {
    var k := (x / TAU).Floor;
    if RemEuclid(x, TAU) > PI then k + 1 else k
  }

  /** Wrapping only depends on the angle modulo a full turn, and leaves `(-π, π]` alone. */
  lemma {:induction false} WrapAngleCanonical(x: real, y: real, k: int)
    requires -PI < y <= PI
    requires x == y + (k as real) * TAU
    ensures WrapAngle(x) == y
  {
    var q := x / TAU;
    assert q == y / TAU + k as real;
    if 0.0 <= y {
      assert 0.0 <= y / TAU < 1.0;
      assert q.Floor == k;
    } else {
      assert -1.0 <= y / TAU < 0.0;
      assert q.Floor == k - 1;
    }
  }

  /** Rust's `signum` on a non-NaN float: +0.0 counts as positive. */
  function Sign(x: real): real { if x < 0.0 then -1.0 else 1.0 }

  function Abs(x: real): real { if x < 0.0 then -x else x }

  /**
   * `move_angle_towards`: turn from `angle` towards `target` the shorter way round by at
   * most `step`; when the remaining turn is less than `step`, land on `target`. The
   * source asserts that the step is not negative.
   */
  function MoveAngleTowards(angle: real, target: real, step: real): (r: real)
    requires 0.0 <= step
  {
    var diff := WrapAngle(target - angle);
    if Abs(diff) < step then target else angle + step * Sign(diff)
  }

  /**
   * Turning never overshoots: either the target is reached, or the remaining shorter-way
   * turn keeps its direction and shrinks by exactly `step`.
   */
  lemma {:induction false} MoveAngleTowardsProgress(angle: real, target: real, step: real)
    requires 0.0 <= step
    ensures var diff := WrapAngle(target - angle);
      var r := MoveAngleTowards(angle, target, step);
      && (Abs(diff) < step ==> r == target)
      && (step <= Abs(diff) ==>
            && WrapAngle(target - r) == diff - step * Sign(diff)
            && Abs(WrapAngle(target - r)) == Abs(diff) - step
            && r - angle == step * Sign(diff))
  {
    var diff := WrapAngle(target - angle);
    if step <= Abs(diff) {
      var r := angle + step * Sign(diff);
      var k := WrapTurns(target - angle);
      var y := diff - step * Sign(diff);
      assert target - r == y + (k as real) * TAU;
      WrapAngleCanonical(target - r, y, k);
    }
  }

  /** A ship's dynamic state: its tank, velocity and heading angle about the z axis. */
  datatype ShipState = ShipState(ship: Ship, velocity: Vec2, angle: real)

  /**
   * `input_system` for one ship. With an Alt key held nothing happens. Space thrusts
   * along `right` (the ship's `transform.right()` before this frame's turn); a non-zero
   * arrow direction turns the ship towards `target` (the direction's angle, in
   * `[0, TAU)`) by at most `3 * delta`, keeping the stored angle in `[0, TAU)`.
   */
  function ShipControl(s: ShipState, altHeld: bool, space: bool, dir: Vec2, right: Vec2,
                       target: real, delta: real): (s': ShipState)
    requires 0.0 <= delta
    ensures altHeld ==> s' == s
    ensures !altHeld && !space ==> s'.ship == s.ship && s'.velocity == s.velocity
    ensures !altHeld && space ==> (s'.ship, s'.velocity) == Thrust(s.ship, s.velocity, right, delta)
    ensures !altHeld && dir == Zero ==> s'.angle == s.angle
    ensures !altHeld && dir != Zero ==>
      && 0.0 <= s'.angle < TAU
      && s'.angle == RemEuclid(MoveAngleTowards(RemEuclid(s.angle, TAU), target, MaxRotationSpeed * delta), TAU)
  {
    if altHeld then s
    else
      var (ship, velocity) := if space then Thrust(s.ship, s.velocity, right, delta) else (s.ship, s.velocity);
      var angle :=
        if dir != Zero then
          var maxRotation := MaxRotationSpeed * delta;
          var currentAngle := RemEuclid(s.angle, TAU);
          RemEuclid(MoveAngleTowards(currentAngle, target, maxRotation), TAU)
        else s.angle;
      ShipState(ship, velocity, angle)
  }

  /** `Color::hex("88b4db")`, the sky next to a planet, as sRGB components. */
  const SkyNear := Color(136.0 / 255.0, 180.0 / 255.0, 219.0 / 255.0, 1.0)
  /** `Color::hex("150e19")`, the sky of deep space. */
  const SkyFar := Color(21.0 / 255.0, 14.0 / 255.0, 25.0 / 255.0, 1.0)

  datatype Color = Color(r: real, g: real, b: real, a: real)

  /** `Vec4::lerp` on the colour's components. */
  function Lerp(c1: Color, c2: Color, t: real): Color
  {
    Color(c1.r + (c2.r - c1.r) * t, c1.g + (c2.g - c1.g) * t,
          c1.b + (c2.b - c1.b) * t, c1.a + (c2.a - c1.a) * t)
  }

  /**
   * The blend factor of `get_sky_color`: `distance / radius + 0.05` clamped to `[0, 1]`.
   * With a zero radius the f32 quotient is infinite or NaN and the clamp yields 1.
   */
  function SkyBlend(distance: real, radius: real): (t: real)
    ensures 0.0 <= t <= 1.0
    ensures radius == 0.0 ==> t == 1.0
    ensures 0.0 < radius && 0.0 <= distance ==> 0.05 <= t
    ensures 0.0 < radius ==> (t == 1.0 <==> 0.95 <= distance / radius)
    ensures radius != 0.0 && 0.0 <= distance / radius + 0.05 <= 1.0 ==> t == distance / radius + 0.05
    ensures radius != 0.0 && distance / radius + 0.05 < 0.0 ==> t == 0.0
    ensures radius != 0.0 && 1.0 < distance / radius + 0.05 ==> t == 1.0
  {
    if radius == 0.0 then 1.0
    else Max(Min(distance / radius + 0.05, 1.0), 0.0)
  }

  /** Further from the surface the sky is never lighter. */
  lemma SkyBlendMonotone(d1: real, d2: real, radius: real)
    requires 0.0 < radius && d1 <= d2
    ensures SkyBlend(d1, radius) <= SkyBlend(d2, radius)
  {
    assert d1 / radius <= d2 / radius by {
      assert d2 / radius - d1 / radius == (d2 - d1) / radius;
    }
  }

  /** `get_sky_color`. */
  function SkyColor(distance: real, radius: real): (c: Color)
    ensures radius == 0.0 ==> c == SkyFar
  {
    var t := SkyBlend(distance, radius);
    Lerp(SkyNear, SkyFar, t)
  }

  /** What the sky query `(&Transform, &Circle), With<Planet>` sees of a planet. */
  datatype PlanetView = PlanetView(position: Vec2, radius: real)

  /** The planets of the world, in query order. */
  function PlanetViews(w: World): (ps: seq<PlanetView>)
    ensures forall p :: p in ps <==>
      exists i :: 0 <= i < |w| && w[i].planet && w[i].circle.Some?
                  && p == PlanetView(w[i].Position(), w[i].circle.value)
  {
    if |w| == 0 then []
    else
      var rest := PlanetViews(w[1..]);
      assert forall i :: 1 <= i < |w| ==> w[1..][i - 1] == w[i];
      if w[0].planet && w[0].circle.Some? then [PlanetView(w[0].Position(), w[0].circle.value)] + rest
      else rest
  }

  /**
   * The `min_by` over squared centre distance: the index of the first planet nearest
   * to `point`, or nothing when there are no planets.
   */
  function Nearest(planets: seq<PlanetView>, point: Vec2): (r: Option<nat>)
    ensures r.None? <==> |planets| == 0
    ensures r.Some? ==> r.value < |planets|
    ensures r.Some? ==> forall j :: 0 <= j < |planets| ==>
      DistanceSquared(point, planets[r.value].position) <= DistanceSquared(point, planets[j].position)
    ensures r.Some? ==> forall j :: 0 <= j < r.value ==>
      DistanceSquared(point, planets[r.value].position) < DistanceSquared(point, planets[j].position)
  {
    if |planets| == 0 then None
    else
      var n := |planets| - 1;
      var best := Nearest(planets[..n], point);
      assert forall j :: 0 <= j < n ==> planets[..n][j] == planets[j];
      match best
      case None => Some(n)
      case Some(b) =>
        if DistanceSquared(point, planets[n].position) < DistanceSquared(point, planets[b].position)
        then Some(n) else Some(b)
  }

  /**
   * The `(min_distance, radius)` of `set_sky_color_by_planet_distance`: the distance
   * from the nearest planet's surface (zero inside it) and that planet's radius, or
   * `(1, 1)` without planets.
   */
  function SurfaceDistance(sqrt: real -> real, planets: seq<PlanetView>, point: Vec2): (r: (real, real))
    requires IsSqrt(sqrt)
    ensures 0.0 <= r.0
    ensures |planets| == 0 ==> r == (1.0, 1.0)
    ensures |planets| != 0 ==>
      Nearest(planets, point).Some? && r.1 == planets[Nearest(planets, point).value].radius
  {
    match Nearest(planets, point)
    case None => (1.0, 1.0)
    case Some(i) =>
      var over := Overlap(planets[i], point);
      assert SqrtAt(sqrt, over);
      (sqrt(over), planets[i].radius)
  }

  /** `(distance_squared - radius * radius).max(0.)`: the squared distance to the surface. */
  function Overlap(planet: PlanetView, point: Vec2): real
  {
    Max(DistanceSquared(point, planet.position) - planet.radius * planet.radius, 0.0)
  }

  /**
   * How far the surface distance is from the truth: its square is the squared centre
   * distance minus the squared radius, or zero inside the planet.
   */
  lemma SurfaceDistanceSquare(sqrt: real -> real, planets: seq<PlanetView>, point: Vec2, i: nat)
    requires IsSqrt(sqrt)
    requires Nearest(planets, point) == Some(i)
    ensures var d := SurfaceDistance(sqrt, planets, point).0;
      var radius := planets[i].radius;
      d * d == Max(DistanceSquared(point, planets[i].position) - radius * radius, 0.0)
  {
    var over := Overlap(planets[i], point);
    var d := SurfaceDistance(sqrt, planets, point).0;
    assert d == sqrt(over);
    assert 0.0 <= over && SqrtAt(sqrt, over);
    assert d * d == over;
  }

  /**
   * `set_sky_color_by_planet_distance`: the sky colour at the ship's position. Without
   * planets it is the deep-space colour.
   */
  function SkyAt(sqrt: real -> real, planets: seq<PlanetView>, ship: Vec2): (c: Color)
    requires IsSqrt(sqrt)
    ensures |planets| == 0 ==> c == SkyFar
  {
    var (distance, radius) := SurfaceDistance(sqrt, planets, ship);
    SkyColor(distance, radius)
  }
}
