/**
 * A planet: a fixed disc of uniform density that pulls with a mass equal to its radius
 * cubed and stops the bodies that collide with it.
 */
module Planet {
  import opened Wrappers
  import opened Vectors
  import opened Scene
  import opened Gravity
  import opened Collision

  /** `x.powi(3)`: a planet's mass is its radius cubed. */
  function Cube(x: real): real
  {
    x * x * x
  }

  /**
   * `PlanetBundle::new`: a planet of the given radius centred on `position` in the z = 0
   * plane. It is a gravity source of mass `radius³`, a collider disc of that radius, and
   * drawn as a square of side `2·radius`. It has no velocity: gravity and contacts never
   * move it.
   */
  function PlanetBundle(id: EntityId, radius: real, position: Vec2): (e: Entity)
    ensures e.id == id && e.planet && !e.levelObject
    ensures e.Position() == position && e.translation.z == 0.0
    ensures IsGravitySource(e) && e.mass == Some(Cube(radius))
    ensures e.collider && !e.collision && Radius(e) == radius
    ensures !IsAffected(e) && e.velocity.None?
    ensures e.sprite == Some(Vec2(2.0 * radius, 2.0 * radius))
  {
    Entity(id, position.Extend(0.0), None, Some(Cube(radius)), Some(radius),
           Some(Vec2(radius * 2.0, radius * 2.0)), true, false, false, true, true, false)
  }

  /**
   * Planets are the gravity sources of a world made of planets: one source per planet,
   * in the same order, at the planet's centre with mass `radius³`.
   */
  lemma {:induction false} PlanetsAreSources(ids: seq<EntityId>, radii: seq<real>, positions: seq<Vec2>)
    requires |ids| == |radii| == |positions|
    ensures var w := seq(|ids|, i requires 0 <= i < |ids| => PlanetBundle(ids[i], radii[i], positions[i]));
      GravitySources(w)
      == seq(|ids|, i requires 0 <= i < |ids| => Source(positions[i], Cube(radii[i])))
  {
    var w := seq(|ids|, i requires 0 <= i < |ids| => PlanetBundle(ids[i], radii[i], positions[i]));
    var expected := seq(|ids|, i requires 0 <= i < |ids| => Source(positions[i], Cube(radii[i])));
    if |ids| != 0 {
      PlanetsAreSources(ids[1..], radii[1..], positions[1..]);
      var rest := seq(|ids| - 1, i requires 0 <= i < |ids| - 1 => PlanetBundle(ids[1..][i], radii[1..][i], positions[1..][i]));
      assert w[1..] == rest;
      assert IsGravitySource(w[0]);
      assert GravitySources(w) == [Source(w[0].Position(), w[0].mass.value)] + GravitySources(w[1..]);
      assert Source(w[0].Position(), w[0].mass.value) == expected[0];
      var tail := seq(|ids| - 1, i requires 0 <= i < |ids| - 1 =>
        Source(positions[1..][i], Cube(radii[1..][i])));
      forall i | 0 <= i < |ids| - 1
        ensures expected[1..][i] == tail[i]
      {
        assert expected[1..][i] == expected[i + 1];
        assert radii[1..][i] == radii[i + 1] && positions[1..][i] == positions[i + 1];
      }
      assert expected[1..] == tail;
      assert expected == [expected[0]] + expected[1..];
    }
  }

  /**
   * The pull of a planet on a point outside it is the inverse-square pull of its mass:
   * twice the radius means eight times the mass.
   */
  lemma PlanetPull(sqrt: real -> real, id: EntityId, radius: real, position: Vec2, point: Vec2)
    requires IsSqrt(sqrt)
    requires point != position
    ensures var a := Contribution(sqrt, Source(position, PlanetBundle(id, radius, position).mass.value), point);
      a.LengthSquared() * (position.Minus(point).LengthSquared() * position.Minus(point).LengthSquared())
      == 0.25 * (Cube(radius) * Cube(radius))
  {
    var r := position.Minus(point);
    assert r != Zero;
    KernelIsInverseSquare(sqrt, r, Cube(radius));
  }
}
