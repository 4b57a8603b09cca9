/**
 * The walking player: a small body that is pulled by gravity, turns its feet towards
 * the strongest gravity source and walks relative to its own orientation.
 *
 * A rotation about the z axis by an angle θ is represented by the unit vector
 * `(cos θ, sin θ)`; rotating a vector by it is complex multiplication.
 */
module Player {
  import opened Wrappers
  import opened Vectors
  import opened Scene
  import opened Gravity
  import opened Collision

  /**
   * The entity `setup_player` spawns: at rest at the origin, mass 0.1, pulled by gravity,
   * colliding as a circle of radius 0.5, with a 1×1 sprite.
   */
  function PlayerEntity(id: EntityId): (e: Entity)
    ensures IsAffected(e) && e.collision && !e.collider && !IsGravitySource(e)
    ensures Radius(e) == 0.5 && e.mass == Some(0.1)
  {
    Entity(id, Vec3(0.0, 0.0, 0.0), Some(Zero), Some(0.1), Some(0.5), Some(Vec2(1.0, 1.0)),
           false, true, true, false, false, false)
  }

  /** `rotation * v` for a rotation about z, on the plane. */
  function Rotate(rotation: Vec2, v: Vec2): Vec2
  {
    Vec2(rotation.x * v.x - rotation.y * v.y, rotation.y * v.x + rotation.x * v.y)
  }

  /** The squared magnitude of the pull of a source that does not sit on `point`. */
  function Strength(sqrt: real -> real, source: Source, point: Vec2): real
    requires IsSqrt(sqrt)
    requires source.position != point
  {
    assert source.position.Minus(point) != Zero;
    GravityAcceleration(sqrt, source.position.Minus(point), source.mass).value.LengthSquared()
  }

  /**
   * The `flat_map` and `max_by` of `strongest_affector`: among the sources the kernel
   * accepts, the index of the one with the largest pull; on ties the later one wins.
   */
  function Strongest(sqrt: real -> real, sources: seq<Source>, point: Vec2): (r: Option<nat>)
    requires IsSqrt(sqrt)
    ensures r.None? <==> forall i :: 0 <= i < |sources| ==> sources[i].position == point
    ensures r.Some? ==> r.value < |sources| && sources[r.value].position != point
    ensures r.Some? ==> forall j :: 0 <= j < |sources| && sources[j].position != point ==>
      Strength(sqrt, sources[j], point) <= Strength(sqrt, sources[r.value], point)
    ensures r.Some? ==> forall j :: r.value < j < |sources| && sources[j].position != point ==>
      Strength(sqrt, sources[j], point) < Strength(sqrt, sources[r.value], point)
  {
    if |sources| == 0 then None
    else
      var n := |sources| - 1;
      var best := Strongest(sqrt, sources[..n], point);
      assert forall j :: 0 <= j < n ==> sources[..n][j] == sources[j];
      if sources[n].position == point then best
      else
        match best
        case None => Some(n)
        case Some(b) =>
          if Strength(sqrt, sources[b], point) <= Strength(sqrt, sources[n], point) then Some(n)
          else Some(b)
  }

  /**
   * `strongest_affector`: the vector from `point` to the source pulling hardest on it,
   * or nothing when every source sits on `point` (or there are none).
   */
  function StrongestAffector(sqrt: real -> real, sources: seq<Source>, point: Vec2): (r: Option<Vec2>)
    requires IsSqrt(sqrt)
    ensures r.None? <==> forall i :: 0 <= i < |sources| ==> sources[i].position == point
    ensures r.Some? ==> r.value != Zero
    ensures r.Some? <==> Strongest(sqrt, sources, point).Some?
    ensures r.Some? ==> r.value == sources[Strongest(sqrt, sources, point).value].position.Minus(point)
  {
    match Strongest(sqrt, sources, point)
    case None => None
    case Some(i) =>
      assert sources[i].position.Minus(point) != Zero;
      Some(sources[i].position.Minus(point))
  }

  /**
   * Between two sources of the same non-zero mass, the one pulling harder is the nearer
   * one: the pull falls off with the square of the distance.
   */
  lemma {:induction false} StrongerIsNearer(sqrt: real -> real, a: Source, b: Source, point: Vec2)
    requires IsSqrt(sqrt)
    requires a.position != point && b.position != point
    requires a.mass == b.mass && a.mass != 0.0
    ensures Strength(sqrt, b, point) <= Strength(sqrt, a, point) <==>
            a.position.Minus(point).LengthSquared() <= b.position.Minus(point).LengthSquared()
  {
    var ra, rb := a.position.Minus(point), b.position.Minus(point);
    assert ra != Zero && rb != Zero;
    StrengthIsInverseSquare(sqrt, a, point);
    StrengthIsInverseSquare(sqrt, b, point);
    LengthSquaredSign(ra);
    LengthSquaredSign(rb);
    SameMassOrder(Strength(sqrt, a, point), Strength(sqrt, b, point),
                  ra.LengthSquared(), rb.LengthSquared(), a.mass);
  }

  /** `InverseSquareOrder` for two bodies of the same non-zero mass `m`. */
  lemma SameMassOrder(sa: real, sb: real, la: real, lb: real, m: real)
    requires 0.0 < la && 0.0 < lb && m != 0.0
    requires sa * (la * la) == 0.25 * (m * m) && sb * (lb * lb) == 0.25 * (m * m)
    ensures sb <= sa <==> la <= lb
  {
    QuarterSquarePositive(m, sa * (la * la));
    InverseSquareOrder(sa, sb, la, lb);
  }

  /** The squared pull times the fourth power of the distance is a quarter of the squared mass. */
  lemma StrengthIsInverseSquare(sqrt: real -> real, source: Source, point: Vec2)
    requires IsSqrt(sqrt)
    requires source.position != point
    ensures var l := source.position.Minus(point).LengthSquared();
      Strength(sqrt, source, point) * (l * l) == 0.25 * (source.mass * source.mass)
  {
    var r := source.position.Minus(point);
    assert r != Zero;
    KernelIsInverseSquare(sqrt, r, source.mass);
  }

  /** If `sa·la² = sb·lb² > 0` with positive `la`, `lb`, then `sb <= sa` iff `la <= lb`. */
  lemma InverseSquareOrder(sa: real, sb: real, la: real, lb: real)
    requires 0.0 < la && 0.0 < lb
    requires 0.0 < sa * (la * la) && sa * (la * la) == sb * (lb * lb)
    ensures sb <= sa <==> la <= lb
  {
    var qa, qb := la * la, lb * lb;
    PositiveProduct(la, la, qa);
    PositiveProduct(lb, lb, qb);
    InverseOrder(sa, sb, qa, qb);
    SquareOrder(la, lb);
  }

  /** If `sa·qa = sb·qb > 0` with positive `qa`, `qb`, then `sb <= sa` iff `qa <= qb`. */
  lemma InverseOrder(sa: real, sb: real, qa: real, qb: real)
    requires 0.0 < qa && 0.0 < qb
    requires 0.0 < sa * qa && sa * qa == sb * qb
    ensures sb <= sa <==> qa <= qb
  {
    var c := sa * qa;
    assert sa == c / qa;
    assert sb == c / qb;
    if qa <= qb {
      assert c / qb <= c / qa;
    } else {
      assert c / qa < c / qb;
    }
  }

  /** Squaring keeps the order of positive numbers. */
  lemma SquareOrder(la: real, lb: real)
    requires 0.0 < la && 0.0 < lb
    ensures la <= lb <==> la * la <= lb * lb
  {
    if la <= lb {
      assert la * la <= la * lb;
      assert la * lb <= lb * lb;
    } else {
      assert lb * lb < lb * la;
      assert lb * la < la * la;
    }
  }

  lemma PositiveProduct(a: real, b: real, p: real)
    requires 0.0 < a && 0.0 < b && p == a * b
    ensures 0.0 < p
  {
  }

  /** A quarter of a non-zero square is positive. */
  lemma QuarterSquarePositive(x: real, k: real)
    requires x != 0.0 && k == 0.25 * (x * x)
    ensures 0.0 < k
  {
    if x < 0.0 {
      PositiveProduct(-x, -x, 4.0 * k);
    } else {
      PositiveProduct(x, x, 4.0 * k);
    }
  }

  /**
   * The player's `rotate` system: with a strongest source the player turns so that its
   * feet (its local `-y` axis) point at that source; otherwise the rotation is kept. The
   * extra 90° of the source turns the facing direction into the feet direction.
   */
  function Orient(sqrt: real -> real, rotation: Vec2, sources: seq<Source>, point: Vec2): (r: Vec2)
    requires IsSqrt(sqrt)
    ensures StrongestAffector(sqrt, sources, point).None? ==> r == rotation
    ensures StrongestAffector(sqrt, sources, point).Some? ==>
      var dir := StrongestAffector(sqrt, sources, point).value;
      && r.LengthSquared() == 1.0
      && Rotate(r, Vec2(0.0, -1.0)).Cross(dir) == 0.0
      && 0.0 < Rotate(r, Vec2(0.0, -1.0)).Dot(dir)
  {
    match StrongestAffector(sqrt, sources, point)
    case None => rotation
    case Some(dir) =>
      var n := NormalizeOrZero(sqrt, dir);
      var r := Vec2(-n.y, n.x);
      assert Rotate(r, Vec2(0.0, -1.0)) == n;
      r
  }
}
