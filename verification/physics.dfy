/**
 * The motion systems and the order the fixed-update schedule runs them in: gravity,
 * then velocity integration, then collision detection and resolution.
 */
module Physics {
  import opened Wrappers
  import opened Vectors
  import opened Scene
  import opened Gravity
  import opened Collision

  /** Where an entity with velocity `v` is after `delta` seconds; z is kept. */
  function Moved(e: Entity, v: Vec2, delta: real): Vec3
  {
    e.translation.Plus(v.Times(delta).Extend(0.0))
  }

  /**
   * `velocity_system`: every entity with a velocity moves by `velocity * delta` in the
   * plane; velocities, entities without one, and every other component stay as they are.
   */
  function VelocitySystem(w: World, delta: real): (w': World)
    ensures SameEntities(w, w')
    ensures forall i :: 0 <= i < |w| ==> w'[i].velocity == w[i].velocity
    ensures forall i :: 0 <= i < |w| ==> w'[i].translation.z == w[i].translation.z
    ensures forall i :: 0 <= i < |w| && w[i].velocity.None? ==> w'[i] == w[i]
    ensures forall i :: 0 <= i < |w| && w[i].velocity.Some? ==>
      w'[i].Position().Minus(w[i].Position()) == w[i].velocity.value.Times(delta)
  {
    seq(|w|, i requires 0 <= i < |w| =>
      match w[i].velocity
      case None => w[i]
      case Some(v) => w[i].(translation := Moved(w[i], v, delta)))
  }

  /** Two velocity steps make one step of the summed duration. */
  lemma VelocityCompose(w: World, d1: real, d2: real)
    ensures VelocitySystem(VelocitySystem(w, d1), d2) == VelocitySystem(w, d1 + d2)
  {
    var a, b := VelocitySystem(VelocitySystem(w, d1), d2), VelocitySystem(w, d1 + d2);
    forall i | 0 <= i < |w| ensures a[i] == b[i] {
      if w[i].velocity.Some? {
        var v := w[i].velocity.value;
        assert v.Times(d1).Plus(v.Times(d2)) == v.Times(d1 + d2);
      }
    }
  }

  /** A zero step moves nothing. */
  lemma VelocityZeroStep(w: World)
    ensures VelocitySystem(w, 0.0) == w
  {
    forall i | 0 <= i < |w| ensures VelocitySystem(w, 0.0)[i] == w[i] {
      if w[i].velocity.Some? {
        assert w[i].velocity.value.Times(0.0).Extend(0.0) == Vec3(0.0, 0.0, 0.0);
      }
    }
  }

  /**
   * One fixed update of the physics set: `gravity_system` before `velocity_system`,
   * `collision_detection` after it and `collision_resolution` last, all with the same
   * `delta`.
   */
  function Tick(sqrt: real -> real, w: World, delta: real): (w': World)
    requires IsSqrt(sqrt)
    ensures SameEntities(w, w')
  {
    var moved := VelocitySystem(GravitySystem(sqrt, w, delta), delta);
    var events := Detect(sqrt, moved);
    DetectedEventsResolvable(sqrt, moved);
    Resolve(moved, events)
  }

  /** An entity no event names ends the tick where the motion systems left it. */
  lemma TickUnnamed(sqrt: real -> real, w: World, delta: real, i: nat)
    requires IsSqrt(sqrt)
    requires i < |w|
    requires !Named(Detect(sqrt, VelocitySystem(GravitySystem(sqrt, w, delta), delta)), w[i].id)
    ensures Tick(sqrt, w, delta)[i] == VelocitySystem(GravitySystem(sqrt, w, delta), delta)[i]
  {
    var moved := VelocitySystem(GravitySystem(sqrt, w, delta), delta);
    assert moved[i].id == w[i].id;
  }

  /**
   * Away from every contact, a tick is a semi-implicit Euler step: the velocity gains
   * the field times `delta` first and the position then moves with the new velocity.
   */
  lemma TickIsSemiImplicitEuler(sqrt: real -> real, w: World, delta: real, i: nat)
    requires IsSqrt(sqrt)
    requires i < |w| && IsAffected(w[i])
    requires !Named(Detect(sqrt, VelocitySystem(GravitySystem(sqrt, w, delta), delta)), w[i].id)
    ensures var v := w[i].velocity.value;
      var a := TotalAcceleration(sqrt, GravitySources(w), w[i].Position());
      var v' := v.Plus(a.Times(delta));
      && Tick(sqrt, w, delta)[i].velocity == Some(v')
      && Tick(sqrt, w, delta)[i].Position() == w[i].Position().Plus(v'.Times(delta))
  {
    TickUnnamed(sqrt, w, delta, i);
    MotionStep(sqrt, w, delta, i);
  }

  /** The gravity and velocity systems together, for one affected entity. */
  lemma MotionStep(sqrt: real -> real, w: World, delta: real, i: nat)
    requires IsSqrt(sqrt)
    requires i < |w| && IsAffected(w[i])
    ensures var v := w[i].velocity.value;
      var a := TotalAcceleration(sqrt, GravitySources(w), w[i].Position());
      var v' := v.Plus(a.Times(delta));
      var moved := VelocitySystem(GravitySystem(sqrt, w, delta), delta);
      && moved[i].velocity == Some(v')
      && moved[i].Position() == w[i].Position().Plus(v'.Times(delta))
  {
    var g := GravitySystem(sqrt, w, delta);
    var v := w[i].velocity.value;
    var a := TotalAcceleration(sqrt, GravitySources(w), w[i].Position());
    assert g[i].velocity.value.Minus(v) == a.Times(delta);
    assert g[i].velocity.value == v.Plus(a.Times(delta));
    assert g[i].Position() == w[i].Position();
  }

  /** Entities without a velocity never move except when pushed out of a collider. */
  lemma StillEntitiesStayUnlessPushed(sqrt: real -> real, w: World, delta: real, i: nat)
    requires IsSqrt(sqrt)
    requires i < |w| && w[i].velocity.None?
    requires !Named(Detect(sqrt, VelocitySystem(GravitySystem(sqrt, w, delta), delta)), w[i].id)
    ensures Tick(sqrt, w, delta)[i] == w[i]
  {
    var g := GravitySystem(sqrt, w, delta);
    TickUnnamed(sqrt, w, delta, i);
    assert !IsAffected(w[i]);
    assert g[i] == w[i];
  }
}
