/**
 * Circle collision: detection emits one event per (collision entity, collider) pair
 * whose circles touch or overlap, and resolution pushes each collision entity back onto
 * the collider's surface and removes the part of its velocity pointing into it.
 */
module Collision {
  import opened Wrappers
  import opened Vectors
  import opened Scene

  datatype CollisionEvent = CollisionEvent(
    collisionEntity: EntityId,
    colliderEntity: EntityId,
    normal: Vec2,
    point: Vec2)

  /** A collision entity without a `Circle` counts as a point: `map_or(0., |c| c.radius)`. */
  function Radius(e: Entity): real
  {
    if e.circle.Some? then e.circle.value else 0.0
  }

  /** The squared distance between two points, glam's `distance_squared`. */
  function DistanceSquared(a: Vec2, b: Vec2): real
  {
    a.Minus(b).LengthSquared()
  }

  /**
   * The detection test for one pair: `c` is in the query `With<Collision>`, `k` in the
   * query `(Entity, &Transform, &Circle), With<Collider>`, they are different entities,
   * and their centres are no further apart than the sum of the radii.
   */
  predicate Touching(c: Entity, k: Entity)
  {
    && c.collision
    && k.collider
    && k.circle.Some?
    && c.id != k.id
    && var minDistance := Radius(c) + k.circle.value;
       DistanceSquared(c.Position(), k.Position()) <= minDistance * minDistance
  }

  /**
   * The event for a touching pair: the normal runs from the collider's centre towards
   * the collision entity (zero when the centres coincide) and the contact point is on
   * the collider's circle along that normal.
   */
  function MakeEvent(sqrt: real -> real, c: Entity, k: Entity): (ev: CollisionEvent)
    requires IsSqrt(sqrt)
    requires k.circle.Some?
    ensures ev.collisionEntity == c.id && ev.colliderEntity == k.id
    ensures ev.point.Minus(k.Position()) == ev.normal.Times(k.circle.value)
    ensures c.Position() == k.Position() ==> ev.normal == Zero && ev.point == k.Position()
    ensures c.Position() != k.Position() ==>
      && ev.normal.LengthSquared() == 1.0
      && ev.normal.Cross(c.Position().Minus(k.Position())) == 0.0
      && 0.0 < ev.normal.Dot(c.Position().Minus(k.Position()))
  {
    var normal := NormalizeOrZero(sqrt, c.Position().Minus(k.Position()));
    var point := k.Position().Plus(normal.Times(k.circle.value));
    assert c.Position() == k.Position() ==> c.Position().Minus(k.Position()) == Zero;
    assert c.Position() != k.Position() ==> c.Position().Minus(k.Position()) != Zero;
    CollisionEvent(c.id, k.id, normal, point)
  }

  /** The inner loop of `collision_detection`: the events of one collision entity. */
  function EventsOf(sqrt: real -> real, c: Entity, ks: World): (r: seq<CollisionEvent>)
    requires IsSqrt(sqrt)
    ensures |r| <= |ks|
    ensures forall ev :: ev in r <==>
      exists j :: 0 <= j < |ks| && Touching(c, ks[j]) && ev == MakeEvent(sqrt, c, ks[j])
  {
    if |ks| == 0 then []
    else
      var rest := EventsOf(sqrt, c, ks[1..]);
      assert forall j :: 1 <= j < |ks| ==> ks[1..][j - 1] == ks[j];
      if Touching(c, ks[0]) then [MakeEvent(sqrt, c, ks[0])] + rest else rest
  }

  /** Both loops of `collision_detection` over the collision entities in `cs`. */
  function DetectAmong(sqrt: real -> real, cs: World, w: World): (r: seq<CollisionEvent>)
    requires IsSqrt(sqrt)
    ensures forall ev :: ev in r <==>
      exists i, j :: 0 <= i < |cs| && 0 <= j < |w| && Touching(cs[i], w[j])
                     && ev == MakeEvent(sqrt, cs[i], w[j])
  {
    if |cs| == 0 then []
    else
      var first := EventsOf(sqrt, cs[0], w);
      var rest := DetectAmong(sqrt, cs[1..], w);
      assert forall i :: 1 <= i < |cs| ==> cs[1..][i - 1] == cs[i];
      first + rest
  }

  /**
   * `collision_detection`: the events, grouped by collision entity in world order.
   * An event is sent exactly for every touching pair.
   */
  function Detect(sqrt: real -> real, w: World): (r: seq<CollisionEvent>)
    requires IsSqrt(sqrt)
    ensures forall ev :: ev in r <==>
      exists i, j :: 0 <= i < |w| && 0 <= j < |w| && Touching(w[i], w[j])
                     && ev == MakeEvent(sqrt, w[i], w[j])
  {
    DetectAmong(sqrt, w, w)
  }

  /** Every detected event names an entity of the world that carries `Collision`. */
  predicate HasCollisionEntity(w: World, id: EntityId)
  {
    exists i :: 0 <= i < |w| && w[i].id == id && w[i].collision
  }

  /** The `unwrap` in `collision_resolution` never fails on freshly detected events. */
  lemma DetectedEventsResolvable(sqrt: real -> real, w: World)
    requires IsSqrt(sqrt)
    ensures forall ev :: ev in Detect(sqrt, w) ==> HasCollisionEntity(w, ev.collisionEntity)
  {
    forall ev | ev in Detect(sqrt, w)
      ensures HasCollisionEntity(w, ev.collisionEntity)
    {
      var i, j :| 0 <= i < |w| && 0 <= j < |w| && Touching(w[i], w[j])
                  && ev == MakeEvent(sqrt, w[i], w[j]);
      assert w[i].id == ev.collisionEntity && w[i].collision;
    }
  }

  /**
   * One event applied to the collision entity: it is moved to `point + normal * radius`
   * (with z reset to 0), and when it has a velocity, the velocity's component against
   * the normal is removed.
   */
  function ResolveEntity(e: Entity, ev: CollisionEvent): (e': Entity)
  {
    var translation := ev.point.Plus(ev.normal.Times(Radius(e))).Extend(0.0);
    match e.velocity
    case None => e.(translation := translation)
    case Some(v) =>
      var amountToRemove := Max(v.Dot(ev.normal.Neg()), 0.0);
      e.(translation := translation, velocity := Some(v.Plus(ev.normal.Times(amountToRemove))))
  }

  function Max(a: real, b: real): real { if a < b then b else a }

  /** What `ResolveEntity` does to the position. */
  lemma ResolvedPosition(e: Entity, ev: CollisionEvent)
    ensures var e' := ResolveEntity(e, ev);
      && e'.Position() == ev.point.Plus(ev.normal.Times(Radius(e)))
      && e'.translation.z == 0.0
      && e'.WithMotion(e.translation, e.velocity) == e
      && (e.velocity.None? <==> e'.velocity.None?)
  {
  }

  /**
   * After resolving a unit-normal event the velocity no longer points into the collider:
   * its normal component is `max(v·n, 0)`, its tangential component is kept, and a
   * velocity already leaving the collider is untouched.
   */
  lemma {:induction false} ResolvedVelocity(e: Entity, ev: CollisionEvent, t: Vec2)
    requires e.velocity.Some?
    requires ev.normal.LengthSquared() == 1.0
    requires t.Dot(ev.normal) == 0.0
    ensures var v := e.velocity.value;
      var v' := ResolveEntity(e, ev).velocity.value;
      && v'.Dot(ev.normal) == Max(v.Dot(ev.normal), 0.0)
      && v'.Dot(t) == v.Dot(t)
      && (0.0 <= v.Dot(ev.normal) ==> v' == v)
  {
    var v := e.velocity.value;
    var n := ev.normal;
    var amount := Max(v.Dot(n.Neg()), 0.0);
    var v' := v.Plus(n.Times(amount));
    assert v.Dot(n.Neg()) == -v.Dot(n);
    calc {
      v'.Dot(n);
      v.Dot(n) + amount * n.LengthSquared();
      v.Dot(n) + amount;
    }
    calc {
      v'.Dot(t);
      v.Dot(t) + amount * t.Dot(n);
      v.Dot(t);
    }
    if 0.0 <= v.Dot(n) {
      assert amount == 0.0;
      assert n.Times(0.0) == Zero;
    }
  }

  /** An event without a direction (coincident centres) leaves the velocity as it is. */
  lemma ZeroNormalKeepsVelocity(e: Entity, ev: CollisionEvent)
    requires ev.normal == Zero
    ensures ResolveEntity(e, ev).velocity == e.velocity
    ensures ResolveEntity(e, ev).Position() == ev.point
  {
  }

  /**
   * Resolving a detected contact puts the collision entity's centre exactly
   * `collider radius + own radius` away from the collider's centre, on the side it came
   * from (for non-negative radii).
   */
  lemma ResolvedOnSurface(sqrt: real -> real, c: Entity, k: Entity)
    requires IsSqrt(sqrt)
    requires Touching(c, k)
    requires c.Position() != k.Position()
    ensures var p := ResolveEntity(c, MakeEvent(sqrt, c, k)).Position();
      var reach := k.circle.value + Radius(c);
      && p.Minus(k.Position()).LengthSquared() == reach * reach
      && (0.0 <= reach ==> 0.0 <= p.Minus(k.Position()).Dot(c.Position().Minus(k.Position())))
  {
    var ev := MakeEvent(sqrt, c, k);
    ResolvedPosition(c, ev);
    OnSurface(ev.normal, c.Position().Minus(k.Position()), k.Position(), ev.point,
              ResolveEntity(c, ev).Position(), k.circle.value, Radius(c));
  }

  /** The geometry behind `ResolvedOnSurface`, free of the entities. */
  lemma OnSurface(n: Vec2, d: Vec2, center: Vec2, point: Vec2, p: Vec2, kr: real, cr: real)
    requires n.LengthSquared() == 1.0 && 0.0 < n.Dot(d)
    requires point.Minus(center) == n.Times(kr)
    requires p == point.Plus(n.Times(cr))
    ensures p.Minus(center).LengthSquared() == (kr + cr) * (kr + cr)
    ensures 0.0 <= kr + cr ==> 0.0 <= p.Minus(center).Dot(d)
  {
    assert p.Minus(center) == n.Times(kr + cr);
    ScaledLengthSquared(n, kr + cr);
    ScaledDirection(n, d, kr + cr);
  }

  /**
   * Pushing along the outward normal keeps the collision entity on its own side of the
   * collider whenever the combined reach is non-negative.
   */
  lemma ScaledDirection(n: Vec2, d: Vec2, reach: real)
    requires 0.0 < n.Dot(d)
    ensures 0.0 <= reach ==> 0.0 <= n.Times(reach).Dot(d)
  {
    calc {
      n.Times(reach).Dot(d);
      reach * n.Dot(d);
    }
    if 0.0 <= reach {
      assert 0.0 <= reach * n.Dot(d);
    }
  }

  /** Applies one event to the entity it names, leaving every other entity alone. */
  function ResolveOne(w: World, ev: CollisionEvent): (w': World)
    requires HasCollisionEntity(w, ev.collisionEntity)
    ensures SameEntities(w, w')
    ensures forall i :: 0 <= i < |w| ==>
      w'[i] == if w[i].id == ev.collisionEntity && w[i].collision
               then ResolveEntity(w[i], ev) else w[i]
  {
    seq(|w|, i requires 0 <= i < |w| =>
      if w[i].id == ev.collisionEntity && w[i].collision then ResolveEntity(w[i], ev) else w[i])
  }

  /** Some event in `events` is about entity `id`. */
  predicate Named(events: seq<CollisionEvent>, id: EntityId)
  {
    exists ev :: ev in events && ev.collisionEntity == id
  }

  /** `collision_resolution`: the events, one after another, in the order they were sent. */
  function Resolve(w: World, events: seq<CollisionEvent>): (w': World)
    requires forall ev :: ev in events ==> HasCollisionEntity(w, ev.collisionEntity)
    ensures SameEntities(w, w')
    ensures forall i :: 0 <= i < |w| && !Named(events, w[i].id) ==> w'[i] == w[i]
    decreases |events|
  {
    if |events| == 0 then w
    else
      var w1 := ResolveOne(w, events[0]);
      assert forall ev :: ev in events[1..] ==> HasCollisionEntity(w1, ev.collisionEntity) by {
        forall ev | ev in events[1..] ensures HasCollisionEntity(w1, ev.collisionEntity) {
          assert ev in events;
          assert HasCollisionEntity(w, ev.collisionEntity);
          var i :| 0 <= i < |w| && w[i].id == ev.collisionEntity && w[i].collision;
          assert w1[i].id == w[i].id && w1[i].collision;
        }
      }
      var w' := Resolve(w1, events[1..]);
      assert forall i :: 0 <= i < |w| ==> w'[i].WithMotion(w[i].translation, w[i].velocity) == w[i] by {
        forall i | 0 <= i < |w|
          ensures w'[i].WithMotion(w[i].translation, w[i].velocity) == w[i]
        {
          assert w'[i].WithMotion(w1[i].translation, w1[i].velocity) == w1[i];
          assert w1[i].WithMotion(w[i].translation, w[i].velocity) == w[i];
        }
      }
      w'
  }

  /**
   * Positions are overwritten, not accumulated: after the events, the collision entity
   * sits where the last event that names it put it.
   */
  lemma {:induction false} LastEventPlaces(w: World, events: seq<CollisionEvent>, i: nat)
    requires forall ev :: ev in events ==> HasCollisionEntity(w, ev.collisionEntity)
    requires i < |w| && w[i].collision
    requires |events| != 0 && events[|events| - 1].collisionEntity == w[i].id
    ensures var last := events[|events| - 1];
      Resolve(w, events)[i].Position() == last.point.Plus(last.normal.Times(Radius(w[i])))
    decreases |events|
  {
    var w1 := ResolveOne(w, events[0]);
    if |events| == 1 {
      assert Resolve(w1, events[1..]) == w1;
      ResolvedPosition(w[i], events[0]);
    } else {
      assert events[1..][|events[1..]| - 1] == events[|events| - 1];
      assert w1[i].circle == w[i].circle && w1[i].collision && w1[i].id == w[i].id;
      assert Radius(w1[i]) == Radius(w[i]);
      LastEventPlaces(w1, events[1..], i);
    }
  }
}
