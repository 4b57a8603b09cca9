/**
 * The predicted trajectory drawn in front of the ship: 1000 points, each ten fixed
 * sub-steps of 1/60 s after the previous one, under the gravity of the sources as they
 * stand now, drawn as a line strip anchored at the first point.
 */
module Prediction {
  import opened Wrappers
  import opened Vectors
  import opened Scene
  import opened Gravity
  import opened Physics

  /** `DELTA`: the sub-step length. */
  const Delta: real := 1.0 / 60.0
  /** `STEPS`: sub-steps between two path points. */
  const Steps: nat := 10
  /** The number of points `generate_path` produces. */
  const PathLength: nat := 1000

  datatype PathState = PathState(pos: Vec2, vel: Vec2)

  /**
   * The velocity update of one sub-step: every source's kernel value, measured at the
   * unchanged position, is added times `DELTA`, in order. A source the position sits on
   * is skipped, which `Contribution` expresses as adding zero.
   */
  function ApplySources(sqrt: real -> real, sources: seq<Source>, pos: Vec2, vel: Vec2): Vec2
    requires IsSqrt(sqrt)
  {
    if |sources| == 0 then vel
    else
      var n := |sources| - 1;
      var v := ApplySources(sqrt, sources[..n], pos, vel);
      v.Plus(Contribution(sqrt, sources[n], pos).Times(Delta))
  }

  /** Adding each source's pull times `DELTA` is adding the summed field times `DELTA`. */
  lemma {:induction false} ApplySourcesIsTotal(sqrt: real -> real, sources: seq<Source>, pos: Vec2, vel: Vec2)
    requires IsSqrt(sqrt)
    ensures ApplySources(sqrt, sources, pos, vel)
            == vel.Plus(TotalAcceleration(sqrt, sources, pos).Times(Delta))
  {
    if |sources| == 0 {
      calc {
        ApplySources(sqrt, sources, pos, vel);
        vel;
        { ZeroScaled(Delta); }
        vel.Plus(Zero.Times(Delta));
        vel.Plus(TotalAcceleration(sqrt, sources, pos).Times(Delta));
      }
    } else {
      var n := |sources| - 1;
      ApplySourcesIsTotal(sqrt, sources[..n], pos, vel);
      var acc := TotalAcceleration(sqrt, sources[..n], pos);
      var c := Contribution(sqrt, sources[n], pos);
      calc {
        ApplySources(sqrt, sources, pos, vel);
        ApplySources(sqrt, sources[..n], pos, vel).Plus(c.Times(Delta));
        vel.Plus(acc.Times(Delta)).Plus(c.Times(Delta));
        { ScaleDistributes(vel, acc, c, Delta); }
        vel.Plus(acc.Plus(c).Times(Delta));
        { TotalStep(sqrt, sources, pos); }
        vel.Plus(TotalAcceleration(sqrt, sources, pos).Times(Delta));
      }
    }
  }

  /** One sub-step: velocity first, then the position with the new velocity. */
  function SubStep(sqrt: real -> real, sources: seq<Source>, s: PathState): PathState
    requires IsSqrt(sqrt)
  {
    var vel := ApplySources(sqrt, sources, s.pos, s.vel);
    PathState(s.pos.Plus(vel.Times(Delta)), vel)
  }

  /** `count` sub-steps. */
  function SubSteps(sqrt: real -> real, sources: seq<Source>, s: PathState, count: nat): PathState
    requires IsSqrt(sqrt)
    decreases count
  {
    if count == 0 then s else SubSteps(sqrt, sources, SubStep(sqrt, sources, s), count - 1)
  }

  lemma SubStepsUnfold(sqrt: real -> real, sources: seq<Source>, s: PathState, count: nat)
    requires IsSqrt(sqrt)
    requires 0 < count
    ensures SubSteps(sqrt, sources, s, count) == SubSteps(sqrt, sources, SubStep(sqrt, sources, s), count - 1)
  {
  }

  /** `generate_next_path_point`: ten sub-steps. */
  function NextPathPoint(sqrt: real -> real, sources: seq<Source>, s: PathState): PathState
    requires IsSqrt(sqrt)
  {
    SubSteps(sqrt, sources, s, Steps)
  }

  /** The state after `i` path points. */
  function StateAt(sqrt: real -> real, sources: seq<Source>, s0: PathState, i: nat): PathState
    requires IsSqrt(sqrt)
  {
    if i == 0 then s0 else NextPathPoint(sqrt, sources, StateAt(sqrt, sources, s0, i - 1))
  }

  /**
   * `generate_path`: the positions of the first 1000 states, starting with the ship's
   * own position.
   */
  method GeneratePath(sqrt: real -> real, sources: seq<Source>, shipPos: Vec2, shipVel: Vec2)
    returns (path: seq<Vec2>)
    requires IsSqrt(sqrt)
    ensures |path| == PathLength
    ensures path[0] == shipPos
    ensures forall i :: 0 <= i < PathLength ==>
      path[i] == StateAt(sqrt, sources, PathState(shipPos, shipVel), i).pos
  {
    var s0 := PathState(shipPos, shipVel);
    var s := s0;
    path := [];
    var k := 0;
    while k < PathLength
      invariant 0 <= k <= PathLength
      invariant |path| == k
      invariant s == StateAt(sqrt, sources, s0, k)
      invariant forall i :: 0 <= i < k ==> path[i] == StateAt(sqrt, sources, s0, i).pos
    {
      ghost var before := path;
      path := path + [s.pos];
      forall i | 0 <= i < k + 1
        ensures path[i] == StateAt(sqrt, sources, s0, i).pos
      {
        if i < k {
          assert path[i] == before[i];
        }
      }
      var j := 0;
      var t := s;
      while j < Steps
        invariant 0 <= j <= Steps
        invariant SubSteps(sqrt, sources, t, Steps - j) == NextPathPoint(sqrt, sources, s)
      {
        SubStepsUnfold(sqrt, sources, t, Steps - j);
        t := SubStep(sqrt, sources, t);
        j := j + 1;
      }
      assert SubSteps(sqrt, sources, t, 0) == t;
      assert t == StateAt(sqrt, sources, s0, k + 1);
      s := t;
      k := k + 1;
    }
  }

  /**
   * With no sources the prediction is a straight line: point `i` is where the ship is
   * after `i * 10 / 60` seconds at its current velocity.
   */
  lemma {:induction false} FreeFlightIsStraight(sqrt: real -> real, s0: PathState, i: nat)
    requires IsSqrt(sqrt)
    ensures StateAt(sqrt, [], s0, i)
            == PathState(s0.pos.Plus(s0.vel.Times((i * Steps) as real * Delta)), s0.vel)
  {
    var t := (i * Steps) as real * Delta;
    if i == 0 {
      assert t == 0.0;
      NoMove(s0.pos, s0.vel, t);
    } else {
      FreeFlightIsStraight(sqrt, s0, i - 1);
      var before := StateAt(sqrt, [], s0, i - 1);
      var t0 := ((i - 1) * Steps) as real * Delta;
      var step := Steps as real * Delta;
      FreeSubSteps(sqrt, before, Steps);
      assert t == t0 + step;
      MovesAdd(s0.pos, s0.vel, t0, step);
    }
  }

  /** Without sources, `count` sub-steps move the position by `count / 60` of the velocity. */
  lemma {:induction false} FreeSubSteps(sqrt: real -> real, s: PathState, count: nat)
    requires IsSqrt(sqrt)
    ensures SubSteps(sqrt, [], s, count)
            == PathState(s.pos.Plus(s.vel.Times(count as real * Delta)), s.vel)
    decreases count
  {
    var t := count as real * Delta;
    if count == 0 {
      NoMove(s.pos, s.vel, t);
    } else {
      var next := SubStep(sqrt, [], s);
      assert ApplySources(sqrt, [], s.pos, s.vel) == s.vel;
      assert next == PathState(s.pos.Plus(s.vel.Times(Delta)), s.vel);
      FreeSubSteps(sqrt, next, count - 1);
      var t1 := (count - 1) as real * Delta;
      assert t == Delta + t1;
      MovesAdd(s.pos, s.vel, Delta, t1);
    }
  }

  /**
   * A prediction sub-step is exactly the gravity and velocity systems' step with
   * `delta = 1/60` for an affected body, when the prediction is given the world's
   * gravity sources: the path shows what the physics will do (before contacts, and for
   * every time scale of at least 1, whose fixed steps each cover 1/60 s).
   */
  lemma SubStepMatchesPhysics(sqrt: real -> real, w: World, i: nat)
    requires IsSqrt(sqrt)
    requires i < |w| && IsAffected(w[i])
    ensures var moved := VelocitySystem(GravitySystem(sqrt, w, Delta), Delta);
      SubStep(sqrt, GravitySources(w), PathState(w[i].Position(), w[i].velocity.value))
      == PathState(moved[i].Position(), moved[i].velocity.value)
  {
    MotionStep(sqrt, w, Delta, i);
    ApplySourcesIsTotal(sqrt, GravitySources(w), w[i].Position(), w[i].velocity.value);
  }

  /**
   * `generate_mesh_from_path`: every point relative to the first one, lifted to z = 0.
   * An empty path gives an empty mesh.
   */
  function MeshVertices(path: seq<Vec2>): (vs: seq<Vec3>)
    ensures |vs| == |path|
    ensures forall i :: 0 <= i < |path| ==>
      vs[i].z == 0.0 && path[0].Plus(vs[i].Truncate()) == path[i]
  {
    if |path| == 0 then []
    else seq(|path|, i requires 0 <= i < |path| => path[i].Minus(path[0]).Extend(0.0))
  }

  /**
   * `physics_prediction_system`: the mesh and where it is placed. Placing the mesh at the
   * first point puts every vertex back on its path point, and the first vertex at the
   * anchor itself.
   */
  method PredictionDisplay(sqrt: real -> real, sources: seq<Source>, shipPos: Vec2, shipVel: Vec2)
    returns (vertices: seq<Vec3>, anchor: Vec3)
    requires IsSqrt(sqrt)
    ensures anchor == shipPos.Extend(0.0)
    ensures |vertices| == PathLength
    ensures vertices[0] == Vec3(0.0, 0.0, 0.0)
    ensures forall i :: 0 <= i < PathLength ==>
      anchor.Plus(vertices[i]) == StateAt(sqrt, sources, PathState(shipPos, shipVel), i).pos.Extend(0.0)
  {
    var path := GeneratePath(sqrt, sources, shipPos, shipVel);
    vertices := MeshVertices(path);
    anchor := path[0].Extend(0.0);
  }
}
