/**
 * The gravity kernel shared by the fixed-step simulator and the trajectory predictor,
 * the summed field of all sources, and the gravity system of one fixed tick.
 */
module Gravity {
  import opened Wrappers
  import opened Vectors
  import opened Scene

  /**
   * `get_gravity_acceleration`: the acceleration a test point feels from a point mass at
   * `relative` (the vector from the test point to the source). It is an error exactly
   * when the test point sits on the source; `KernelIsInverseSquare` states the law.
   */
  function GravityAcceleration(sqrt: real -> real, relative: Vec2, mass: real): (r: Result<Vec2, ()>)
    requires IsSqrt(sqrt)
    ensures r.Err? <==> relative == Zero
    ensures r.Ok? ==> r.value == Pull(relative, Length(sqrt, relative), mass)
  {
    var distance := Length(sqrt, relative);
    if distance == 0.0 then Err(())
    else Ok(Pull(relative, distance, mass))
  }

  /** `0.5 * relative * mass / distance³`, the kernel's value away from the source. */
  function Pull(relative: Vec2, distance: real, mass: real): Vec2
    requires distance != 0.0
  {
    relative.Times(0.5 * mass / (distance * distance * distance))
  }

  /**
   * Away from the source the kernel lies on the line to the source, points towards it
   * for a non-negative mass, and has the inverse-square magnitude 0.5·mass/|relative|².
   */
  lemma KernelIsInverseSquare(sqrt: real -> real, relative: Vec2, mass: real)
    requires IsSqrt(sqrt)
    requires relative != Zero
    ensures var a := GravityAcceleration(sqrt, relative, mass).value;
      && a.Cross(relative) == 0.0
      && (0.0 <= mass ==> 0.0 <= a.Dot(relative))
      && a.LengthSquared() * (relative.LengthSquared() * relative.LengthSquared())
         == 0.25 * (mass * mass)
  {
    var distance := Length(sqrt, relative);
    LengthSquares(sqrt, relative);
    KernelShape(relative, distance, mass);
    InverseSquare(relative, distance, mass, Pull(relative, distance, mass));
  }

  /** The algebra behind `KernelIsInverseSquare`: direction. */
  lemma KernelShape(relative: Vec2, distance: real, mass: real)
    requires 0.0 < distance && distance * distance == relative.LengthSquared()
    ensures 0.0 < distance * distance * distance
    ensures Pull(relative, distance, mass).Cross(relative) == 0.0
    ensures 0.0 <= mass ==> 0.0 <= Pull(relative, distance, mass).Dot(relative)
  {
    var d3 := distance * distance * distance;
    assert 0.0 < d3 by {
      calc {
        d3;
        (distance * distance) * distance;
      > { MulPositive(distance * distance, distance); }
        0.0;
      }
    }
    var k := 0.5 * mass / d3;
    var a := relative.Times(k);
    var l2 := relative.LengthSquared();
    calc {
      a.Dot(relative);
      k * l2;
    }
    if 0.0 <= mass {
      assert 0.0 <= k;
      LengthSquaredSign(relative);
      NonNegativeProduct(k, l2);
    }
  }

  /** The algebra behind `KernelIsInverseSquare`: magnitude. */
  lemma InverseSquare(relative: Vec2, distance: real, mass: real, a: Vec2)
    requires 0.0 < distance && distance * distance == relative.LengthSquared()
    requires 0.0 < distance * distance * distance
    requires a == Pull(relative, distance, mass)
    ensures a.LengthSquared() * (relative.LengthSquared() * relative.LengthSquared())
            == 0.25 * (mass * mass)
  {
    var d3 := distance * distance * distance;
    var k := 0.5 * mass / d3;
    var l2 := relative.LengthSquared();
    calc {
      a.LengthSquared();
      (k * k) * l2;
    }
    calc {
      a.LengthSquared() * (l2 * l2);
      (k * k) * (l2 * l2 * l2);
      { assert l2 * l2 * l2 == d3 * d3; }
      (k * k) * (d3 * d3);
      (k * d3) * (k * d3);
      { assert k * d3 == 0.5 * mass; }
      (0.5 * mass) * (0.5 * mass);
      0.25 * (mass * mass);
    }
  }

  /** A massless source exerts no pull, wherever it is. */
  lemma KernelZeroMass(sqrt: real -> real, relative: Vec2)
    requires IsSqrt(sqrt)
    ensures GravityAcceleration(sqrt, relative, 0.0)
            == if relative == Zero then Err(()) else Ok(Zero)
  {
  }

  /** The kernel is linear in the source's mass. */
  lemma KernelLinearInMass(sqrt: real -> real, relative: Vec2, m1: real, m2: real, c: real)
    requires IsSqrt(sqrt)
    requires relative != Zero
    ensures GravityAcceleration(sqrt, relative, m1 + m2).value
            == GravityAcceleration(sqrt, relative, m1).value.Plus(
                 GravityAcceleration(sqrt, relative, m2).value)
    ensures GravityAcceleration(sqrt, relative, c * m1).value
            == GravityAcceleration(sqrt, relative, m1).value.Times(c)
  {
    var d := Length(sqrt, relative);
    PullLinear(relative, d, m1, m2, c);
  }

  lemma PullLinear(relative: Vec2, d: real, m1: real, m2: real, c: real)
    requires d != 0.0
    ensures Pull(relative, d, m1 + m2) == Pull(relative, d, m1).Plus(Pull(relative, d, m2))
    ensures Pull(relative, d, c * m1) == Pull(relative, d, m1).Times(c)
  {
    var d3 := d * d * d;
    var k1, k2 := 0.5 * m1 / d3, 0.5 * m2 / d3;
    calc {
      0.5 * (m1 + m2) / d3;
      k1 + k2;
    }
    calc {
      0.5 * (c * m1) / d3;
      k1 * c;
    }
    calc {
      relative.Times(k1 + k2);
      Vec2(relative.x * k1 + relative.x * k2, relative.y * k1 + relative.y * k2);
      relative.Times(k1).Plus(relative.Times(k2));
    }
    calc {
      relative.Times(k1 * c);
      Vec2(relative.x * k1 * c, relative.y * k1 * c);
      relative.Times(k1).Times(c);
    }
  }

  /** What one source adds to the field at `point`: its kernel value, or nothing. */
  function Contribution(sqrt: real -> real, source: Source, point: Vec2): Vec2
    requires IsSqrt(sqrt)
  {
    match GravityAcceleration(sqrt, source.position.Minus(point), source.mass)
    case Ok(a) => a
    case Err(_) => Zero
  }

  /**
   * `get_total_gravity_acceleration`: the running sum over the sources in iteration
   * order, skipping every source the kernel rejects.
   */
  function TotalAcceleration(sqrt: real -> real, sources: seq<Source>, point: Vec2): Vec2
    requires IsSqrt(sqrt)
    decreases |sources|
  {
    if |sources| == 0 then Zero
    else
      var last := sources[|sources| - 1];
      var acc := TotalAcceleration(sqrt, sources[..|sources| - 1], point);
      match GravityAcceleration(sqrt, last.position.Minus(point), last.mass)
      case Ok(a) => acc.Plus(a)
      case Err(_) => acc
  }

  /** Each step of the running sum adds the last source's contribution. */
  lemma TotalStep(sqrt: real -> real, sources: seq<Source>, point: Vec2)
    requires IsSqrt(sqrt)
    requires |sources| != 0
    ensures TotalAcceleration(sqrt, sources, point)
            == TotalAcceleration(sqrt, sources[..|sources| - 1], point)
                 .Plus(Contribution(sqrt, sources[|sources| - 1], point))
  {
    var last := sources[|sources| - 1];
    var acc := TotalAcceleration(sqrt, sources[..|sources| - 1], point);
    var r := GravityAcceleration(sqrt, last.position.Minus(point), last.mass);
    if r.Err? {
      assert Contribution(sqrt, last, point) == Zero;
      assert acc.Plus(Zero) == acc;
    }
  }

  /** The contribution of every source, in order. */
  function Contributions(sqrt: real -> real, sources: seq<Source>, point: Vec2): (cs: seq<Vec2>)
    requires IsSqrt(sqrt)
    ensures |cs| == |sources|
    ensures forall i :: 0 <= i < |sources| ==> cs[i] == Contribution(sqrt, sources[i], point)
  {
    seq(|sources|, i requires 0 <= i < |sources| => Contribution(sqrt, sources[i], point))
  }

  /** The summed field is the plain sum of the per-source contributions. */
  lemma {:induction false} TotalIsSum(sqrt: real -> real, sources: seq<Source>, point: Vec2)
    requires IsSqrt(sqrt)
    ensures TotalAcceleration(sqrt, sources, point) == Sum(Contributions(sqrt, sources, point))
    decreases |sources|
  {
    if |sources| != 0 {
      var n := |sources| - 1;
      TotalIsSum(sqrt, sources[..n], point);
      assert Contributions(sqrt, sources, point)[..n] == Contributions(sqrt, sources[..n], point);
    }
  }

  /** The field of two groups of sources is the sum of their fields. */
  lemma TotalAppend(sqrt: real -> real, s: seq<Source>, t: seq<Source>, point: Vec2)
    requires IsSqrt(sqrt)
    ensures TotalAcceleration(sqrt, s + t, point)
            == TotalAcceleration(sqrt, s, point).Plus(TotalAcceleration(sqrt, t, point))
  {
    var cs, ct, cst := Contributions(sqrt, s, point), Contributions(sqrt, t, point), Contributions(sqrt, s + t, point);
    assert cst == cs + ct by {
      forall i | 0 <= i < |cst|
        ensures cst[i] == (cs + ct)[i]
      {
        if i < |s| {
          assert (s + t)[i] == s[i];
        } else {
          assert (s + t)[i] == t[i - |s|];
        }
      }
    }
    TotalIsSum(sqrt, s + t, point);
    TotalIsSum(sqrt, s, point);
    TotalIsSum(sqrt, t, point);
    SumAppend(cs, ct);
  }

  /** Taking one source out of the field subtracts exactly its contribution. */
  lemma TotalRemove(sqrt: real -> real, t: seq<Source>, j: nat, point: Vec2)
    requires IsSqrt(sqrt)
    requires j < |t|
    ensures TotalAcceleration(sqrt, t, point)
            == TotalAcceleration(sqrt, t[..j] + t[j + 1..], point).Plus(Contribution(sqrt, t[j], point))
  {
    var t' := t[..j] + t[j + 1..];
    var ct := Contributions(sqrt, t, point);
    var ct' := Contributions(sqrt, t', point);
    assert ct' == ct[..j] + ct[j + 1..] by {
      forall i | 0 <= i < |ct'|
        ensures ct'[i] == (ct[..j] + ct[j + 1..])[i]
      {
        if i < j {
          assert t'[i] == t[i];
        } else {
          assert t'[i] == t[i + 1];
        }
      }
    }
    TotalIsSum(sqrt, t, point);
    TotalIsSum(sqrt, t', point);
    SumRemove(ct, j);
  }

  /**
   * The summed field does not depend on the order the sources are visited in (which
   * ECS query iteration does not fix).
   */
  lemma {:induction false} TotalOrderIndependent(sqrt: real -> real, s: seq<Source>, t: seq<Source>, point: Vec2)
    requires IsSqrt(sqrt)
    requires multiset(s) == multiset(t)
    ensures TotalAcceleration(sqrt, s, point) == TotalAcceleration(sqrt, t, point)
    decreases |s|
  {
    if |s| == 0 {
      assert |t| == |multiset(t)| == 0;
    } else {
      var n := |s| - 1;
      assert s[n] in multiset(t) by { assert s[n] in multiset(s); }
      var j :| 0 <= j < |t| && t[j] == s[n];
      MultisetRemove(s, n);
      MultisetRemove(t, j);
      assert s[..n] + s[n + 1..] == s[..n];
      TotalOrderIndependent(sqrt, s[..n], t[..j] + t[j + 1..], point);
      TotalRemove(sqrt, s, n, point);
      TotalRemove(sqrt, t, j, point);
    }
  }

  /** Keeps the sources that do not sit on `point`, in order. */
  function Separated(sources: seq<Source>, point: Vec2): (r: seq<Source>)
    ensures forall src :: src in r <==> src in sources && src.position != point
  {
    if |sources| == 0 then []
    else
      var n := |sources| - 1;
      var rest := Separated(sources[..n], point);
      assert sources == sources[..n] + [sources[n]];
      if sources[n].position != point then rest + [sources[n]] else rest
  }

  /** Sources that coincide with the test point contribute nothing to the field. */
  lemma {:induction false} TotalIgnoresCoincident(sqrt: real -> real, sources: seq<Source>, point: Vec2)
    requires IsSqrt(sqrt)
    ensures TotalAcceleration(sqrt, sources, point)
            == TotalAcceleration(sqrt, Separated(sources, point), point)
    decreases |sources|
  {
    if |sources| != 0 {
      var n := |sources| - 1;
      var last := sources[n];
      var rest := Separated(sources[..n], point);
      TotalIgnoresCoincident(sqrt, sources[..n], point);
      if last.position != point {
        var r := rest + [last];
        assert r[..|r| - 1] == rest;
        assert r[|r| - 1] == last;
      } else {
        assert last.position.Minus(point) == Zero;
      }
    }
  }

  /** An entity the gravity system updates: `(&mut Velocity, &Transform), With<AffectedByGravity>`. */
  predicate IsAffected(e: Entity)
  {
    e.affectedByGravity && e.velocity.Some?
  }

  /**
   * `gravity_system`: every affected entity's velocity gains the total acceleration at
   * its position times `delta`; nothing else changes.
   */
  function GravitySystem(sqrt: real -> real, w: World, delta: real): (w': World)
    requires IsSqrt(sqrt)
    ensures SameEntities(w, w')
    ensures forall i :: 0 <= i < |w| ==> w'[i].translation == w[i].translation
    ensures forall i :: 0 <= i < |w| && !IsAffected(w[i]) ==> w'[i] == w[i]
    ensures forall i :: 0 <= i < |w| && IsAffected(w[i]) ==>
      && w'[i].velocity.Some?
      && w'[i].velocity.value.Minus(w[i].velocity.value)
         == TotalAcceleration(sqrt, GravitySources(w), w[i].Position()).Times(delta)
  {
    var sources := GravitySources(w);
    seq(|w|, i requires 0 <= i < |w| =>
      if IsAffected(w[i]) then
        var a := TotalAcceleration(sqrt, sources, w[i].Position());
        w[i].(velocity := Some(w[i].velocity.value.Plus(a.Times(delta))))
      else w[i])
  }

  lemma MulPositive(a: real, b: real)
    requires 0.0 < a && 0.0 < b
    ensures 0.0 < a * b
  {
  }

  lemma NonNegativeProduct(a: real, b: real)
    requires 0.0 <= a && 0.0 <= b
    ensures 0.0 <= a * b
  {
  }
}
