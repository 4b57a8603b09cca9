/**
 * Two- and three-dimensional vectors over `real`, standing in for glam's `Vec2` and
 * `Vec3` (f32 rounding is not modelled).
 *
 * Square roots cannot be computed over `real`, so every operation that needs a length
 * takes the square-root function as a parameter `sqrt`, constrained by `IsSqrt`.
 */
module Vectors {

  datatype Vec2 = Vec2(x: real, y: real) {

    function Plus(o: Vec2): Vec2 { Vec2(x + o.x, y + o.y) }

    function Minus(o: Vec2): Vec2 { Vec2(x - o.x, y - o.y) }

    function Times(k: real): Vec2 { Vec2(x * k, y * k) }

    function Neg(): Vec2 { Vec2(-x, -y) }

    function Dot(o: Vec2): real { x * o.x + y * o.y }

    /** The z component of the 3D cross product; zero iff the vectors are parallel. */
    function Cross(o: Vec2): real { x * o.y - y * o.x }

    function LengthSquared(): real { x * x + y * y }

    /** glam's `extend`. */
    function Extend(z: real): Vec3 { Vec3(x, y, z) }
  }

  datatype Vec3 = Vec3(x: real, y: real, z: real) {

    function Plus(o: Vec3): Vec3 { Vec3(x + o.x, y + o.y, z + o.z) }

    /** glam's `truncate`: drops z. */
    function Truncate(): Vec2 { Vec2(x, y) }
  }

  const Zero: Vec2 := Vec2(0.0, 0.0)

  /**
   * `sqrt` is the non-negative square root on the non-negative reals. The facts are
   * reached through `SqrtAt`, so a proof sees them only at the points it names.
   */
  ghost predicate IsSqrt(sqrt: real -> real)
  {
    forall a: real :: SqrtAt(sqrt, a)
  }

  /**
   * What `sqrt` promises at `a`; the sign facts in the last two lines follow from the
   * first two and are stated for the solver's convenience.
   */
  ghost predicate SqrtAt(sqrt: real -> real, a: real)
  {
    0.0 <= a ==>
      && 0.0 <= sqrt(a)
      && sqrt(a) * sqrt(a) == a
      && (0.0 < a ==> 0.0 < sqrt(a))
      && (a == 0.0 ==> sqrt(a) == 0.0)
  }

  lemma SquareNonNegative(a: real)
    ensures 0.0 <= a * a
    ensures a != 0.0 ==> 0.0 < a * a
  {
    if a < 0.0 {
      assert a * a == (-a) * (-a);
    }
  }

  lemma SumOfSquaresPositive(a: real, b: real)
    requires a != 0.0 || b != 0.0
    ensures 0.0 < a * a + b * b
  {
    SquareNonNegative(a);
    SquareNonNegative(b);
  }

  /** A vector has a direction exactly when its squared length is positive. */
  lemma LengthSquaredSign(v: Vec2)
    ensures 0.0 <= v.LengthSquared()
    ensures v != Zero <==> 0.0 < v.LengthSquared()
  {
    SquareNonNegative(v.x);
    SquareNonNegative(v.y);
    if v == Zero {
      assert v.LengthSquared() == 0.0;
    } else {
      calc {
        v.LengthSquared();
        v.x * v.x + v.y * v.y;
      > { SumOfSquaresPositive(v.x, v.y); }
        0.0;
      }
    }
  }

  /**
   * glam's `length`. That it squares to `LengthSquared` is kept in `LengthSquares`, out
   * of this contract, so that callers that do not need it do not carry it.
   */
  function Length(sqrt: real -> real, v: Vec2): (r: real)
    requires IsSqrt(sqrt)
    ensures 0.0 <= r
    ensures v != Zero <==> 0.0 < r
  {
    LengthSquaredSign(v);
    assert SqrtAt(sqrt, v.LengthSquared());
    var r := sqrt(v.LengthSquared());
    assert v == Zero ==> v.LengthSquared() == 0.0;
    r
  }

  lemma LengthSquares(sqrt: real -> real, v: Vec2)
    requires IsSqrt(sqrt)
    ensures Length(sqrt, v) * Length(sqrt, v) == v.LengthSquared()
  {
    LengthSquaredSign(v);
    assert SqrtAt(sqrt, v.LengthSquared());
  }

  /**
   * glam's `normalize_or_zero`: the unit vector along `v`, or the zero vector when
   * `v` has no direction (glam returns zero when the reciprocal length is not finite).
   */
  function NormalizeOrZero(sqrt: real -> real, v: Vec2): (n: Vec2)
    requires IsSqrt(sqrt)
    ensures v == Zero ==> n == Zero
    ensures v != Zero ==> n.LengthSquared() == 1.0
    ensures v != Zero ==> n.Cross(v) == 0.0 && 0.0 < n.Dot(v)
  {
    var len := Length(sqrt, v);
    if len == 0.0 then Zero
    else
      LengthSquares(sqrt, v);
      UnitScale(v, len);
      v.Times(1.0 / len)
  }

  lemma UnitScale(v: Vec2, len: real)
    requires 0.0 < len && len * len == v.LengthSquared()
    ensures v.Times(1.0 / len).LengthSquared() == 1.0
    ensures v.Times(1.0 / len).Cross(v) == 0.0
    ensures 0.0 < v.Times(1.0 / len).Dot(v)
  {
    var k := 1.0 / len;
    var n := v.Times(k);
    assert k * len == 1.0;
    calc {
      n.LengthSquared();
      v.x * k * (v.x * k) + v.y * k * (v.y * k);
      (v.x * v.x + v.y * v.y) * (k * k);
      (len * len) * (k * k);
      (len * k) * (len * k);
      1.0;
    }
    assert n.Dot(v) == v.LengthSquared() * k;
    assert 0.0 < k;
    assert 0.0 < v.LengthSquared();
  }

  /** The running sum `v0 + v1 + ... + vn`, added left to right as a loop would. */
  function Sum(vs: seq<Vec2>): Vec2
  {
    if |vs| == 0 then Zero else Sum(vs[..|vs| - 1]).Plus(vs[|vs| - 1])
  }

  lemma {:induction false} SumAppend(s: seq<Vec2>, t: seq<Vec2>)
    ensures Sum(s + t) == Sum(s).Plus(Sum(t))
    decreases |t|
  {
    if |t| == 0 {
      assert s + t == s;
    } else {
      var t' := t[..|t| - 1];
      assert (s + t)[..|s + t| - 1] == s + t';
      assert (s + t)[|s + t| - 1] == t[|t| - 1];
      SumAppend(s, t');
    }
  }

  /** Taking one term out of a sum and adding it last gives the same sum. */
  lemma SumRemove(t: seq<Vec2>, j: nat)
    requires j < |t|
    ensures Sum(t) == Sum(t[..j] + t[j + 1..]).Plus(t[j])
  {
    var a, b := t[..j], t[j + 1..];
    SplitAround(t, j);
    SumSnoc(a, t[j]);
    SumAppend(a + [t[j]], b);
    SumAppend(a, b);
    PlusSwap(Sum(a), t[j], Sum(b));
  }

  lemma SumSnoc(a: seq<Vec2>, x: Vec2)
    ensures Sum(a + [x]) == Sum(a).Plus(x)
  {
    assert (a + [x])[..|a|] == a;
  }

  lemma SplitAround<T>(t: seq<T>, j: nat)
    requires j < |t|
    ensures t == (t[..j] + [t[j]]) + t[j + 1..]
  {
    assert t == t[..j + 1] + t[j + 1..];
    assert t[..j + 1] == t[..j] + [t[j]];
  }

  lemma PlusSwap(x: Vec2, u: Vec2, y: Vec2)
    ensures x.Plus(u).Plus(y) == x.Plus(y).Plus(u)
  {
  }

  /** The zero vector stays put under scaling. */
  lemma ZeroScaled(k: real)
    ensures Zero.Times(k) == Zero
  {
  }

  /** Moving by a vector scaled to nothing stays put. */
  lemma NoMove(p: Vec2, v: Vec2, t: real)
    requires t == 0.0
    ensures p.Plus(v.Times(t)) == p
  {
  }

  /** Moving for `t1` and then for `t2` is moving for `t1 + t2`. */
  lemma MovesAdd(p: Vec2, v: Vec2, t1: real, t2: real)
    ensures p.Plus(v.Times(t1)).Plus(v.Times(t2)) == p.Plus(v.Times(t1 + t2))
  {
    assert v.x * t1 + v.x * t2 == v.x * (t1 + t2);
    assert v.y * t1 + v.y * t2 == v.y * (t1 + t2);
  }

  /** Scaling distributes over a sum of vectors. */
  lemma ScaleDistributes(v: Vec2, a: Vec2, c: Vec2, k: real)
    ensures v.Plus(a.Times(k)).Plus(c.Times(k)) == v.Plus(a.Plus(c).Times(k))
  {
    assert a.x * k + c.x * k == (a.x + c.x) * k;
    assert a.y * k + c.y * k == (a.y + c.y) * k;
  }

  /** Scaling a vector by `k` scales its squared length by `k²`. */
  lemma ScaledLengthSquared(v: Vec2, k: real)
    ensures v.Times(k).LengthSquared() == (k * k) * v.LengthSquared()
  {
    calc {
      v.Times(k).LengthSquared();
      (v.x * k) * (v.x * k) + (v.y * k) * (v.y * k);
      (k * k) * (v.x * v.x) + (k * k) * (v.y * v.y);
      (k * k) * v.LengthSquared();
    }
  }

  lemma MultisetRemove<T>(t: seq<T>, j: nat)
    requires j < |t|
    ensures multiset(t[..j] + t[j + 1..]) == multiset(t) - multiset{t[j]}
  {
    assert t == t[..j] + [t[j]] + t[j + 1..];
  }


}
