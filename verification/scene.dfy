/**
 * The ECS world reduced to plain data: an entity is a record of the optional components
 * and marker flags the game's systems query, and the world is the sequence of entities
 * in query-iteration order. Entity handles are natural numbers.
 */
module Scene {
  import opened Wrappers
  import opened Vectors

  type EntityId = nat

  datatype Entity = Entity(
    id: EntityId,
    translation: Vec3,       // Transform.translation
    velocity: Option<Vec2>,  // Velocity
    mass: Option<real>,      // Mass
    circle: Option<real>,    // Circle { radius }
    sprite: Option<Vec2>,    // the sprite's custom size
    gravitySource: bool,     // GravitySource
    affectedByGravity: bool, // AffectedByGravity
    collision: bool,         // Collision: an entity that collides with colliders
    collider: bool,          // Collider: an entity that can be collided with
    planet: bool,            // Planet
    levelObject: bool)       // LevelObject
  {
    /** The 2D position every system reads: `translation.truncate()`. */
    function Position(): Vec2 { translation.Truncate() }

    /** The same entity with every component the physics systems write put back. */
    function WithMotion(translation': Vec3, velocity': Option<Vec2>): Entity
    {
      this.(translation := translation', velocity := velocity')
    }
  }

  type World = seq<Entity>

  ghost predicate UniqueIds(w: World)
  {
    forall i, j :: 0 <= i < |w| && 0 <= j < |w| && i != j ==> w[i].id != w[j].id
  }

  /** Two worlds hold the same entities, up to where they are and how they move. */
  ghost predicate SameEntities(w: World, w': World)
  {
    && |w'| == |w|
    && forall i :: 0 <= i < |w| ==>
         w'[i].WithMotion(w[i].translation, w[i].velocity) == w[i]
  }

  /** A point mass: where a gravity source is and how heavy it is. */
  datatype Source = Source(position: Vec2, mass: real)

  predicate IsGravitySource(e: Entity)
  {
    e.gravitySource && e.mass.Some?
  }

  /**
   * `ix` lists the positions in `w` of the entities that are gravity sources: each such
   * position exactly once, in increasing order.
   */
  ghost predicate ListsSources(w: World, ix: seq<nat>)
  {
    && (forall k :: 0 <= k < |ix| ==> ix[k] < |w| && IsGravitySource(w[ix[k]]))
    && (forall k, l :: 0 <= k < l < |ix| ==> ix[k] < ix[l])
    && (forall i :: 0 <= i < |w| && IsGravitySource(w[i]) ==> i in ix)
  }

  /** Every index one further on. */
  function Shift(ix: seq<nat>): (r: seq<nat>)
    ensures |r| == |ix| && forall k :: 0 <= k < |ix| ==> r[k] == ix[k] + 1
  {
    seq(|ix|, k requires 0 <= k < |ix| => ix[k] + 1)
  }

  /** The positions of the gravity sources in `w`. */
  function SourceIndices(w: World): (ix: seq<nat>)
    ensures ListsSources(w, ix)
  {
    if |w| == 0 then []
    else
      var rest := SourceIndices(w[1..]);
      var ix := if IsGravitySource(w[0]) then [0] + Shift(rest) else Shift(rest);
      ListsSourcesCons(w, rest, ix);
      ix
  }

  /** Indices of the sources of `w[1..]`, shifted, and `0` in front when `w[0]` is one. */
  lemma ListsSourcesCons(w: World, rest: seq<nat>, ix: seq<nat>)
    requires |w| != 0 && ListsSources(w[1..], rest)
    requires ix == if IsGravitySource(w[0]) then [0] + Shift(rest) else Shift(rest)
    ensures ListsSources(w, ix)
  {
    var h := if IsGravitySource(w[0]) then 1 else 0;
    assert |ix| == h + |rest|;
    assert forall k :: h <= k < |ix| ==> ix[k] == rest[k - h] + 1;
    ConsSound(w, rest, ix, h);
    ConsOrdered(rest, ix, h);
    ConsComplete(w, rest, ix, h);
  }

  lemma ConsSound(w: World, rest: seq<nat>, ix: seq<nat>, h: nat)
    requires |w| != 0 && h <= 1 && (h == 1 <==> IsGravitySource(w[0]))
    requires |ix| == h + |rest| && forall k :: h <= k < |ix| ==> ix[k] == rest[k - h] + 1
    requires h == 1 ==> ix[0] == 0
    requires forall k :: 0 <= k < |rest| ==> rest[k] < |w| - 1 && IsGravitySource(w[1..][rest[k]])
    ensures forall k :: 0 <= k < |ix| ==> ix[k] < |w| && IsGravitySource(w[ix[k]])
  {
    forall k | 0 <= k < |ix| ensures ix[k] < |w| && IsGravitySource(w[ix[k]]) {
      if h <= k {
        assert w[1..][rest[k - h]] == w[ix[k]];
      }
    }
  }

  lemma ConsOrdered(rest: seq<nat>, ix: seq<nat>, h: nat)
    requires |ix| == h + |rest| && forall k :: h <= k < |ix| ==> ix[k] == rest[k - h] + 1
    requires h <= 1 && (h == 1 ==> ix[0] == 0)
    requires forall k, l :: 0 <= k < l < |rest| ==> rest[k] < rest[l]
    ensures forall k, l :: 0 <= k < l < |ix| ==> ix[k] < ix[l]
  {
    forall k, l | 0 <= k < l < |ix| ensures ix[k] < ix[l] {
      if h <= k {
        assert ix[k] == rest[k - h] + 1 && ix[l] == rest[l - h] + 1;
      } else {
        assert ix[l] == rest[l - h] + 1;
      }
    }
  }

  lemma ConsComplete(w: World, rest: seq<nat>, ix: seq<nat>, h: nat)
    requires |w| != 0 && h <= 1 && (h == 1 <==> IsGravitySource(w[0]))
    requires |ix| == h + |rest| && forall k :: h <= k < |ix| ==> ix[k] == rest[k - h] + 1
    requires h == 1 ==> ix[0] == 0
    requires forall i :: 0 <= i < |w| - 1 && IsGravitySource(w[1..][i]) ==> i in rest
    ensures forall i :: 0 <= i < |w| && IsGravitySource(w[i]) ==> i in ix
  {
    forall i | 0 <= i < |w| && IsGravitySource(w[i]) ensures i in ix {
      if 0 < i {
        assert w[1..][i - 1] == w[i];
        var k :| 0 <= k < |rest| && rest[k] == i - 1;
        assert ix[k + h] == i;
      }
    }
  }

  /**
   * The query `(&Transform, &Mass), With<GravitySource>`, in world order.
   * `GravitySourcesInOrder` states the order and multiplicity.
   */
  function GravitySources(w: World): (s: seq<Source>)
    ensures |s| <= |w|
    ensures forall src :: src in s <==>
      exists i :: 0 <= i < |w| && IsGravitySource(w[i])
                  && src == Source(w[i].Position(), w[i].mass.value)
  {
    if |w| == 0 then []
    else
      var rest := GravitySources(w[1..]);
      assert forall i :: 1 <= i < |w| ==> w[1..][i - 1] == w[i];
      if IsGravitySource(w[0]) then [Source(w[0].Position(), w[0].mass.value)] + rest
      else rest
  }

  /**
   * The sources are those of the gravity-source entities, one per entity and in world
   * order: source `k` comes from the `k`-th such entity, so two equal planets give two
   * equal sources.
   */
  lemma {:induction false} GravitySourcesInOrder(w: World)
    ensures var s, ix := GravitySources(w), SourceIndices(w);
      && |s| == |ix|
      && forall k :: 0 <= k < |s| ==> s[k] == Source(w[ix[k]].Position(), w[ix[k]].mass.value)
  {
    if |w| != 0 {
      GravitySourcesInOrder(w[1..]);
      var s, ix := GravitySources(w), SourceIndices(w);
      var rest, rix := GravitySources(w[1..]), SourceIndices(w[1..]);
      var h := if IsGravitySource(w[0]) then 1 else 0;
      assert s == (if h == 1 then [Source(w[0].Position(), w[0].mass.value)] + rest else rest);
      assert ix == (if h == 1 then [0] + Shift(rix) else Shift(rix));
      forall k | h <= k < |s|
        ensures s[k] == Source(w[ix[k]].Position(), w[ix[k]].mass.value)
      {
        assert s[k] == rest[k - h];
        assert ix[k] == rix[k - h] + 1;
        assert w[1..][rix[k - h]] == w[ix[k]];
      }
    }
  }

  /** The sources of two worlds side by side are the sources of each, in order. */
  lemma {:induction false} GravitySourcesAppend(w: World, v: World)
    ensures GravitySources(w + v) == GravitySources(w) + GravitySources(v)
  {
    if |w| != 0 {
      GravitySourcesAppend(w[1..], v);
      var wv := w + v;
      assert wv[1..] == w[1..] + v;
      assert wv[0] == w[0];
      assert GravitySources(wv[1..]) == GravitySources(w[1..]) + GravitySources(v);
      if IsGravitySource(w[0]) {
        var src := Source(w[0].Position(), w[0].mass.value);
        assert GravitySources(wv) == [src] + GravitySources(wv[1..]);
        assert GravitySources(w) == [src] + GravitySources(w[1..]);
        assert [src] + (GravitySources(w[1..]) + GravitySources(v))
            == ([src] + GravitySources(w[1..])) + GravitySources(v);
      } else {
        assert GravitySources(wv) == GravitySources(wv[1..]);
        assert GravitySources(w) == GravitySources(w[1..]);
      }
    } else {
      assert w + v == v;
    }
  }
}
