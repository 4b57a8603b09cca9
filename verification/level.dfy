/**
 * Loading a level into the world. A level entity goes from waiting for its asset, to
 * `LevelAssetLoaded` once the asset is available and its planets are spawned, to
 * `LevelDoneLoading` once every spawned object is present in the world.
 *
 * Commands are applied before the next system looks at the world, so each system is a
 * function from one state to the next. New entity handles come from a counter `nextId`
 * that stands for the allocator behind `Commands::spawn`.
 */
module Levels {
  import opened Wrappers
  import opened Vectors
  import opened Scene
  import opened Planet
  import opened LevelLoader

  type AssetId = nat

  /**
   * A `Level` entity: the handle of its asset, the entities spawned for it, and its two
   * marker components.
   */
  datatype Level = Level(asset: AssetId, objects: seq<EntityId>, assetLoaded: bool, doneLoading: bool)

  /** A level, the world it loads into, and the next free entity handle. */
  datatype LoadState = LoadState(level: Level, world: World, nextId: nat)

  /** Every handle in the world is below `nextId`, so handles from `nextId` on are fresh. */
  predicate Fresh(s: LoadState)
  {
    forall i :: 0 <= i < |s.world| ==> s.world[i].id < s.nextId
  }

  /** `spawn_object`: a planet that is also marked as a level object. */
  function SpawnObject(id: EntityId, obj: LevelAssetObject): (e: Entity)
    ensures e.id == id && e.levelObject && e.planet && IsGravitySource(e)
    ensures e.Position() == obj.position && e.circle == Some(obj.radius)
    ensures e.mass == Some(Cube(obj.radius))
  {
    PlanetBundle(id, obj.radius, obj.position).(levelObject := true)
  }

  /**
   * `spawn_level_objects`: one entity per asset object, in asset order, with the
   * handles `nextId`, `nextId + 1`, ….
   */
  function SpawnLevelObjects(asset: LevelAsset, nextId: nat): (es: seq<Entity>)
    ensures |es| == |asset.objects|
    ensures forall i :: 0 <= i < |es| ==>
      es[i].id == nextId + i && es[i] == SpawnObject(nextId + i, asset.objects[i])
  {
    seq(|asset.objects|, i requires 0 <= i < |asset.objects| => SpawnObject(nextId + i, asset.objects[i]))
  }

  function Ids(es: seq<Entity>): (ids: seq<EntityId>)
    ensures |ids| == |es| && forall i :: 0 <= i < |es| ==> ids[i] == es[i].id
  {
    seq(|es|, i requires 0 <= i < |es| => es[i].id)
  }

  /**
   * `spawn_entities`: a level that is not yet marked loaded and whose asset is
   * available gets its objects spawned and recorded, and is marked loaded; any other
   * level and world are left alone.
   */
  function SpawnEntities(s: LoadState, assets: map<AssetId, LevelAsset>): (s': LoadState)
    ensures s.level.assetLoaded || s.level.asset !in assets ==> s' == s
    ensures !s.level.assetLoaded && s.level.asset in assets ==>
      var spawned := SpawnLevelObjects(assets[s.level.asset], s.nextId);
      && s'.level == s.level.(assetLoaded := true, objects := Ids(spawned))
      && s'.world == s.world + spawned
      && s'.nextId == s.nextId + |spawned|
  {
    if s.level.assetLoaded || s.level.asset !in assets then s
    else
      var spawned := SpawnLevelObjects(assets[s.level.asset], s.nextId);
      LoadState(s.level.(assetLoaded := true, objects := Ids(spawned)), s.world + spawned, s.nextId + |spawned|)
  }

  /** The entity with handle `id` exists and carries `LevelObject`: `level_objects.get(id).is_ok()`. */
  predicate IsLevelObject(w: World, id: EntityId)
  {
    exists i :: 0 <= i < |w| && w[i].id == id && w[i].levelObject
  }

  /** Why `listen_for_level_loading` stops: the level's asset is gone, so `unwrap` panics. */
  datatype ListenError = AssetMissing

  /**
   * `listen_for_level_loading`: a level marked loaded but not done is marked done once
   * it has as many objects as its asset and every one of them is a level object in the
   * world. The asset of such a level must still be available.
   */
  function ListenForLevelLoading(s: LoadState, assets: map<AssetId, LevelAsset>): (r: Result<LoadState, ListenError>)
    ensures !s.level.assetLoaded || s.level.doneLoading ==> r == Ok(s)
    ensures s.level.assetLoaded && !s.level.doneLoading ==> (r.Err? <==> s.level.asset !in assets)
    ensures r.Ok? ==> (r.value.world == s.world && r.value.nextId == s.nextId
      && r.value.level == s.level.(doneLoading := r.value.level.doneLoading))
    ensures r.Ok? && r.value.level.doneLoading && !s.level.doneLoading ==>
      && s.level.assetLoaded
      && |s.level.objects| == |assets[s.level.asset].objects|
      && forall k :: 0 <= k < |s.level.objects| ==> IsLevelObject(s.world, s.level.objects[k])
    ensures s.level.assetLoaded && !s.level.doneLoading && s.level.asset in assets
      && |s.level.objects| == |assets[s.level.asset].objects|
      && (forall k :: 0 <= k < |s.level.objects| ==> IsLevelObject(s.world, s.level.objects[k]))
      ==> r.Ok? && r.value.level.doneLoading
  {
    if !s.level.assetLoaded || s.level.doneLoading then Ok(s)
    else if s.level.asset !in assets then Err(AssetMissing)
    else
      var count := |assets[s.level.asset].objects|;
      if |s.level.objects| == count
         && forall k :: 0 <= k < |s.level.objects| ==> IsLevelObject(s.world, s.level.objects[k])
      then Ok(s.(level := s.level.(doneLoading := true)))
      else Ok(s)
  }

  /** A level is only ever done after it was loaded. */
  predicate DoneImpliesLoaded(s: LoadState)
  {
    s.level.doneLoading ==> s.level.assetLoaded
  }

  /** Both systems keep `DoneImpliesLoaded` and the freshness of `nextId`. */
  lemma SystemsKeepInvariants(s: LoadState, assets: map<AssetId, LevelAsset>)
    requires DoneImpliesLoaded(s) && Fresh(s)
    ensures DoneImpliesLoaded(SpawnEntities(s, assets)) && Fresh(SpawnEntities(s, assets))
    ensures ListenForLevelLoading(s, assets).Ok? ==>
      DoneImpliesLoaded(ListenForLevelLoading(s, assets).value) && Fresh(ListenForLevelLoading(s, assets).value)
  {
  }

  /** Spawning keeps handles unique: the new handles are fresh and distinct. */
  lemma SpawnKeepsIdsUnique(s: LoadState, assets: map<AssetId, LevelAsset>)
    requires Fresh(s) && UniqueIds(s.world)
    ensures UniqueIds(SpawnEntities(s, assets).world)
  {
  }

  /** Spawning a second time does nothing: the level is already marked loaded. */
  lemma SpawnIdempotent(s: LoadState, assets: map<AssetId, LevelAsset>)
    ensures SpawnEntities(SpawnEntities(s, assets), assets) == SpawnEntities(s, assets)
  {
  }

  /**
   * Once its asset is available, a waiting level is fully loaded after one round of
   * both systems: spawning, then listening, marks it done.
   */
  lemma {:induction false} SpawnThenListenIsDone(s: LoadState, assets: map<AssetId, LevelAsset>)
    requires !s.level.assetLoaded && !s.level.doneLoading && s.level.asset in assets
    ensures var r := ListenForLevelLoading(SpawnEntities(s, assets), assets);
      r.Ok? && r.value.level.assetLoaded && r.value.level.doneLoading
  {
    var s' := SpawnEntities(s, assets);
    var spawned := SpawnLevelObjects(assets[s.level.asset], s.nextId);
    forall k | 0 <= k < |s'.level.objects|
      ensures IsLevelObject(s'.world, s'.level.objects[k])
    {
      assert s'.world[|s.world| + k] == spawned[k];
    }
  }

  /**
   * The planets a level spawns become the world's newest gravity sources: one per
   * asset object, in asset order, at the object's position with mass `radius³`.
   */
  lemma {:induction false} SpawnedPlanetsAttract(s: LoadState, assets: map<AssetId, LevelAsset>)
    requires !s.level.assetLoaded && s.level.asset in assets
    ensures var objects := assets[s.level.asset].objects;
      GravitySources(SpawnEntities(s, assets).world)
      == GravitySources(s.world)
         + seq(|objects|, i requires 0 <= i < |objects| =>
             Source(objects[i].position, Cube(objects[i].radius)))
  {
    var objects := assets[s.level.asset].objects;
    var spawned := SpawnLevelObjects(assets[s.level.asset], s.nextId);
    GravitySourcesAppend(s.world, spawned);
    var ids := seq(|objects|, i requires 0 <= i < |objects| => s.nextId + i);
    var radii := seq(|objects|, i requires 0 <= i < |objects| => objects[i].radius);
    var positions := seq(|objects|, i requires 0 <= i < |objects| => objects[i].position);
    PlanetsAreSources(ids, radii, positions);
    var planets := seq(|ids|, i requires 0 <= i < |ids| => PlanetBundle(ids[i], radii[i], positions[i]));
    LevelObjectFlagIgnored(spawned, planets);
  }

  /** Marking entities as level objects does not change which of them are gravity sources. */
  lemma {:induction false} LevelObjectFlagIgnored(marked: seq<Entity>, plain: seq<Entity>)
    requires |marked| == |plain|
    requires forall i :: 0 <= i < |marked| ==> marked[i] == plain[i].(levelObject := true)
    ensures GravitySources(marked) == GravitySources(plain)
  {
    if |marked| != 0 {
      LevelObjectFlagIgnored(marked[1..], plain[1..]);
    }
  }
}
