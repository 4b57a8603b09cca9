# space-game core in Dafny

This project models the deterministic rules of `space-game`, a small 2D Bevy game. A ship and a
walking player move among planets that pull on them with inverse-square gravity and stop them
with circle collisions. Levels are loaded from text files of `Planet x y r` lines.

The model covers:

- the gravity kernel, the summed field and the `gravity_system` velocity update;
- the `velocity_system` position update and the order of one fixed physics tick;
- circle collision detection and resolution;
- the trajectory predictor and the polyline built from it;
- the time scale, the fixed-step period it implies and its on-screen label;
- arrow-key and number-key input;
- the ship's thrust, turning and sky colour;
- the player's choice of the strongest gravity source;
- planets;
- the level text parser and the level-loading state machine.

Quantities are real numbers, not `f32`. The ECS world is a sequence of entity records in query
order, and every system is a pure function from one world to the next. Functions the game takes
from its libraries are parameters constrained by a predicate:

- `sqrt` must satisfy `Vectors.IsSqrt`;
- `f32::parse` is a partial function `parseNumber`;
- `f32::to_string` is a function `format`.

The modules follow the source files:

| module | source |
|---|---|
| `Vectors` | glam's `Vec2`/`Vec3` |
| `Scene` | the entity record |
| `Gravity` | `src/physics/gravity.rs` |
| `Physics` | `src/physics.rs` |
| `Collision` | `src/physics/collision.rs` |
| `Prediction` | `src/physics_prediction.rs` |
| `Time` | `src/time.rs` |
| `Input` | the input helpers of `src/lib.rs` |
| `Ship` | `src/ship.rs` |
| `Player` | `src/player.rs` |
| `Planet` | `src/planet.rs` |
| `Strings` | the `str` methods the loader uses |
| `LevelLoader` | `src/level/loader.rs` |
| `Levels` | `src/level.rs` |

Three points about the code that shape the model:

- The level parser is the strict one in `src/level/loader.rs`. One bad line, including a blank
  line, fails the whole level. No line is skipped.
- The ship has no `Circle`, so it collides as a point. The player is a second body that is
  affected by gravity and collides, with radius 0.5.
- Resolution does not bounce. It only removes the velocity component pointing into the collider,
  and it places the body on the collider's surface along the event's normal. After a tick, a body
  touching two colliders can still overlap the one resolved first. The model states what
  resolution does, not a global no-overlap invariant.

## Model

| member | source | states |
|---|---|---|
| Vectors.Length | src/physics/gravity.rs:40 | glam's `length`: non-negative, and positive exactly for a non-zero vector |
| Vectors.NormalizeOrZero | src/physics/collision.rs:60 | zero for the zero vector; otherwise a unit vector parallel to the input and pointing the same way |
| Scene.GravitySources | src/physics/gravity.rs:14 | the gravity-source query: a source is listed exactly when some entity carries `GravitySource` and a mass at that position |
| Scene.SourceIndices | src/physics/gravity.rs:14 | the entities the query matches: every entity with `GravitySource` and a mass, each exactly once, in increasing world position |
| Scene.GravitySourcesInOrder | src/physics/gravity.rs:14 | the query yields one source per matched entity, in world order, with that entity's position and mass, so equal planets each contribute |
| Gravity.GravityAcceleration | src/physics/gravity.rs:39-46 | the kernel is `Err` exactly when the relative position is zero; otherwise it is `0.5·r·m/d³` with `d` the length of `r` |
| Gravity.KernelIsInverseSquare | src/physics/gravity.rs:45 | away from the source, the acceleration is parallel to `r` and points toward the source for `m >= 0`; its squared length times `|r|⁴` is `m²/4` |
| Gravity.KernelZeroMass | src/physics/gravity.rs:45 | a massless source gives the zero vector at every non-coincident point |
| Gravity.KernelLinearInMass | src/physics/gravity.rs:45 | the kernel is additive in mass and scales with it |
| Gravity.TotalStep | src/physics/gravity.rs:28-36 | each loop iteration adds the current source's `Ok` value, or nothing |
| Gravity.TotalIsSum | src/physics/gravity.rs:24-37 | the total acceleration is the sum of the per-source contributions, with coincident sources contributing zero |
| Gravity.TotalAppend | src/physics/gravity.rs:28-36 | the field of two groups of sources is the sum of their fields |
| Gravity.TotalOrderIndependent | src/physics/gravity.rs:29-35 | two source lists holding the same multiset give the same total, whatever the query order |
| Gravity.TotalIgnoresCoincident | src/physics/gravity.rs:31-34 | removing every source that sits on the test point leaves the total unchanged |
| Gravity.GravitySystem | src/physics/gravity.rs:11-22 | affected entities gain `total acceleration · delta` in velocity; positions, all other entities and all other components are unchanged |
| Physics.VelocitySystem | src/physics.rs:34-43 | every entity with a velocity moves by `velocity · delta` in the plane, keeping z and its velocity; entities without a velocity are unchanged |
| Physics.VelocityCompose | src/physics.rs:41 | two velocity steps of `d1` and `d2` equal one step of `d1 + d2` |
| Physics.VelocityZeroStep | src/physics.rs:41 | a zero delta leaves the world unchanged |
| Physics.Tick | src/physics.rs:15-19 | one fixed tick runs gravity, then velocity, then detection, then resolution; it keeps the set of entities and their non-motion components |
| Physics.MotionStep | src/physics.rs:15-19 | for an affected entity, gravity then velocity gives `v' = v + a·delta` and a position step with the new velocity `v'` |
| Physics.TickIsSemiImplicitEuler | src/physics.rs:15-19 | an affected entity that no collision event names ends the tick with the semi-implicit Euler update of `MotionStep` |
| Physics.TickUnnamed | src/physics/collision.rs:82-96 | an entity that no event names leaves the tick as the motion systems left it |
| Physics.StillEntitiesStayUnlessPushed | src/physics.rs:34-43 | an entity without a velocity that no event names does not change in a tick |
| Collision.MakeEvent | src/physics/collision.rs:59-69 | the event names both entities; the contact point is `k + n·r_k`; `n` is zero for coincident centres, and otherwise a unit vector pointing from the collider to the body |
| Collision.EventsOf | src/physics/collision.rs:46-71 | the inner loop emits an event exactly for each collider that touches the body |
| Collision.DetectAmong | src/physics/collision.rs:45-72 | both loops emit an event exactly for each touching pair |
| Collision.Detect | src/physics/collision.rs:40-73 | an event is emitted exactly for each pair of distinct entities, one with `Collision` and one a `Collider` with a circle, whose squared centre distance is at most `(r_c + r_k)²`; a missing circle counts as radius 0 |
| Collision.DetectedEventsResolvable | src/physics/collision.rs:82-84 | every detected event names an entity with `Collision`, so the `unwrap` cannot fail |
| Collision.ResolvedPosition | src/physics/collision.rs:86-89 | the body is placed at `point + n·radius` with z = 0, and only position and velocity change; a velocity is never added or removed |
| Collision.ResolvedVelocity | src/physics/collision.rs:91-95 | with a unit normal, the new normal component is `max(v·n, 0)`, the tangential component is kept, and a velocity already leaving the collider is unchanged |
| Collision.ZeroNormalKeepsVelocity | src/physics/collision.rs:89-95 | a zero normal keeps the velocity and puts the body at the contact point |
| Collision.ResolvedOnSurface | src/physics/collision.rs:59-89 | after resolving a detected contact, the body's centre is exactly `r_k + r_c` from the collider's centre, on the side it came from |
| Collision.ResolveOne | src/physics/collision.rs:82-96 | one event changes only the named collision entity |
| Collision.Resolve | src/physics/collision.rs:75-97 | applying the events in order keeps the entities, and every entity that no event names is unchanged |
| Collision.LastEventPlaces | src/physics/collision.rs:82-96 | positions are overwritten: a body ends where the last event naming it put it |
| Prediction.ApplySourcesIsTotal | src/physics_prediction.rs:84-91 | adding each `Ok` contribution times `DELTA` in turn equals adding the summed field times `DELTA` |
| Prediction.GeneratePath | src/physics_prediction.rs:55-71 | the path has exactly 1000 points; point 0 is the ship's position; point i is the state after i rounds of 10 sub-steps |
| Prediction.FreeFlightIsStraight | src/physics_prediction.rs:73-97 | without sources, point i is `p0 + v0 · (10·i/60)` and the velocity is unchanged |
| Prediction.SubStepMatchesPhysics | src/physics_prediction.rs:84-94 | one prediction sub-step equals one gravity-then-velocity step of the world with delta 1/60 for an affected body |
| Prediction.MeshVertices | src/physics_prediction.rs:99-108 | there is one vertex per path point; each vertex is `path[i] − path[0]` with z = 0 |
| Prediction.PredictionDisplay | src/physics_prediction.rs:40-53 | the mesh is anchored at the ship and has 1000 vertices with vertex 0 at the origin; anchor plus vertex i is path point i |
| Time.Delta | src/time.rs:22-28 | `scale · step`: non-negative for non-negative inputs, and the base period at scale 1 |
| Time.FixedPeriod | src/time.rs:127 | the period is positive and at most 1/60, and exactly 1/60 when the scale is at most 1 |
| Time.FixedStepDelta | src/time.rs:127-128 | the simulated time per fixed step is 1/60 for scale ≥ 1 and `scale/60` below that, so never more than 1/60 |
| Time.ChangeFixedTimeStep | src/time.rs:119-129 | the period is recomputed only in frames where the scale changed |
| Time.ChangeFixedTimeStepIdempotent | src/time.rs:119-129 | running the period update twice with the same scale changes nothing the second time |
| Time.FindFraction | src/time.rs:98-101 | the label of the first table entry within 0.01 of the number, and none exactly when no entry is that close |
| Time.FractionsLabelThemselves | src/time.rs:86-103 | each of the ten listed fractions is shown with its own label |
| Time.FarNumbersUseFormat | src/time.rs:102 | a number far from every listed fraction is shown with the number's own formatting |
| Time.UiText | src/time.rs:79-82 | the text starts with `"Time Scale: "`, and a scale far from every listed fraction is shown in its own formatting after it |
| Time.UiTextShowsLabel | src/time.rs:79-103 | a listed scale is shown as the prefix followed by its own label |
| Time.TimeScaleUi | src/time.rs:105-115 | the text is kept in frames where the scale did not change; otherwise it becomes the prefix and the label of the scale |
| Input.InputDir | src/lib.rs:45-60 | the direction is zero exactly when both pairs of opposite arrow keys cancel; otherwise it is a unit vector along the keys' sum |
| Input.GetMinNumberPressed | src/lib.rs:75-97 | returns `i + 1` for the lowest number index whose digit or keypad key was just pressed, in 1..10 with 0 as 10, and none when no number key was just pressed |
| Input.SetTimeScale | src/lib.rs:68-72 | without a number key the scale is unchanged; otherwise it is `2^(n−5)` for the lowest pressed n, which is a listed fraction shown by its label |
| Input.LadderIsFractions | src/lib.rs:70 | the scale of the k-th number key is the k-th listed fraction, from 1/16 to 32 |
| Ship.ShipIsPointBody | src/ship.rs:34-63 | the ship has no circle, so it touches a collider exactly when its centre lies within the collider's disc; it is affected by gravity and is not a source |
| Ship.Thrust | src/ship.rs:90-94 | fuel becomes `max(fuel − delta, 0)`; the velocity gains `right · burnt · 100`; the capacity is unchanged |
| Ship.ThrustFramesFuel | src/ship.rs:91-92 | over any run of frames the tank holds `max(fuel − total time, 0)`, so it never goes negative and never grows |
| Ship.ThrustFramesGain | src/ship.rs:93 | over any run of frames the velocity gained is `right · 100` times the fuel burnt, so there is no thrust on an empty tank |
| Ship.RemEuclid | src/ship.rs:110 | the remainder is in `[0, m)` and differs from x by a whole multiple of m |
| Ship.WrapAngle | src/ship.rs:110-113 | the wrapped difference is in `(−π, π]` and differs from the raw one by whole turns |
| Ship.WrapAngleCanonical | src/ship.rs:110-113 | wrapping depends only on the angle modulo a full turn and fixes angles already in `(−π, π]` |
| Ship.MoveAngleTowardsProgress | src/ship.rs:107-119 | if the shorter-way difference is below the step, the result is the target; otherwise it turns by exactly `step` toward the target, and the remaining difference keeps its sign and shrinks by `step` |
| Ship.ShipControl | src/ship.rs:77-105 | with Alt held nothing changes; Space applies `Thrust`; a non-zero direction turns by `move_angle_towards` with step `3·delta` and stores the angle in `[0, TAU)`; without a direction the angle is kept |
| Ship.SkyBlend | src/ship.rs:156 | t lies in [0, 1]; it is `distance/radius + 0.05` whenever that lies in [0, 1], 0 below and 1 above; it is 1 for a zero radius, at least 0.05 outside a planet, and 1 exactly when `distance/radius >= 0.95` |
| Ship.SkyBlendMonotone | src/ship.rs:156 | the blend never decreases with distance |
| Ship.SkyColor | src/ship.rs:152-159 | a zero radius gives the deep-space colour |
| Ship.PlanetViews | src/ship.rs:123 | the planet query sees exactly the entities that are planets and have a circle |
| Ship.Nearest | src/ship.rs:129-140 | `min_by` returns the first planet with the smallest squared distance, and none without planets |
| Ship.SurfaceDistance | src/ship.rs:129-147 | the surface distance is non-negative; it is `(1, 1)` without planets, and otherwise uses the nearest planet's radius |
| Ship.SurfaceDistanceSquare | src/ship.rs:141-144 | the squared surface distance is `max(d² − r², 0)` for the nearest planet |
| Ship.SkyAt | src/ship.rs:121-150 | without planets the sky is the deep-space colour |
| Player.PlayerEntity | src/player.rs:23-41 | the player is affected by gravity and collides with radius 0.5 and mass 0.1; it is not a collider and not a source |
| Player.Strongest | src/player.rs:74-82 | none exactly when every source sits on the point; otherwise it picks a non-coincident source of maximal squared pull that beats every later one strictly, since `max_by` keeps the last of equal maxima |
| Player.StrongestAffector | src/player.rs:70-84 | none exactly when there are no sources or all sit on the point; otherwise it is the non-zero vector `position - point` of the source `Strongest` picks, the one pulling hardest |
| Player.StrengthIsInverseSquare | src/player.rs:76-79 | the squared pull that `strongest_affector` compares, times `|r|⁴`, is `m²/4` |
| Player.StrongerIsNearer | src/player.rs:76-82 | between sources of equal non-zero mass, the one pulling at least as hard is the one at most as far away |
| Player.Orient | src/player.rs:55-68 | without a strongest source the rotation is kept; otherwise it is a unit rotation whose feet axis points along the direction to that source |
| Planet.PlanetBundle | src/planet.rs:26-44 | a planet is a gravity source of mass r³ and a collider circle of radius r at `(x, y, 0)`, drawn 2r wide, with no velocity |
| Planet.PlanetsAreSources | src/planet.rs:38-40 | a world of planets has one gravity source per planet, in order, at its centre and with mass r³ |
| Planet.PlanetPull | src/planet.rs:38 | a planet's pull on an outside point has the inverse-square magnitude of mass r³ |
| Strings.Split | src/level/loader.rs:46 | `split(' ')` yields at least one piece, no piece contains the separator, and joining the pieces gives the string back |
| Strings.SplitJoin | src/level/loader.rs:46 | splitting a join of separator-free pieces gives the pieces back |
| Strings.SplitTerminator | src/level/loader.rs:33 | the lines contain no newline, and empty text has no lines |
| Strings.SplitTerminatorTerminated | src/level/loader.rs:33 | cutting newline-terminated lines back into lines gives them back |
| Strings.Trim | src/level/loader.rs:41 | the trimmed line neither starts nor ends with whitespace |
| Strings.TrimRemovesOnlyWhitespace | src/level/loader.rs:41 | `trim` keeps a contiguous middle of the line and removes only whitespace |
| LevelLoader.ParseLine | src/level/loader.rs:40-58 | a line whose trim does not start with `"Planet "`, or does not split on single spaces into exactly 4 parts, is `InvalidLine`; otherwise the line succeeds exactly when all three fields parse, giving the planet at (x, y) with that radius, and fails with the first field that does not parse |
| LevelLoader.ParseFields | src/level/loader.rs:51-57 | x, y and radius parsed in order: all three numbers give the planet, and an error names the first field that is not a number |
| LevelLoader.ParseLevel | src/level/loader.rs:31-38 | the level parses exactly when every line parses |
| LevelLoader.ParseLevelObjects | src/level/loader.rs:31-38 | a parsed level has one object per line, in line order |
| LevelLoader.ParseLevelFirstError | src/level/loader.rs:32-35 | a failing level reports the error of its first bad line |
| LevelLoader.Collect | src/level/loader.rs:35 | `collect::<Result<Vec>>` is `Ok` exactly when every element is, holds the values in order, and otherwise holds the first error |
| LevelLoader.ParseFormatLine | src/level/loader.rs:40-58 | parsing the written line `Planet x y r` gives the object back when each number formats cleanly |
| LevelLoader.ParseFormatLevel | src/level/loader.rs:31-38 | parsing a written level gives its object list back |
| LevelLoader.BlankLineRejected | src/level/loader.rs:41-44 | a blank or all-whitespace line is `InvalidLine` |
| LevelLoader.BlankLineRejectsLevel | src/level/loader.rs:32-35 | one blank line fails the whole level |
| LevelLoader.DoubleSpaceRejected | src/level/loader.rs:46-49 | a doubled space between fields gives five parts and so `InvalidLine` |
| Levels.SpawnObject | src/level.rs:72-84 | an asset planet becomes a planet entity with that position, a circle of that radius and mass r³, marked `LevelObject` |
| Levels.SpawnLevelObjects | src/level.rs:60-70 | one entity per asset object, in asset order, with consecutive handles starting at the next free one |
| Levels.SpawnEntities | src/level.rs:44-58 | only a level not yet loaded whose asset is available is changed: its objects are spawned and recorded, and it is marked loaded |
| Levels.ListenForLevelLoading | src/level.rs:86-103 | the `unwrap` fails exactly when a loaded, not-done level has lost its asset; done is set exactly when the object count matches the asset and every object is a level object in the world; nothing else changes |
| Levels.SystemsKeepInvariants | src/level.rs:44-103 | both systems keep "done implies loaded" and keep entity handles below the next free one |
| Levels.SpawnKeepsIdsUnique | src/level.rs:44-58 | spawning keeps entity handles unique |
| Levels.SpawnIdempotent | src/level.rs:45 | a second spawn pass changes nothing, because the level is already marked loaded |
| Levels.SpawnThenListenIsDone | src/level.rs:44-103 | once the asset is available, one spawn pass followed by one listen pass marks the level done |
| Levels.SpawnedPlanetsAttract | src/level.rs:72-84 | the planets a level spawns are appended to the world's gravity sources, one per asset object, in order, each with mass r³ |

## Left out

- f32 rounding, NaN, infinities and `partial_cmp`: all quantities are exact reals. The one place where the source relies on an f32 infinity, `distance / 0.0` in the sky blend, is modelled explicitly.
- `sqrt`, `length`, `atan2`, `to_axis_angle`, `Quat::from_rotation_z` and `to_radians`: `sqrt` is a parameter. The ship's turn takes the target angle as an input. The player's rotation is a unit vector `(cos θ, sin θ)`, and the ship's `transform.right()` is an input.
- Bevy's scheduler, `Commands`, queries, events, plugins and `par_iter_mut`: systems are pure functions applied one after another, and commands take effect before the next system runs. Entity handles come from a counter.
- The fixed-step accumulator, and the nanosecond rounding of `Duration::from_secs_f64` in `change_fixed_time_step`.
- The f64-to-f32 narrowing in `TimeScale::delta_f32`.
- Rendering, sprites, textures, `Visibility`, meshes on the GPU, the camera and the fuel bar. `Vec4::lerp` of the sky colours is modelled; the hex decoding is replaced by its constants.
- Asset loading, `from_utf8` in the loader, and the asset server.
- `lines()` treats `"\r\n"` as a line end. The model splits on `'\n'` only, because `parse_line` trims the `'\r'` anyway.
- `str::parse::<f32>` and `to_string` are the parameters `parseNumber` and `format`. Their grammar is not modelled.
- The player's `input_system`, which moves the player along its rotated input direction.
- The `distance_travelled` accumulator of the predictor, which is computed and discarded.
- `stop_on_escape_system`: exiting the app.
- The time-scale text widget beyond the label lookup and the "Time Scale: " prefix.
- Time.Delta: states the sign and the value at scale 1 rather than the product for all inputs; `FixedStepDelta` gives the product at the fixed period.
- Physics.Tick: its own contract only keeps the entities; the per-entity effect is in `MotionStep`, `TickUnnamed`, `TickIsSemiImplicitEuler` and `StillEntitiesStayUnlessPushed`.
- Scene.GravitySources: its own contract states which sources appear; their order and multiplicity are stated by `GravitySourcesInOrder`, kept apart so that proofs using the function stay small.
- Ship.SkyColor: states only the zero-radius case; the blend factor is specified by `SkyBlend`. The colour is blended on its sRGB components, which takes the `Color` to `Vec4` and back conversions around `lerp` to be the identity; those conversions belong to Bevy and are not part of this model.
- Ship.SkyAt: states only the no-planet case; the distance and radius it feeds to the blend are specified by `SurfaceDistance`.
