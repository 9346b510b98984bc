# Grid-puzzle game rules in Dafny

This project models the gameplay rules of a small 3D grid-puzzle game. A player
token moves on an 8×12 grid towards one or more goals, avoids traps, and races a
25-second countdown. Levels come from a level file. A two-phase level index
("desired" and "current") drives despawning and respawning. Three coloured
cameras show each entity according to its colour.

Modules, one per source file:

- `GameMechanics` (`game_mechanics.dfy`) covers `src/game_mechanics.rs`: the grid,
  colours and roles; the movement system; the goal and trap scans; and the countdown.
  The world is the class `World`. It holds the ordered list of grid entities
  (`objects`) and the optional `GameTimer` resource (`timer`).
- `LevelLifecycle` (`level.dfy`) covers `src/level.rs`. The class `LevelInfo` holds the
  resource's three fields and has one method per handler. `SpawnLevel` spawns a level
  descriptor. The value type `LevelState`, with the functions `FirstLoad`, `Reload`,
  `Advance`, `Commit` and `CommitEffect`, is the specification the handlers are proved against.
  Lemmas about it state the lifecycle properties.
- `ObjectRendering` (`object_rendering.dfy`) covers `src/object_rendering.rs`: colour to
  camera layers, colour to material colour, grid to world position, and the three
  update systems. The update systems overwrite per-entity component arrays.
- `Wrappers` (`wrappers.dfy`) is the `Option` type with `UnwrapOr`.

How the engine is represented:

- Events are the counts (or booleans) that the systems return.
- Engine change detection (`Changed<…>`, `Added<…>`) is an explicit per-entity flag
  sequence (`changed`, `colorChanged`, `posChanged`). A frame's keyboard input is the
  set of keys pressed in that frame.
- A loaded level file is `Some(Levels(...))`; a level file not loaded yet is `None`.
- Time is natural-number milliseconds. The level timer is `Timer(0, 25000)`.
- Deferred commands take effect at once.

Movement is clamped the way the code does it. Before a move, the code tests only the
wall the move heads for. It does not test that the target cell is on the grid. A player
that level data places off the grid can therefore move between off-grid cells (see
`OffGridPlayerStillMoves`). For a player on the grid, the two readings agree (see
`StepStaysOnGrid`).

The engine's `Timer` is not part of this model. It is modelled as a one-shot timer
whose elapsed time grows by the frame time and stops at its duration. It counts as
finished once elapsed reaches the duration.

## Model

| member | source | states |
|---|---|---|
| GameMechanics.World.constructor | src/game_mechanics.rs:56 | the world starts with no timer (and no grid entities) |
| GameMechanics.World.MovementSystem | src/game_mechanics.rs:67-101 | with exactly one player, its cell becomes `Step(cell, keys)` and nothing else changes; `moved` (the `PlayerMovedEvent`) is true exactly when the cell changed; with zero or several players nothing changes and no event is sent |
| GameMechanics.StepStaysOnGrid | src/game_mechanics.rs:75-96 | a player inside 0 ≤ x < 8, 0 ≤ y < 12 stays inside |
| GameMechanics.StepIsOneCellOrNone | src/game_mechanics.rs:75-96 | a frame changes exactly one coordinate by exactly ±1, or nothing; no diagonal moves |
| GameMechanics.StepMovesIffFirstDirectionFree | src/game_mechanics.rs:75-96 | the player moves iff some direction key is pressed and the first one in the order up, left, down, right is not against its wall |
| GameMechanics.WallBlocksMove | src/game_mechanics.rs:75-96 | up at y = 11, left at x = 0, down at y = 0 or right at x = 7 (each as the first pressed direction) leaves the position unchanged |
| GameMechanics.BlockedUpHidesRight | src/game_mechanics.rs:75-96 | a blocked up key together with a free right key gives no move, while right alone would move |
| GameMechanics.OffGridPlayerStillMoves | src/game_mechanics.rs:81-83 | the wall test covers only the side the move heads for: a player at x = 10 moves left to x = 9, although neither cell is on the grid |
| GameMechanics.StepFitsI32 | src/game_mechanics.rs:76-94 | the guarded ±1 updates never leave the 32-bit range |
| GameMechanics.PlayerIndices | src/game_mechanics.rs:72 | lists exactly the indices of the Player entities, in increasing order (what the single-player query inspects) |
| GameMechanics.SinglePlayerCells | src/game_mechanics.rs:104-108 | with one player, the changed-player query yields its cell exactly when its position changed this frame, and nothing otherwise |
| GameMechanics.CountOnCell | src/game_mechanics.rs:110-114 | the number of entities of a role on a cell is at most the number of entities |
| GameMechanics.CountOnCellIsMatchCount | src/game_mechanics.rs:110-114 | that count is the number of distinct matching entities: one event per entity, no deduplication |
| GameMechanics.CountOnCellPositiveIff | src/game_mechanics.rs:110-114 | the count is positive iff some entity of that role stands on the cell |
| GameMechanics.CollisionEvents | src/game_mechanics.rs:103-129 | if exactly one changed player exists, one event per target entity on its cell; otherwise none |
| GameMechanics.ReachGoal | src/game_mechanics.rs:103-115 | with one player: if it moved this frame, the number of `ReachedGoalEvent`s equals the number of goals on its cell, otherwise zero; with no player, zero |
| GameMechanics.HitTrap | src/game_mechanics.rs:117-129 | the same for traps and `HitTrapEvent`s |
| GameMechanics.TickGameTimer | src/game_mechanics.rs:131-143 | an absent timer does nothing; a present one fires iff its elapsed time plus the frame time reaches the duration, and it is then cleared; otherwise it advances by the frame time |
| GameMechanics.World.TimerExpired | src/game_mechanics.rs:131-143 | the timer resource and the expiry event are those of `TickGameTimer` |
| GameMechanics.AbsentTimerNeverFires | src/game_mechanics.rs:136 | without a timer no frame sequence produces an expiry, and none appears |
| GameMechanics.TimerFiresExactlyOnce | src/game_mechanics.rs:136-142 | over any frame sequence a timer fires exactly once, in the first frame where the total elapsed time reaches the duration, and is gone afterwards; before that it fires nothing |
| LevelLifecycle.LevelObjectsContents | src/level.rs:147-183 | a level spawns one player, one goal per goal entry and one trap per trap entry, each with the entry's x, y and colour copied verbatim |
| LevelLifecycle.LevelHasSinglePlayer | src/level.rs:150-158 | in a freshly spawned level the player is the only Player entity |
| LevelLifecycle.SpawnLevel | src/level.rs:147-185 | appends the level's entities in spawn order and arms a fresh 25-second one-shot timer |
| LevelLifecycle.LevelInfo.constructor | src/level.rs:66-70 | the resource starts with no desired level, no current level and zero levels |
| LevelLifecycle.LevelInfo.LoadFirstLevel | src/level.rs:79-81 | sets the desired index to `Some(0)` and leaves the rest unchanged |
| LevelLifecycle.LevelInfo.ReloadLevelOnDeath | src/level.rs:83-91 | the new state is `Reload(old state, number of trap hits)` |
| LevelLifecycle.LevelInfo.ReloadLevelOnTimerExpired | src/level.rs:93-101 | the new state is `Reload(old state, number of expiries)` |
| LevelLifecycle.LevelInfo.GoToNextLevelOnGoal | src/level.rs:103-110 | the new state is `Advance(old state, number of goal events)` |
| LevelLifecycle.ReloadEffect | src/level.rs:87-90 | zero events change nothing; one sets desired to the old current index and clears the current one; two or more leave both `None` |
| LevelLifecycle.AdvanceEffect | src/level.rs:107-109 | any positive number of goal events sets desired to the current index (or 0) plus one and leaves the current index untouched, the same as one event |
| LevelLifecycle.LevelInfo.LoadLevelOnLevelChange | src/level.rs:112-145 | it does nothing if desired equals current, desired is absent or the level file is not loaded; otherwise every grid entity is despawned, the level count recorded and desired made current; then either the level is spawned and the timer re-armed, or, for an index past the last level, no entity is spawned and the timer is left alone |
| LevelLifecycle.CommitIsIdempotent | src/level.rs:123-135 | a commit right after a commit changes nothing |
| LevelLifecycle.CommitLoadsIffInRange | src/level.rs:133-144 | with a non-negative index, the commit spawns level i exactly when i is below the level count; it records that count and makes desired current |
| LevelLifecycle.ReloadRespawnsSameLevel | src/level.rs:87-90 | dying on level i (trap or timer) respawns level i at the next commit |
| LevelLifecycle.DoubleReloadStalls | src/level.rs:87-90 | two reload events in one call leave both indices `None`, after which the commit step does nothing |
| LevelLifecycle.GoalAdvancesLevel | src/level.rs:107-109 | a goal on level i loads level i + 1 at the next commit; past the last level the world is cleared and the game is in the won state of src/text_display.rs:72 |
| LevelLifecycle.ApplyKeepsIndicesNonNegative | src/level.rs:80-108 | every handler keeps both indices non-negative |
| LevelLifecycle.RunKeepsIndicesNonNegative | src/level.rs:135-136 | from the initial resource, every sequence of handler calls keeps both indices non-negative, so the `as usize` conversion never wraps |
| ObjectRendering.LayersFromGameColor | src/object_rendering.rs:115-128 | every colour's camera-layer set is non-empty and within {1, 2, 3} |
| ObjectRendering.GetBevyColor | src/object_rendering.rs:140-150 | channels are 0 or 1, and the red, green and blue channels are 1 exactly when the colour is drawn on camera 1, 2 and 3 respectively |
| ObjectRendering.LayersRoundTrip | src/object_rendering.rs:116-124 | the colour can be read back from its layer set |
| ObjectRendering.LayersInjective | src/object_rendering.rs:116-124 | no two colours share a layer set |
| ObjectRendering.EveryCameraChoiceHasAColor | src/object_rendering.rs:116-124 | each of the seven non-empty subsets of the three cameras is the layer set of a colour |
| ObjectRendering.GridToTranslation | src/object_rendering.rs:163-165 | height is 1, and a cell is on the grid iff its world x lies in [0, 8) and its depth in [0, 12) |
| ObjectRendering.DepthIsInvolution | src/object_rendering.rs:164 | flipping a row into depth twice gives the row back |
| ObjectRendering.TranslationRoundTrip | src/object_rendering.rs:164 | the cell can be recovered from its world position |
| ObjectRendering.GridToTranslationInjective | src/object_rendering.rs:164 | different cells are drawn at different places |
| ObjectRendering.UpdateVisibility | src/object_rendering.rs:101-113 | every entity whose colour changed gets exactly its colour's layer set; the others are untouched |
| ObjectRendering.UpdateMaterialColor | src/object_rendering.rs:130-138 | every entity whose colour changed gets its colour's material colour; the others are untouched |
| ObjectRendering.UpdateTransformFromGrid | src/object_rendering.rs:152-161 | every entity whose cell was set or changed is moved to that cell's world position; the others are untouched |

## Left out

- Rendering beyond the three mappings is not modelled: cameras, render targets, post-processing,
  meshes and the spawn systems `spawn_player_object`, `spawn_trap_object`, `spawn_goal_object`
  and `spawn_world_object`. Those create engine assets (a sphere, a cube, a torus and a material)
  from `GridToTranslation` and `GetBevyColor`.
- Audio and the on-screen text are not modelled. The text's win check is the predicate `Won`.
- Parsing of the level file is not modelled. `Levels` is given already parsed.
- The three descriptor structs `LevelPlayer`, `LevelGoal` and `LevelTrap` have the same fields.
  They are one datatype, `Placement`.
- Engine scheduling and system order are not modelled. Each system is a separate call, and a frame
  is whatever sequence of calls a caller makes.
- Floats are not modelled. World positions and colour channels are integers. The 25-second timer
  and the frame time are whole milliseconds.
- The `GameTimer` is one optional timer in `World`. The level resource is the separate object
  `LevelInfo`.
- GridPos coordinates are unbounded integers. The 32-bit width is stated only as `StepFitsI32`.
  Spawned coordinates are not range-checked, as in the source.
- Material colours are one per entity. The source creates a fresh material for every spawned
  entity, so no material is shared.
