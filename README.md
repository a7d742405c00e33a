# Fungi vs Bacteria: the game logic in Dafny

This project models the game-logic layer of a Unity tower-defence game and proves properties of it. The
engine is replaced by explicit inputs:

- Positions, distances, speeds and `Time.deltaTime` are exact reals.
- Physics queries (`OverlapSphere`, raycasts) are input lists or options.
- GameObjects are integer ids. `Instantiate` hands out the next id, and `Destroy` sets a flag or adds the id
  to a set.
- Each coroutine wait is a pending timer whose expiry is an explicit event.

One Dafny module per C# component; the class and member names are the source's:

| module | file | component |
|---|---|---|
| `Common` | common.dfy | Option, Vector3, Vector2Int, object ids, `Mathf.RoundToInt`, the collider record |
| `Economy` | game_manager.dfy | GameManager: the gold and health ledger |
| `Grid` | grid_manager.dfy | GridManager: the buildability table and cell/world conversion |
| `Paths` | path_config.dfy | PathConfig: path segments and reading them back as points |
| `PathEditor` | path_creator.dfy | PathCreatorWindow: collecting clicked points and saving them as segments |
| `Enemies` | enemy.dfy | Enemy: waypoints, armour, death reward, slows |
| `Waves` | enemy_spawner.dfy | EnemySpawner: waves, the spawn schedule, rewards and the gap between waves |
| `Targeting` | tower_targeting.dfy | TowerTargeting: keep or replace the target |
| `Towers` | tower.dfy | Tower and TowerConfig: cooldown, payload, selling, selection, preview |
| `Projectiles` | projectile.dfy | Projectile: lifetime, hit test, single-target and area damage |
| `Placement` | tower_placement.dfy | TowerPlacement: placement mode, the layer-mask test, buy-then-build |
| `Catalogue` | tower_database.dfy | TowerDatabase: the catalogue sorted by cost |
| `TileVisuals` | grid_tile_visualizer.dfy | GridTileVisualizer: the pool of per-cell indicators |
| `LineVisuals` | grid_visualizer.dfy | GridVisualizer: the pool of grid lines |

Each component whose fields change in place is a `class` with those fields.

State-changing methods state their whole new state in terms of the old one. Where the source's result is
a computed value, the method is proved equal to a specification function. Each specification function
has lemmas proving the property the game relies on:

- **Round trip.** Reading back the saved segments gives the clicked points.
- **Scheduling.** The nested spawn loop spawns exactly the flattened group list, in order.
- **Targeting.** The target scan picks the first nearest enemy in range.
- **Sorting.** The catalogue sort yields a cost-sorted permutation.
- **Pool bookkeeping.** Queued plus laid objects always add up to the pooled objects.

## Model

| member | source | states |
|---|---|---|
| Common.RoundToInt | Assets/Scripts/Gameplay/Enemy/Enemy.cs:96 | Mathf.RoundToInt over exact reals: the result is within one half of its argument, and integers are returned unchanged |
| Common.Fresh | Assets/Scripts/Gameplay/Grid/GridTileVisualizer.cs:61-67 | the ids of n successive Instantiate calls: n ids, the k-th being from + k |
| Economy.PurchaseExact | Assets/Scripts/Managers/GameManager.cs:44-53 | a purchase succeeds exactly when gold >= cost and then removes exactly cost; otherwise the ledger is unchanged; health and the game-over count are never touched |
| Economy.PurchaseKeepsGoldNonNegative | Assets/Scripts/Managers/GameManager.cs:46-48 | with non-negative gold and cost, no purchase leaves gold negative |
| Economy.DamageNeverNegative | Assets/Scripts/Managers/GameManager.cs:61-63 | after any hit, health is max(0, health - damage) and so never below 0 |
| Economy.DamageAllClamps | Assets/Scripts/Managers/GameManager.cs:61-63 | a run of non-negative hits leaves health max(0, health - total) and gold unchanged |
| Economy.GameOverRepeats | Assets/Scripts/Managers/GameManager.cs:61-69 | game over is not one-shot: at 0 health, every further hit fires GameOver once more |
| Economy.SumNonNegative | Assets/Scripts/Managers/GameManager.cs:61-63 | a total of non-negative hits is non-negative |
| Economy.GameManager.constructor | Assets/Scripts/Managers/GameManager.cs:7-11 | every field holds its serialized value (current gold and health as the scene left them, 0 by default); the starting values are only copied in by Start; no game over yet |
| Economy.GameManager.Start | Assets/Scripts/Managers/GameManager.cs:25-29 | gold and health take their starting values |
| Economy.GameManager.CanAfford | Assets/Scripts/Managers/GameManager.cs:39-42 | true exactly when gold >= cost |
| Economy.GameManager.TryPurchase | Assets/Scripts/Managers/GameManager.cs:44-53 | the ledger moves as Purchase says, and the result is true exactly when gold >= cost |
| Economy.GameManager.AddGold | Assets/Scripts/Managers/GameManager.cs:55-59 | gold grows by exactly the amount; health is unchanged |
| Economy.GameManager.TakeDamage | Assets/Scripts/Managers/GameManager.cs:61-70 | health becomes max(0, health - damage), and GameOver fires whenever the result is 0 |
| Economy.GameManager.GameOver | Assets/Scripts/Managers/GameManager.cs:72-78 | one more game over is recorded; gold and health are unchanged |
| Grid.CentreOffsetFloor | Assets/Scripts/Gameplay/Grid/GridManager.cs:41-56 | floor((i*c + c/2) / c) == i for every cell size c > 0 |
| Grid.InsideCellFloor | Assets/Scripts/Gameplay/Grid/GridManager.cs:50-56 | every offset inside [i*c, (i+1)*c) floors to i |
| Grid.InitialBuildable | Assets/Scripts/Gameplay/Grid/GridManager.cs:28-37 | with the table InitializeGrid builds, a cell is buildable exactly when it is in bounds |
| Grid.SetThenRead | Assets/Scripts/Gameplay/Grid/GridManager.cs:58-77 | setting an existing cell reads back as set (in bounds) and leaves every other cell reading as before; setting a missing cell changes nothing; the key set never changes |
| Grid.GridManager.constructor | Assets/Scripts/Gameplay/Grid/GridManager.cs:14-20 | after Awake the table's keys are exactly the in-bounds cells, all buildable |
| Grid.GridManager.InitializeGrid | Assets/Scripts/Gameplay/Grid/GridManager.cs:28-37 | the keys are exactly the cells 0<=x<gridSize.x, 0<=y<gridSize.y, each mapped to true; the size, cell size and origin are unchanged |
| Grid.GridManager.GridToWorld | Assets/Scripts/Gameplay/Grid/GridManager.cs:41-48 | the world position of the cell's centre: origin + (x*c + c/2, 0, y*c + c/2) |
| Grid.GridManager.WorldToGrid | Assets/Scripts/Gameplay/Grid/GridManager.cs:50-56 | for a positive cell size, the world position's offset from the origin lies inside the square of the returned cell (floor of the offset in cells) |
| Grid.GridManager.WorldToGridOfGridToWorld | Assets/Scripts/Gameplay/Grid/GridManager.cs:41-56 | for cell size > 0, WorldToGrid(GridToWorld(g)) == g for every cell g |
| Grid.GridManager.WorldToGridInsideCell | Assets/Scripts/Gameplay/Grid/GridManager.cs:50-56 | every world position inside a cell's square converts to that cell |
| Grid.GridManager.IsCellBuildable | Assets/Scripts/Gameplay/Grid/GridManager.cs:58-65 | false for any out-of-bounds cell whatever the table holds; in bounds, the stored flag, and false for a missing key |
| Grid.GridManager.SetCellBuildable | Assets/Scripts/Gameplay/Grid/GridManager.cs:67-77 | only an existing key is updated, and a missing key leaves the table unchanged |
| Paths.PointsOf | Assets/Scripts/Gameplay/Path/PathConfig.cs:26-44 | no segments give no points; n segments give n+1 points, the i-th being segment i's start, and the last being the last segment's end |
| Paths.SegmentsOf | Assets/Scripts/Editor/PathCreatorWindow.cs:219-228 | |points| - 1 segments, the i-th from point i to point i+1 |
| Paths.SegmentsOfContiguous | Assets/Scripts/Editor/PathCreatorWindow.cs:219-228 | the saved segments are contiguous: each ends where the next starts |
| Paths.PointsOfSegmentsOf | Assets/Scripts/Gameplay/Path/PathConfig.cs:26-44 | round trip: for two or more points, reading back the saved segments gives exactly the points |
| Paths.SegmentsOfPointsOf | Assets/Scripts/Gameplay/Path/PathConfig.cs:35-41 | the other round trip holds exactly when the segments are contiguous |
| Paths.PointsIgnoreInnerEnds | Assets/Scripts/Gameplay/Path/PathConfig.cs:35-41 | end points of every segment but the last do not affect the points, so gaps in a path are lost |
| Paths.PathConfig.constructor | Assets/Scripts/Gameplay/Path/PathConfig.cs:6-24 | the serialized defaults: name "New Path", width 2, no segments |
| Paths.PathConfig.GetPathPoints | Assets/Scripts/Gameplay/Path/PathConfig.cs:26-44 | the array filled by the loop equals PointsOf of the segments, with a null array read as empty |
| PathEditor.PathCreatorWindow.constructor | Assets/Scripts/Editor/PathCreatorWindow.cs:7-11 | an empty point list, not creating, not listening to the scene view |
| PathEditor.PathCreatorWindow.StartPathCreation | Assets/Scripts/Editor/PathCreatorWindow.cs:67-75 | creation mode with an empty point list, listening to the scene view |
| PathEditor.PathCreatorWindow.AddPathPoint | Assets/Scripts/Editor/PathCreatorWindow.cs:139-143 | exactly one point is appended at the end |
| PathEditor.PathCreatorWindow.RemoveLastPoint | Assets/Scripts/Editor/PathCreatorWindow.cs:145-152 | only the last point is removed, and an empty list stays empty |
| PathEditor.PathCreatorWindow.CancelPathCreation | Assets/Scripts/Editor/PathCreatorWindow.cs:237-247 | not creating, no points, not listening |
| PathEditor.PathCreatorWindow.OnSceneEvent | Assets/Scripts/Editor/PathCreatorWindow.cs:77-104 | a left click with a hit adds that point; a right click with a hit removes the last point when there is one; Escape cancels; anything else changes nothing; the listening flag changes only on Escape |
| PathEditor.PathCreatorWindow.FinishPath | Assets/Scripts/Editor/PathCreatorWindow.cs:207-235 | with fewer than 2 points nothing changes and creation continues; otherwise the config gets a new array equal to SegmentsOf(points), and the list is emptied and creation ends; the config's name, width and description are untouched |
| PathEditor.SaveAndReload | Assets/Scripts/Editor/PathCreatorWindow.cs:219-233 | FinishPath followed by GetPathPoints returns exactly the clicked points |
| Enemies.ReducedDamageBounds | Assets/Scripts/Gameplay/Enemy/Enemy.cs:95-96 | without armour a hit costs exactly its amount; with armour in [0, 1] a non-negative hit costs between 0 and its amount |
| Enemies.SlowsTakeMaximum | Assets/Scripts/Gameplay/Enemy/Enemy.cs:105-110 | slows never compound: after any run of slows the amount is the maximum seen, and speed is the unslowed speed times (1 - that maximum) |
| Enemies.SlowOrderIrrelevant | Assets/Scripts/Gameplay/Enemy/Enemy.cs:105-110 | two slows give the same state in either order |
| Enemies.RewardPerHitAfterDeath | Assets/Scripts/Gameplay/Enemy/Enemy.cs:92-103 | no already-dead guard: at or below 0 health, every further hit runs the death branch again, and health is not clamped |
| Enemies.Enemy.constructor | Assets/Scripts/Gameplay/Enemy/Enemy.cs:6-18 | the field initialisers: speed 5, health 100, damage 10, no armour, no path, index 0 |
| Enemies.Enemy.Start | Assets/Scripts/Gameplay/Enemy/Enemy.cs:22-25 | the unslowed speed is taken from the current speed; nothing else changes |
| Enemies.Enemy.Initialize | Assets/Scripts/Gameplay/Enemy/Enemy.cs:27-45 | health = maxHealth; speed = unslowed speed = moveSpeed x (isFast ? multiplier : 1); armour = isArmored ? reduction : 0; damage and reward from the config; the path is stored |
| Enemies.Enemy.Update | Assets/Scripts/Gameplay/Enemy/Enemy.cs:58-80 | within 0.1 of the waypoint the index advances by exactly one, otherwise it stays; passing the last waypoint deals `damage` to the base and destroys the enemy, also when a hit earlier in the same frame already killed it; the index never leaves the path; stats, slow and pending wear-offs unchanged |
| Enemies.Enemy.DealDamageToBase | Assets/Scripts/Gameplay/Enemy/Enemy.cs:82-90 | with a GameManager, its ledger takes exactly `damage` |
| Enemies.Enemy.TakeDamage | Assets/Scripts/Gameplay/Enemy/Enemy.cs:92-103 | health drops by round(amount x (1 - armour)); at or below 0 the reward is credited and the enemy destroyed, whether or not it already was; path, stats, slow and pending wear-offs unchanged |
| Enemies.Enemy.ApplySlow | Assets/Scripts/Gameplay/Enemy/Enemy.cs:105-110 | The slow amount becomes the larger of the active and the new amount, the speed becomes the unslowed speed times one minus that amount, one more wear-off timer is pending, and every other field is unchanged. |
| Enemies.Enemy.SlowWearOff | Assets/Scripts/Gameplay/Enemy/Enemy.cs:112-117 | any wear-off, even one older than the latest slow, clears the slow and restores the unslowed speed |
| Waves.FirstFrom | Assets/Scripts/Gameplay/Enemy/EnemySpawner.cs:62-69 | the next spawn position of the nested loops: (g, i) itself while i is below group g's count, otherwise the start of the next group with enemies, skipping only empty groups; none when no group has enemies left |
| Waves.Repeat | Assets/Scripts/Gameplay/Enemy/EnemySpawner.cs:64-68 | max(0, n) copies of the group |
| Waves.WalkInGroup | Assets/Scripts/Gameplay/Enemy/EnemySpawner.cs:64-68 | within a group, one enemy of that group is spawned and the loop moves to the next index |
| Waves.WalkNextGroup | Assets/Scripts/Gameplay/Enemy/EnemySpawner.cs:62-69 | past a group's count, the loop carries on at the next group's start |
| Waves.WalkIsFlatten | Assets/Scripts/Gameplay/Enemy/EnemySpawner.cs:62-69 | from any position in a group, the spawns are the rest of that group followed by every later group in full |
| Waves.WalkFromGroup | Assets/Scripts/Gameplay/Enemy/EnemySpawner.cs:62-69 | from a group's start, the spawns are every group from there on in full |
| Waves.WaveSpawnsFlatten | Assets/Scripts/Gameplay/Enemy/EnemySpawner.cs:62-69 | a wave spawns each group's enemies, count times each, in group order |
| Waves.FlattenLength | Assets/Scripts/Gameplay/Enemy/EnemySpawner.cs:62-69 | a wave spawns exactly the sum of its positive group counts |
| Waves.Adjusted | Assets/Scripts/Gameplay/Enemy/EnemySpawner.cs:113-117 | the path at height h: the same length, with each point's x and z kept and y = h |
| Waves.SpawnOfCases | Assets/Scripts/Gameplay/Enemy/EnemySpawner.cs:86-129 | an enemy is instantiated exactly when config, prefab, PathManager and a non-empty path exist; it appears at height h/2 (h its mesh height) over the first point's x and z; with an Enemy component it gets the path at that height, starting on its spawn point |
| Waves.SpawnEnemy | Assets/Scripts/Gameplay/Enemy/EnemySpawner.cs:86-142 | the loop-built adjusted path and spawn equal SpawnOf |
| Waves.EnemySpawner.constructor | Assets/Scripts/Gameplay/Enemy/EnemySpawner.cs:6-12 | wave 0, not spawning, not started, not waiting, no pending coroutine |
| Waves.EnemySpawner.AreWavesComplete | Assets/Scripts/Gameplay/Enemy/EnemySpawner.cs:144-147 | true exactly when every wave has started and none is spawning; then every wave has started and only gap timers are pending |
| Waves.EnemySpawner.IsLastWave | Assets/Scripts/Gameplay/Enemy/EnemySpawner.cs:14 | true exactly when the wave counter has reached the number of waves |
| Waves.EnemySpawner.Update | Assets/Scripts/Gameplay/Enemy/EnemySpawner.cs:27-34 | the countdown drops by dt only while waiting for the next wave |
| Waves.EnemySpawner.StartGame | Assets/Scripts/Gameplay/Enemy/EnemySpawner.cs:36-43 | the latch has an effect only on the first call with a wave config, which then leaves exactly the state StartNextWave leaves (NextWaveOutcome); every other call changes nothing at all |
| Waves.EnemySpawner.StartNextWave | Assets/Scripts/Gameplay/Enemy/EnemySpawner.cs:45-55 | a no-op while spawning or after the last wave; otherwise wave `currentWave` runs to its first wait (its first enemy spawned and the spawn timer pending) and the counter grows by one; a wave with no enemies pays its reward at once and enters the gap wait |
| Waves.EnemySpawner.SpawnAndWait | Assets/Scripts/Gameplay/Enemy/EnemySpawner.cs:64-68 | the enemy is spawned and logged, and one spawn timer is pending |
| Waves.EnemySpawner.FinishWave | Assets/Scripts/Gameplay/Enemy/EnemySpawner.cs:71-80 | spawning stops and the wave's reward is credited once, whatever is alive; while a wave remains, waveTimer = timeToNextWave and a gap timer is pending |
| Waves.EnemySpawner.ContinueWave | Assets/Scripts/Gameplay/Enemy/EnemySpawner.cs:62-83 | after a spawn wait, the next position in loop order is spawned with the gap timer untouched, or the wave finishes: paid once, and the gap timer set to timeToNextWave while a wave remains, left as it was after the last wave |
| Waves.EnemySpawner.TakeRoutine | Assets/Scripts/Gameplay/Enemy/EnemySpawner.cs:67-81 | the expiring coroutine leaves the pending list; at the end of a gap wait the waiting flag is cleared |
| Waves.EnemySpawner.Resume | Assets/Scripts/Gameplay/Enemy/EnemySpawner.cs:57-84 | a timer expires: after a spawn wait the next enemy is spawned (timer untouched) or the wave is finished and paid (gap timer at timeToNextWave while a wave remains, timer and waiting flag untouched after the last); after a gap wait the waiting flag is cleared and the state is StartNextWave's (NextWaveOutcome); the counter never exceeds the number of waves |
| Targeting.NearestUpTo | Assets/Scripts/Gameplay/Tower/TowerTargeting.cs:44-53 | the candidate after looking at the first n enemies is one of them |
| Targeting.NearestUpToCorrect | Assets/Scripts/Gameplay/Tower/TowerTargeting.cs:38-56 | the scan finds nothing exactly when no enemy is within range; otherwise it picks an in-range enemy of minimal distance that is strictly nearer than every earlier one in range (first wins ties) |
| Targeting.NearestUnique | Assets/Scripts/Gameplay/Tower/TowerTargeting.cs:48 | first-wins tie breaking makes the nearest enemy unique |
| Targeting.RetargetCorrect | Assets/Scripts/Gameplay/Tower/TowerTargeting.cs:20-36 | afterwards any target is alive and within range; a live target within range is kept even if another is nearer; otherwise the nearest in-range enemy is picked, or none when none is in range |
| Targeting.FindNewTarget | Assets/Scripts/Gameplay/Tower/TowerTargeting.cs:38-56 | the loop with its running shortest distance returns the index Nearest specifies |
| Targeting.TowerTargeting.constructor | Assets/Scripts/Gameplay/Tower/TowerTargeting.cs:5-6 | no target, range 0, enabled |
| Targeting.TowerTargeting.Initialize | Assets/Scripts/Gameplay/Tower/TowerTargeting.cs:8-11 | stores the range; nothing else changes |
| Targeting.TowerTargeting.UpdateTarget | Assets/Scripts/Gameplay/Tower/TowerTargeting.cs:20-36 | the new target is Retarget of the old one |
| Towers.SellValueBounds | Assets/Scripts/Gameplay/Tower/TowerConfig.cs:26 | the sell value is within half a coin of 70% of the cost, and between 0 and the cost for a non-negative cost |
| Towers.Cooldown | Assets/Scripts/Gameplay/Tower/Tower.cs:63 | the delay is positive; a positive rate gives 1/rate; a non-positive rate gives 1 |
| Towers.TickAllBounds | Assets/Scripts/Gameplay/Tower/Tower.cs:127-137 | at most one shot per tick, and the countdown is positive after every tick |
| Towers.NoShotBeforeCountdown | Assets/Scripts/Gameplay/Tower/Tower.cs:127-137 | no shot fires while the targeted time stays below the countdown, which drops by exactly that time |
| Towers.SumRNonNegative | Assets/Scripts/Gameplay/Tower/Tower.cs:131 | a total of non-negative frame times is non-negative |
| Towers.Tower.constructor | Assets/Scripts/Gameplay/Tower/Tower.cs:14-20 | the field initialisers: no config, countdown 0, not selected, not previewing, cell (0, 0) |
| Towers.Tower.Range | Assets/Scripts/Gameplay/Tower/Tower.cs:22 | the config's range, 0 without a config |
| Towers.Tower.FireRate | Assets/Scripts/Gameplay/Tower/Tower.cs:23 | the config's fire rate, 1 without a config |
| Towers.Tower.Initialize | Assets/Scripts/Gameplay/Tower/Tower.cs:54-69 | stores the config; with one, targeting gets its range and the countdown starts at one cooldown; without one, nothing else changes |
| Towers.Tower.SetGridPosition | Assets/Scripts/Gameplay/Tower/Tower.cs:71-74 | only the grid position changes |
| Towers.Tower.Attack | Assets/Scripts/Gameplay/Tower/Tower.cs:81-110 | no shot when the config, prefab, targeting, target, spawn point or Projectile component is missing; otherwise the payload is (damage, isAoE, splash, slows, slowAmount, speed 20), aimed at the current target |
| Towers.Tower.Update | Assets/Scripts/Gameplay/Tower/Tower.cs:34-47 | nothing happens in preview mode or without a config; otherwise targeting is updated, and the countdown runs only while there is a target; selection, position, tile indicator and colliders unchanged |
| Towers.Tower.UpdateTarget | Assets/Scripts/Gameplay/Tower/Tower.cs:76-79 | the targeting component, if any, retargets |
| Towers.Tower.HandleShooting | Assets/Scripts/Gameplay/Tower/Tower.cs:127-137 | the countdown drops by dt; at or below 0 Attack is called once and the countdown restarts at one cooldown; every other field unchanged |
| Towers.Tower.Select | Assets/Scripts/Gameplay/Tower/Tower.cs:144-149 | selected afterwards unless in preview mode; calling it again changes nothing; every other field unchanged |
| Towers.Tower.Deselect | Assets/Scripts/Gameplay/Tower/Tower.cs:151-156 | deselected afterwards unless in preview mode; calling it again changes nothing; every other field unchanged |
| Towers.Tower.Sell | Assets/Scripts/Gameplay/Tower/Tower.cs:158-172 | without a config the tower is only destroyed; with one, exactly the sell value is credited, the cell at GridPosition is marked buildable, Deselect is called (a no-op in preview mode), and it is destroyed; countdown, preview mode, colliders and the grid's size, cell size and origin unchanged |
| Towers.Tower.SetPreviewMode | Assets/Scripts/Gameplay/Tower/Tower.cs:179-197 | targeting and colliders are on exactly when not previewing; previewing adds the tile indicator when possible, and leaving preview removes it |
| Projectiles.AoEVictimsExact | Assets/Scripts/Gameplay/Tower/Projectile.cs:80-90 | an explosion damages exactly the enemies on Enemy-tagged overlapping colliders, at most one per collider |
| Projectiles.Impacts | Assets/Scripts/Gameplay/Tower/Projectile.cs:92-102 | one impact per damaged enemy, in order, each with the payload's damage and slow |
| Projectiles.Explode | Assets/Scripts/Gameplay/Tower/Projectile.cs:80-90 | the collider loop produces exactly the impacts on AoEVictims |
| Projectiles.DamageEnemy | Assets/Scripts/Gameplay/Tower/Projectile.cs:92-102 | the enemy takes the damage through TakeDamage, and is slowed by SlowAmount exactly when SlowsEnemies, even after a lethal hit; the enemy's path, waypoint index, armour, reward, damage and unslowed speed unchanged |
| Projectiles.Projectile.constructor | Assets/Scripts/Gameplay/Tower/Projectile.cs:5-13 | the serialized lifetime limit and hit radius as given, no target, lifetime 0, not destroyed |
| Projectiles.Projectile.Initialize | Assets/Scripts/Gameplay/Tower/Projectile.cs:15-19 | stores the payload; nothing else changes |
| Projectiles.Projectile.Seek | Assets/Scripts/Gameplay/Tower/Projectile.cs:21-24 | stores the target; nothing else changes |
| Projectiles.Projectile.Update | Assets/Scripts/Gameplay/Tower/Projectile.cs:26-46 | lifetime grows by dt first; a lost target or a lifetime over `maxLifetime` destroys the projectile with no damage, before any hit test; a hit happens exactly within `collisionRadius` and destroys it; any damage implies destruction |
| Projectiles.Projectile.HitTarget | Assets/Scripts/Gameplay/Tower/Projectile.cs:48-62 | non-area: only the target, if it has an Enemy; area: exactly the overlap victims (the target is not added); every impact carries the payload's damage, and its slow exactly when the payload slows |
| Placement.NoMaskNoBlock | Assets/Scripts/Gameplay/Tower/TowerPlacement.cs:79-95 | with no blocking layers, or with every layer ignored, nothing blocks |
| Placement.CanPlaceAtPosition | Assets/Scripts/Gameplay/Tower/TowerPlacement.cs:77-96 | false exactly when some collider's layer bit is set in blockingLayers, is not set in ignoreLayers, and the collider is not part of the preview |
| Placement.TowerPlacement.constructor | Assets/Scripts/Gameplay/Tower/TowerPlacement.cs:5-12 | no config, no preview, nothing placed |
| Placement.TowerPlacement.StartPlacement | Assets/Scripts/Gameplay/Tower/TowerPlacement.cs:25-32 | a null or unaffordable config changes nothing; otherwise the config is set and a fresh preview is created |
| Placement.TowerPlacement.CancelPlacement | Assets/Scripts/Gameplay/Tower/TowerPlacement.cs:34-42 | always ends with no config and no preview, and the preview, if any, is destroyed |
| Placement.TowerPlacement.PlaceTower | Assets/Scripts/Gameplay/Tower/TowerPlacement.cs:98-104 | the ledger moves as Purchase says; when that fails nothing else changes; when it succeeds exactly one tower is created at the spot and placement mode ends |
| Placement.TowerPlacement.HandlePlacementInput | Assets/Scripts/Gameplay/Tower/TowerPlacement.cs:44-75 | the whole new state (InputOutcome): no ray hit changes nothing; otherwise the preview moves to the spot; a left click on a free spot buys, and places and leaves placement mode only when the purchase goes through; otherwise a right click cancels; any other input changes nothing else |
| Placement.TowerPlacement.Update | Assets/Scripts/Gameplay/Tower/TowerPlacement.cs:19-23 | without a placement config nothing happens; with one, the new state is HandlePlacementInput's (InputOutcome) |
| Catalogue.InsertSorted | Assets/Scripts/Gameplay/Tower/TowerDatabase.cs:16 | inserting into a cost-sorted list keeps it sorted and adds one element |
| Catalogue.InsertPerm | Assets/Scripts/Gameplay/Tower/TowerDatabase.cs:16 | insertion adds exactly the new tower to the multiset |
| Catalogue.InsertionSortCorrect | Assets/Scripts/Gameplay/Tower/TowerDatabase.cs:16 | the sort yields costs in non-decreasing order and a permutation of the input |
| Catalogue.SortByCost | Assets/Scripts/Gameplay/Tower/TowerDatabase.cs:16 | in place: the array afterwards is sorted by cost and a permutation of its old contents |
| Catalogue.TowerDatabase.constructor | Assets/Scripts/Gameplay/Tower/TowerDatabase.cs:7-10 | no catalogue yet, sorting on |
| Catalogue.TowerDatabase.OnValidate | Assets/Scripts/Gameplay/Tower/TowerDatabase.cs:12-18 | with sortByPrice and a catalogue, it ends sorted by cost and is a permutation; with sortByPrice off it is unchanged; a null catalogue stays null |
| TileVisuals.PoolCovers | Assets/Scripts/Gameplay/Grid/GridTileVisualizer.cs:61-95 | under the pool's bookkeeping every pooled indicator is either in the available queue or laid on a cell |
| TileVisuals.PoolCreateQueuedMany | Assets/Scripts/Gameplay/Grid/GridTileVisualizer.cs:61-67 | creating and queueing n fresh indicators keeps the pool's bookkeeping, including queued + laid == pooled |
| TileVisuals.PoolReturn | Assets/Scripts/Gameplay/Grid/GridTileVisualizer.cs:177-184 | returning a laid indicator to the queue keeps the bookkeeping |
| TileVisuals.GridTileVisualizer.constructor | Assets/Scripts/Gameplay/Grid/GridTileVisualizer.cs:26-49 | Awake: without a GridManager, prefab or both materials the component is disabled and creates nothing; otherwise the pool holds initialPoolSize fresh, inactive, queued indicators in creation order |
| TileVisuals.GridTileVisualizer.FillPool | Assets/Scripts/Gameplay/Grid/GridTileVisualizer.cs:48-68 | InitializePool keeps the bookkeeping |
| TileVisuals.GridTileVisualizer.InitializePool | Assets/Scripts/Gameplay/Grid/GridTileVisualizer.cs:51-68 | initialPoolSize new indicators are appended, in creation order, to both the pooled list and the queue |
| TileVisuals.GridTileVisualizer.CreateQueuedIndicator | Assets/Scripts/Gameplay/Grid/GridTileVisualizer.cs:61-67 | one fresh, inactive indicator at the back of both lists |
| TileVisuals.GridTileVisualizer.GetPooledIndicator | Assets/Scripts/Gameplay/Grid/GridTileVisualizer.cs:70-86 | never fails: the queue's front (FIFO) when there is one, otherwise a fresh indicator appended to the pooled list; either way it is made active |
| TileVisuals.GridTileVisualizer.ReturnIndicatorToPool | Assets/Scripts/Gameplay/Grid/GridTileVisualizer.cs:88-95 | the indicator is deactivated and queued at the back |
| TileVisuals.GridTileVisualizer.ClearIndicators | Assets/Scripts/Gameplay/Grid/GridTileVisualizer.cs:177-184 | every laid indicator is queued behind the old queue, inactive; the map is emptied; queued == pooled |
| TileVisuals.GridTileVisualizer.ClearCell | Assets/Scripts/Gameplay/Grid/GridTileVisualizer.cs:179-182 | one cell's indicator goes back, keeping the bookkeeping and the loop's progress |
| TileVisuals.GridTileVisualizer.ShowVisualization | Assets/Scripts/Gameplay/Grid/GridTileVisualizer.cs:97-129 | a no-op when showing, without a GridManager or disabled; otherwise the map holds exactly one entry per grid cell, each active with its cell's material, and the hidden preview cell is hidden again |
| TileVisuals.GridTileVisualizer.Relay | Assets/Scripts/Gameplay/Grid/GridTileVisualizer.cs:102-128 | clearing, laying every cell and re-hiding, with the bookkeeping kept |
| TileVisuals.GridTileVisualizer.LayAll | Assets/Scripts/Gameplay/Grid/GridTileVisualizer.cs:107-127 | the nested loops lay exactly the grid's cells, each active with its cell's material |
| TileVisuals.GridTileVisualizer.LayColumn | Assets/Scripts/Gameplay/Grid/GridTileVisualizer.cs:109-126 | the inner loop lays column x |
| TileVisuals.GridTileVisualizer.LayCellAt | Assets/Scripts/Gameplay/Grid/GridTileVisualizer.cs:111-125 | one cell is laid with its material |
| TileVisuals.GridTileVisualizer.LayIndicator | Assets/Scripts/Gameplay/Grid/GridTileVisualizer.cs:114-125 | the cell maps to the pooled indicator, which gets its cell's material when it has a renderer |
| TileVisuals.GridTileVisualizer.UpdateHiddenIndicatorVisibility | Assets/Scripts/Gameplay/Grid/GridTileVisualizer.cs:160-166 | with a hidden cell, its indicator is deactivated; otherwise nothing changes |
| TileVisuals.GridTileVisualizer.HideIndicatorAt | Assets/Scripts/Gameplay/Grid/GridTileVisualizer.cs:142-148 | the indicator on the cell, if any, is deactivated, and every other one stays active |
| TileVisuals.GridTileVisualizer.ShowTemporarilyHiddenIndicator | Assets/Scripts/Gameplay/Grid/GridTileVisualizer.cs:150-158 | always ends with no hidden cell, at (-1, -1), and every laid indicator active |
| TileVisuals.GridTileVisualizer.SetPreviewPosition | Assets/Scripts/Gameplay/Grid/GridTileVisualizer.cs:131-140 | only while showing and enabled: the new cell is hidden and remembered, and every other laid indicator is active |
| TileVisuals.GridTileVisualizer.MovePreview | Assets/Scripts/Gameplay/Grid/GridTileVisualizer.cs:135-139 | the old hidden cell is shown again, the new one hidden and remembered |
| TileVisuals.GridTileVisualizer.RememberHidden | Assets/Scripts/Gameplay/Grid/GridTileVisualizer.cs:138-139 | the cell becomes the hidden one |
| TileVisuals.GridTileVisualizer.HideVisualization | Assets/Scripts/Gameplay/Grid/GridTileVisualizer.cs:168-175 | a no-op unless showing and enabled; otherwise every laid indicator is queued inactive, the map is empty, and the hidden state resets to (-1, -1)/false |
| TileVisuals.GridTileVisualizer.Hide | Assets/Scripts/Gameplay/Grid/GridTileVisualizer.cs:170-174 | past the guard: not showing, every laid indicator queued inactive, the map empty, queued == pooled, no cell hidden at (-1, -1) |
| LineVisuals.LinesCount | Assets/Scripts/Gameplay/Grid/GridVisualizer.cs:45-67 | queued and drawn lines add up to the pooled lines |
| LineVisuals.LinesCreateQueuedMany | Assets/Scripts/Gameplay/Grid/GridVisualizer.cs:45-51 | queueing n fresh lines keeps the bookkeeping |
| LineVisuals.LinesDrawQueued | Assets/Scripts/Gameplay/Grid/GridVisualizer.cs:56-61 | drawing the queue's front keeps the bookkeeping, and that line was not drawn already |
| LineVisuals.LinesDrawNew | Assets/Scripts/Gameplay/Grid/GridVisualizer.cs:62-67 | drawing a fresh line keeps the bookkeeping |
| LineVisuals.LinesReturnAll | Assets/Scripts/Gameplay/Grid/GridVisualizer.cs:134-141 | returning every drawn line, inactive, keeps the bookkeeping |
| LineVisuals.GridVisualizer.constructor | Assets/Scripts/Gameplay/Grid/GridVisualizer.cs:10-16 | not showing, an empty pool, enabled |
| LineVisuals.GridVisualizer.Start | Assets/Scripts/Gameplay/Grid/GridVisualizer.cs:18-32 | without a GridManager or line prefab the component is disabled and creates nothing; otherwise initialPoolSize fresh lines are queued |
| LineVisuals.GridVisualizer.InitializePool | Assets/Scripts/Gameplay/Grid/GridVisualizer.cs:34-52 | initialPoolSize new lines, inactive, are appended in creation order to the pooled list and the queue, keeping the bookkeeping |
| LineVisuals.GridVisualizer.CreateQueuedLine | Assets/Scripts/Gameplay/Grid/GridVisualizer.cs:47-50 | one fresh, inactive line at the back of both lists |
| LineVisuals.GridVisualizer.GetPooledLine | Assets/Scripts/Gameplay/Grid/GridVisualizer.cs:54-68 | the queue's front, made active; otherwise a fresh line added to the pooled list and left in the prefab's active state (no SetActive there) |
| LineVisuals.GridVisualizer.ReturnLineToPool | Assets/Scripts/Gameplay/Grid/GridVisualizer.cs:70-77 | the line is deactivated and queued at the back |
| LineVisuals.GridVisualizer.DrawLineSegment | Assets/Scripts/Gameplay/Grid/GridVisualizer.cs:110-114 | the pooled line joins the drawn lines; it was not drawn already, and no other drawn line changes state |
| LineVisuals.GridVisualizer.DrawNext | Assets/Scripts/Gameplay/Grid/GridVisualizer.cs:93-107 | one more line drawn, keeping ShowGrid's progress |
| LineVisuals.GridVisualizer.HideGridInternal | Assets/Scripts/Gameplay/Grid/GridVisualizer.cs:134-141 | every drawn line, in order, is queued at the back, inactive, and the drawn list is emptied |
| LineVisuals.GridVisualizer.ReturnActiveLines | Assets/Scripts/Gameplay/Grid/GridVisualizer.cs:136-139 | the loop queues every drawn line in order and deactivates them |
| LineVisuals.GridVisualizer.ShowGrid | Assets/Scripts/Gameplay/Grid/GridVisualizer.cs:79-108 | a no-op when showing, without a GridManager or without a prefab; otherwise the old lines are returned first, then exactly (x+1) + (y+1) lines are drawn (none for a negative size), and the pool grows only by the lines the queue could not supply |
| LineVisuals.GridVisualizer.Redraw | Assets/Scripts/Gameplay/Grid/GridVisualizer.cs:84-107 | hiding then drawing both loops, with the bookkeeping kept |
| LineVisuals.GridVisualizer.DrawAll | Assets/Scripts/Gameplay/Grid/GridVisualizer.cs:93-107 | the two loops draw gridSize.x + 1 then gridSize.y + 1 lines |
| LineVisuals.GridVisualizer.HideGrid | Assets/Scripts/Gameplay/Grid/GridVisualizer.cs:143-148 | a no-op unless showing; otherwise every drawn line goes back to the queue, inactive, and showing stops |
| LineVisuals.GridVisualizer.OnDestroy | Assets/Scripts/Gameplay/Grid/GridVisualizer.cs:155-163 | every pooled line is destroyed and the three collections are emptied |

## Behaviour of the code worth knowing

The model keeps each of these as the code has it, although a tidier game might do otherwise:

- **Enemy death.** An enemy can be rewarded more than once. `Enemy.TakeDamage` has no already-dead
  guard, and Unity removes a destroyed object only at the end of the frame. So each later hit in the
  same frame credits the reward again (Enemies.RewardPerHitAfterDeath).
- **Death and the base.** For the same reason, an enemy killed earlier in a frame still runs its own
  `Update` in that frame. If that step takes it past the last waypoint, it also deals its base damage
  (Enemies.Enemy.Update). The reward and the base damage then both fire.
- **Slows.** Re-applying a slow does not restart a single timer. Each `ApplySlow` starts a wear-off of
  its own, and the first one to expire clears the slow entirely (Enemies.Enemy.SlowWearOff).
- **Placement.** Placing a tower never marks its cell unbuildable and never calls `SetGridPosition`.
  `Sell` therefore marks the cell at `GridPosition` buildable, which is (0, 0) unless something else set
  it.
- **Game over.** It is not reported once only. `GameManager.TakeDamage` calls `GameOver` on every hit
  that leaves health at 0 (Economy.GameOverRepeats).
- **Tower cooldown.** It ticks only while a target exists.
- **Waves without enemies.** The spawn coroutine runs up to its first wait before `currentWave` is
  incremented. A wave whose groups hold no enemies therefore pays its reward immediately, while the counter
  still names that wave, and always enters the gap wait.

## Left out

- Economy.GameManager.AddGold: gold is an unbounded integer in the model; the 32-bit wrap-around of
  `currentGold += amount` (2147483647 plus 1 giving -2147483648) is not captured.
- Economy.GameManager.TryPurchase: gold is an unbounded integer (Economy.Purchase); the 32-bit wrap-around
  of `currentGold -= cost` for a hugely negative cost (gold 0 and cost int.MinValue leaving int.MinValue)
  is not captured.
- Economy.GameManager.TakeDamage: health is an unbounded integer; the 32-bit wrap-around of
  `currentHealth - damage` (100 minus int.MinValue wrapping negative, clamped to 0, game over) is not
  captured, so Economy.Damage differs from the source for damages that overflow.
- Enemies.Enemy.TakeDamage: health is an unbounded integer; the 32-bit wrap-around of `health -= ...` is
  not captured.
- Rendering and engine geometry:
  - transforms, rotations, scales and `Slerp`/`LookRotation`;
  - projectile movement and the explosion effect;
  - indicator and line placement and scaling;
  - creating `indicatorParent` and `lineParent`;
  - gizmos;
  - `UpdatePlacementIndicatorVisuals` and `UpdateRangeIndicator`.
  They compute float geometry only.
- Floating point: reals are exact. `Mathf.RoundToInt` is modelled as round-half-to-even over exact
  rationals (Common.RoundToInt), not over IEEE single precision.
- Audio, the HUD, and `Debug` logging and dialogs: output only. `GameOver`'s screen and time-scale pause
  are reduced to a counter.
- `PauseGame`, `ResumeGame`, `ReturnToMainMenu` and `RestartGame`: they only set `Time.timeScale` or load
  scenes.
- Singletons: `GameManager.Instance`, `GridManager.Instance` and `PathManager.Instance` are passed in
  explicitly, and `AudioManager.Instance` is treated as output. The model assumes every singleton the
  source dereferences without a null check is present: `AudioManager.Instance` in `Projectile.Initialize`
  and `HitTarget` and in `TowerPlacement.StartPlacement` and `PlaceTower`, and `GameManager.Instance` in
  the spawner's wave reward and in `StartPlacement` and `PlaceTower`. Where one is missing the source
  throws (a projectile whose `Initialize` throws is never told to `Seek`, so it deals no damage); the
  model does not capture that. `PathManager` only forwards `GetPathPoints`, so it is given as its points (Waves.PathService).
- `TowerFactory` wraps `Instantiate` and is not part of this model; the model assumes it always succeeds.
  For a prefab without a TowerTargeting component it returns null and the source then throws: in
  `PlaceTower` after the gold is taken and without ending placement, in `StartPlacement` after the config
  is set and without recording a new preview. A placed tower is recorded as an id,
  its config and its position (Placement.Placed), and the preview tower as a fresh id.
- Which coroutine timer expires next, and the frame times, are chosen by the caller
  (Waves.EnemySpawner.Resume, Enemies.Enemy.SlowWearOff): the model has no clock.
- `Tower.Upgrade` only logs a message.
- TileVisuals.GridTileVisualizer.Hide resets the hidden cell before `ClearIndicators` rather than after it;
  the two steps touch disjoint fields, so the final state is the same.
- `GridVisualizer.OnDisable` and `GridTileVisualizer.OnDisable` only call `HideGrid` and
  `HideVisualization`, which are modelled.
- `GridTileVisualizer.OnDestroy` is not modelled. It destroys the pooled indicators, which
  LineVisuals.GridVisualizer.OnDestroy shows for the line pool.
- LineVisuals.GridVisualizer.OnDestroy: destroying the `lineParent` object is not modelled.
- The null checks in `ReturnIndicatorToPool`, `ReturnLineToPool`, `HideIndicatorAt` and `DrawLineSegment`
  are not modelled. Pooled objects are never destroyed while the pool is in use, so they always pass.
- Waves.EnemySpawner.StartNextWave, Waves.EnemySpawner.Resume, Waves.EnemySpawner.AreWavesComplete and
  Waves.EnemySpawner.IsLastWave require a wave config. The source throws a NullReferenceException without
  one; only `StartGame` checks for it. Null `enemyGroups` arrays are likewise not modelled.
- Enemies.Enemy.Initialize requires a path with at least one point, since the source indexes
  `waypoints[0]`. It also requires the waypoint index to be 0, which holds for every enemy `SpawnEnemy`
  creates.
- Enemies.Enemy.Update takes the distance left to the waypoint, after the move, as an input. It
  requires the waypoint index to name a waypoint: once the index passes the end the enemy is destroyed,
  and Unity no longer updates it after that frame.
- Grid.GridManager.WorldToGrid requires a non-zero cell size. With cell size 0 the source divides by
  zero in floating point, and what `FloorToInt` then returns is engine-defined.
- Catalogue.SortByCost: `Array.Sort` is unstable, so the order of towers of equal cost is unspecified. The
  model sorts by insertion, which gives one admissible order, and proves only sortedness and permutation
  for `OnValidate`.
- Placement.CanPlaceAtPosition: when there is no preview tower the source calls `IsChildOf(null)`. The
  model then treats every blocking collider as blocking.
- The order in which `ClearIndicators` walks the dictionary is left open. The queue order of the returned
  indicators is therefore not stated, only that they are all queued behind the old queue.
- `PathCreatorWindow`: the preview spheres and segments, `OnGUI` and asset saving are not modelled;
  `FinishPath` requires a config, which `OnGUI` guarantees before showing its button.
