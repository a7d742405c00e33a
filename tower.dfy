/** Tower: the firing cooldown, the projectile payload, selling, selection and preview mode. */
module Towers {
  import opened Common
  import opened Economy
  import opened Grid
  import opened Targeting

  /** TowerConfig (defaults: cost 100, range 5, fire rate 1, damage 20). `towerPrefab` says whether a prefab
      is assigned. */
  datatype TowerConfig = TowerConfig(
    towerName: string,
    towerPrefab: bool,
    cost: int,
    range: real,
    fireRate: real,
    damage: int,
    canTargetAir: bool,
    isAoE: bool,
    splashRadius: real,
    slowsEnemies: bool,
    slowAmount: real)

  /** The ProjectileData struct. */
  datatype ProjectileData = ProjectileData(
    Damage: int, IsAoE: bool, SplashRadius: real, SlowsEnemies: bool, SlowAmount: real, Speed: real)

  /** An Attack that produced a working projectile, aimed at `target`. */
  datatype Shot = Shot(data: ProjectileData, target: EnemyId)

  const ProjectileSpeed: real := 20.0

  /** sellValue: 70% of the cost, rounded to the nearest integer (ties to even). */
  function SellValue(c: TowerConfig): int
  {
    RoundToInt(c.cost as real * 0.7)
  }

  /** A non-negative cost sells for between 0 and the cost, within half a coin of 70% of it. */
  lemma SellValueBounds(c: TowerConfig)
    ensures -0.5 <= SellValue(c) as real - c.cost as real * 0.7 <= 0.5
    ensures c.cost >= 0 ==> 0 <= SellValue(c) <= c.cost
  {
  }

  /** The delay between shots: 1 / fireRate, with a rate of 1 standing in for a non-positive one. */
  function Cooldown(fireRate: real): (r: real)
    ensures r > 0.0
    ensures fireRate > 0.0 ==> r * fireRate == 1.0
    ensures fireRate <= 0.0 ==> r == 1.0
  {
    1.0 / (if fireRate > 0.0 then fireRate else 1.0)
  }

  /** The payload Attack builds from the config: its damage and effects, and speed 20. */
  function Payload(c: TowerConfig): ProjectileData
  {
    ProjectileData(c.damage, c.isAoE, c.splashRadius, c.slowsEnemies, c.slowAmount, ProjectileSpeed)
  }

  /** HandleShooting on values: the countdown after one targeted tick and whether Attack was called. */
  function Tick(countdown: real, dt: real, fireRate: real): (real, bool)
  {
    if countdown - dt <= 0.0 then (Cooldown(fireRate), true) else (countdown - dt, false)
  }

  /** A run of targeted ticks: the final countdown and the number of Attack calls. */
  function TickAll(countdown: real, fireRate: real, dts: seq<real>): (real, nat)
    decreases |dts|
  {
    if dts == [] then (countdown, 0)
    else
      var (c, fired) := Tick(countdown, dts[0], fireRate);
      var (c', n) := TickAll(c, fireRate, dts[1..]);
      (c', n + if fired then 1 else 0)
  }

  function SumR(dts: seq<real>): real
    decreases |dts|
  {
    if dts == [] then 0.0 else dts[0] + SumR(dts[1..])
  }

  /** At most one Attack per tick, and the countdown is positive after every tick. */
  lemma {:induction false} TickAllBounds(countdown: real, fireRate: real, dts: seq<real>)
    requires dts != []
    ensures TickAll(countdown, fireRate, dts).1 <= |dts|
    ensures TickAll(countdown, fireRate, dts).0 > 0.0
    decreases |dts|
  {
    var (c, fired) := Tick(countdown, dts[0], fireRate);
    if |dts| > 1 {
      TickAllBounds(c, fireRate, dts[1..]);
    }
  }

  /** No shot is fired while the targeted time so far stays below the countdown; the countdown then has
      dropped by exactly that time. */
  lemma {:induction false} NoShotBeforeCountdown(countdown: real, fireRate: real, dts: seq<real>)
    requires forall k :: 0 <= k < |dts| ==> dts[k] >= 0.0
    requires SumR(dts) < countdown
    ensures TickAll(countdown, fireRate, dts) == (countdown - SumR(dts), 0)
    decreases |dts|
  {
    if dts != [] {
      SumRNonNegative(dts[1..]);
      NoShotBeforeCountdown(countdown - dts[0], fireRate, dts[1..]);
    }
  }

  lemma {:induction false} SumRNonNegative(dts: seq<real>)
    requires forall k :: 0 <= k < |dts| ==> dts[k] >= 0.0
    ensures SumR(dts) >= 0.0
    decreases |dts|
  {
    if dts != [] {
      SumRNonNegative(dts[1..]);
    }
  }

  class Tower {
    /** The TowerTargeting component Awake finds (null when it is missing). */
    const targeting: TowerTargeting?
    /** Whether the serialized projectile prefab, projectile spawn point and tile-indicator prefab are
        assigned, and whether the projectile prefab carries a Projectile component. */
    const hasProjectilePrefab: bool
    const hasProjectileSpawnPoint: bool
    const projectileHasComponent: bool
    const hasTileIndicatorPrefab: bool
    var config: Option<TowerConfig>
    var fireCountdown: real
    var hasTileIndicator: bool
    var isSelected: bool
    var isPreviewMode: bool
    var GridPosition: Vec2Int
    var collidersEnabled: bool
    var destroyed: bool

    constructor (targeting: TowerTargeting?, hasProjectilePrefab: bool, hasProjectileSpawnPoint: bool,
                 projectileHasComponent: bool, hasTileIndicatorPrefab: bool)
      ensures this.targeting == targeting && this.hasProjectilePrefab == hasProjectilePrefab
      ensures this.hasProjectileSpawnPoint == hasProjectileSpawnPoint
      ensures this.projectileHasComponent == projectileHasComponent
      ensures this.hasTileIndicatorPrefab == hasTileIndicatorPrefab
      ensures config == None && fireCountdown == 0.0 && !hasTileIndicator && !isSelected && !isPreviewMode
      ensures GridPosition == Vec2Int(0, 0) && collidersEnabled && !destroyed
    {
      this.targeting := targeting;
      this.hasProjectilePrefab := hasProjectilePrefab;
      this.hasProjectileSpawnPoint := hasProjectileSpawnPoint;
      this.projectileHasComponent := projectileHasComponent;
      this.hasTileIndicatorPrefab := hasTileIndicatorPrefab;
      config, fireCountdown, hasTileIndicator := None, 0.0, false;
      isSelected, isPreviewMode, GridPosition := false, false, Vec2Int(0, 0);
      collidersEnabled, destroyed := true, false;
    }

    /** Range: the config's range, 0 without a config. */
    function Range(): (r: real)
      reads this
      ensures config.None? ==> r == 0.0
      ensures config.Some? ==> r == config.value.range
    {
      if config.Some? then config.value.range else 0.0
    }

    /** FireRate: the config's fire rate, 1 without a config. */
    function FireRate(): (r: real)
      reads this
      ensures config.None? ==> r == 1.0
      ensures config.Some? ==> r == config.value.fireRate
    {
      if config.Some? then config.value.fireRate else 1.0
    }

    /** Stores the config; with one, passes its range to the targeting component and starts the countdown
        at one cooldown. */
    method Initialize(towerConfig: Option<TowerConfig>)
      modifies this, targeting
      ensures config == towerConfig
      ensures towerConfig.Some? ==> fireCountdown == Cooldown(towerConfig.value.fireRate)
      ensures towerConfig.None? ==> fireCountdown == old(fireCountdown)
      ensures targeting != null && towerConfig.Some? ==> targeting.range == towerConfig.value.range
      ensures targeting != null ==>
        targeting.CurrentTarget == old(targeting.CurrentTarget) && targeting.enabled == old(targeting.enabled)
      ensures targeting != null && towerConfig.None? ==> targeting.range == old(targeting.range)
      ensures isSelected == old(isSelected) && isPreviewMode == old(isPreviewMode)
      ensures GridPosition == old(GridPosition) && destroyed == old(destroyed)
      ensures hasTileIndicator == old(hasTileIndicator) && collidersEnabled == old(collidersEnabled)
    {
      config := towerConfig;
      if config.Some? {
        if targeting != null {
          targeting.Initialize(config.value.range);
        }
        fireCountdown := 1.0 / (if FireRate() > 0.0 then FireRate() else 1.0);
      }
    }

    method SetGridPosition(gridPos: Vec2Int)
      modifies this
      ensures GridPosition == gridPos
      ensures config == old(config) && fireCountdown == old(fireCountdown) && isSelected == old(isSelected)
      ensures isPreviewMode == old(isPreviewMode) && destroyed == old(destroyed)
      ensures hasTileIndicator == old(hasTileIndicator) && collidersEnabled == old(collidersEnabled)
    {
      GridPosition := gridPos;
    }

    /** The shot Attack produces now: none when the config, projectile prefab, targeting component, target
        or spawn point is missing, or when the instantiated projectile has no Projectile component
        (it is destroyed at once). */
    function AttackOutcome(): Option<Shot>
      reads this, targeting
    {
      if config.None? || !hasProjectilePrefab || targeting == null || targeting.CurrentTarget.None? ||
         !hasProjectileSpawnPoint || !projectileHasComponent
      then None
      else Some(Shot(Payload(config.value), targeting.CurrentTarget.value))
    }

    method Attack() returns (shot: Option<Shot>)
      ensures shot == AttackOutcome()
      ensures shot.Some? ==> shot.value.data == Payload(config.value) && shot.value.data.Speed == 20.0 &&
                             shot.value.target == targeting.CurrentTarget.value
    {
      if config.None? || !hasProjectilePrefab || targeting == null || targeting.CurrentTarget.None? ||
         !hasProjectileSpawnPoint {
        return None;
      }
      if projectileHasComponent {
        var c := config.value;
        var data := ProjectileData(c.damage, c.isAoE, c.splashRadius, c.slowsEnemies, c.slowAmount, 20.0);
        return Some(Shot(data, targeting.CurrentTarget.value));
      }
      return None;
    }

    /** One frame. Nothing happens in preview mode or without a config. Otherwise the target is updated,
        and only while there is a target the countdown runs: it drops by `dt`, and at or below 0 Attack is
        called once and the countdown restarts at one cooldown. */
    method Update(dt: real, scan: seq<EnemyId>, dist: map<EnemyId, real>) returns (shot: Option<Shot>)
      requires Scannable(scan, dist)
      modifies this, targeting
      ensures config == old(config) && isPreviewMode == old(isPreviewMode) && isSelected == old(isSelected)
      ensures GridPosition == old(GridPosition) && destroyed == old(destroyed)
      ensures targeting != null ==> targeting.range == old(targeting.range) && targeting.enabled == old(targeting.enabled)
      ensures hasTileIndicator == old(hasTileIndicator) && collidersEnabled == old(collidersEnabled)
      ensures old(isPreviewMode) || old(config).None? ==>
        shot.None? && fireCountdown == old(fireCountdown) &&
        (targeting != null ==> targeting.CurrentTarget == old(targeting.CurrentTarget))
      ensures !old(isPreviewMode) && old(config).Some? && targeting == null ==>
        shot.None? && fireCountdown == old(fireCountdown)
      ensures !old(isPreviewMode) && old(config).Some? && targeting != null ==>
        targeting.CurrentTarget == Retarget(old(targeting.CurrentTarget), targeting.range, scan, dist) &&
        (targeting.CurrentTarget.None? ==> shot.None? && fireCountdown == old(fireCountdown)) &&
        (targeting.CurrentTarget.Some? ==>
          var (c, fired) := Tick(old(fireCountdown), dt, config.value.fireRate);
          fireCountdown == c && shot == (if fired then AttackOutcome() else None))
    {
      shot := None;
      if isPreviewMode || config.None? {
        return;
      }
      UpdateTarget(scan, dist);
      if targeting != null && targeting.CurrentTarget.Some? {
        shot := HandleShooting(dt);
      }
    }

    method UpdateTarget(scan: seq<EnemyId>, dist: map<EnemyId, real>)
      requires Scannable(scan, dist)
      modifies targeting
      ensures targeting != null ==>
        targeting.CurrentTarget == Retarget(old(targeting.CurrentTarget), targeting.range, scan, dist) &&
        targeting.range == old(targeting.range) && targeting.enabled == old(targeting.enabled)
    {
      if targeting != null {
        targeting.UpdateTarget(scan, dist);
      }
    }

    method HandleShooting(dt: real) returns (shot: Option<Shot>)
      modifies this
      ensures config == old(config) && isPreviewMode == old(isPreviewMode) && isSelected == old(isSelected)
      ensures GridPosition == old(GridPosition) && destroyed == old(destroyed)
      ensures hasTileIndicator == old(hasTileIndicator) && collidersEnabled == old(collidersEnabled)
      ensures config.None? ==> shot.None? && fireCountdown == old(fireCountdown)
      ensures config.Some? ==>
        var (c, fired) := Tick(old(fireCountdown), dt, config.value.fireRate);
        fireCountdown == c && shot == (if fired then AttackOutcome() else None)
    {
      shot := None;
      if config.None? {
        return;
      }
      fireCountdown := fireCountdown - dt;
      if fireCountdown <= 0.0 {
        shot := Attack();
        fireCountdown := 1.0 / (if FireRate() > 0.0 then FireRate() else 1.0);
      }
    }

    /** Selects unless already selected or in preview mode. */
    method Select()
      modifies this
      ensures isSelected == (old(isSelected) || !old(isPreviewMode))
      ensures isPreviewMode == old(isPreviewMode) && config == old(config) && destroyed == old(destroyed)
      ensures fireCountdown == old(fireCountdown) && GridPosition == old(GridPosition)
      ensures hasTileIndicator == old(hasTileIndicator) && collidersEnabled == old(collidersEnabled)
    {
      if isSelected || isPreviewMode {
        return;
      }
      isSelected := true;
    }

    /** Deselects unless not selected or in preview mode. */
    method Deselect()
      modifies this
      ensures isSelected == (old(isSelected) && old(isPreviewMode))
      ensures isPreviewMode == old(isPreviewMode) && config == old(config) && destroyed == old(destroyed)
      ensures fireCountdown == old(fireCountdown) && GridPosition == old(GridPosition)
      ensures hasTileIndicator == old(hasTileIndicator) && collidersEnabled == old(collidersEnabled)
    {
      if !isSelected || isPreviewMode {
        return;
      }
      isSelected := false;
    }

    /** Without a config the tower is only destroyed. With one, the sell value is credited, the cell at
        GridPosition (never set by placement, so (0, 0) unless someone called SetGridPosition) is marked
        buildable, Deselect is called (a no-op in preview mode) and the tower is destroyed; OnDestroy removes
        the tile indicator. */
    method Sell(gm: GameManager?, grid: GridManager?)
      modifies this, gm, grid
      ensures destroyed && !hasTileIndicator && config == old(config) && GridPosition == old(GridPosition)
      ensures old(config).None? ==>
        (gm != null ==> gm.State() == old(gm.State())) &&
        (grid != null ==> grid.buildableGrid == old(grid.buildableGrid)) && isSelected == old(isSelected)
      ensures old(config).Some? ==>
        (gm != null ==> gm.State() == Credit(old(gm.State()), SellValue(old(config).value))) &&
        (grid != null ==>
           grid.buildableGrid == SetCell(old(grid.buildableGrid), GridPosition, true)) &&
        isSelected == (old(isSelected) && old(isPreviewMode))
      ensures fireCountdown == old(fireCountdown) && isPreviewMode == old(isPreviewMode)
      ensures collidersEnabled == old(collidersEnabled)
      ensures grid != null ==> grid.gridSize == old(grid.gridSize) && grid.cellSize == old(grid.cellSize)
      ensures grid != null ==> grid.originPosition == old(grid.originPosition)
    {
      if config.None? {
        destroyed := true;
        hasTileIndicator := false;
        return;
      }
      if gm != null {
        gm.AddGold(SellValue(config.value));
      }
      if grid != null {
        grid.SetCellBuildable(GridPosition, true);
      }
      Deselect();
      destroyed := true;
      hasTileIndicator := false;
    }

    /** Preview mode switches targeting and every collider off (and back on when leaving it). Entering it
        shows the tile indicator when there is none yet, its prefab is assigned and a GridManager exists
        (`gridExists`); leaving it removes the indicator. */
    method SetPreviewMode(preview: bool, gridExists: bool)
      modifies this, targeting
      ensures isPreviewMode == preview && collidersEnabled == !preview
      ensures targeting != null ==>
        targeting.enabled == !preview &&
        targeting.CurrentTarget == old(targeting.CurrentTarget) && targeting.range == old(targeting.range)
      ensures preview ==> hasTileIndicator == (old(hasTileIndicator) || (hasTileIndicatorPrefab && gridExists))
      ensures !preview ==> !hasTileIndicator
      ensures config == old(config) && isSelected == old(isSelected) && fireCountdown == old(fireCountdown)
      ensures GridPosition == old(GridPosition) && destroyed == old(destroyed)
    {
      isPreviewMode := preview;
      if targeting != null {
        targeting.enabled := !preview;
      }
      if preview {
        if !hasTileIndicator && hasTileIndicatorPrefab && gridExists {
          hasTileIndicator := true;
        }
      } else {
        hasTileIndicator := false;
      }
      collidersEnabled := !preview;
    }
  }
}
