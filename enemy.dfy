/** Enemy: waypoint following, armour-reduced damage with a death reward, slows and their wear-off. */
module Enemies {
  import opened Common
  import opened Economy

  /** The enemy prefab: the height of its mesh renderer's bounds when it has one, and whether it carries an
      Enemy component. */
  datatype EnemyPrefab = EnemyPrefab(meshHeight: Option<real>, hasEnemyComponent: bool)

  /** EnemyConfig (defaults: health 100, speed 5, base damage 10, reward 10, no armour, not fast). */
  datatype EnemyConfig = EnemyConfig(
    enemyName: string,
    prefab: Option<EnemyPrefab>,
    maxHealth: int,
    moveSpeed: real,
    baseDamage: int,
    goldReward: int,
    isArmored: bool,
    armorDamageReduction: real,
    isFast: bool,
    speedMultiplier: real)

  /** Distance to the current waypoint under which it counts as reached. */
  const ReachDistance: real := 0.1

  /** How long one slow lasts before its wear-off fires. */
  const SlowDuration: real := 2.0

  function ConfiguredSpeed(c: EnemyConfig): real
  {
    c.moveSpeed * (if c.isFast then c.speedMultiplier else 1.0)
  }

  function ConfiguredArmor(c: EnemyConfig): real
  {
    if c.isArmored then c.armorDamageReduction else 0.0
  }

  /** The health lost to one hit of `amount` with armour `armor`: amount * (1 - armor), rounded. */
  function ReducedDamage(amount: int, armor: real): int
  {
    RoundToInt(amount as real * (1.0 - armor))
  }

  /** Without armour a hit costs exactly its amount; with armour in [0, 1] a non-negative hit costs
      between 0 and its amount. */
  lemma ReducedDamageBounds(amount: int, armor: real)
    ensures armor == 0.0 ==> ReducedDamage(amount, armor) == amount
    ensures 0.0 <= armor <= 1.0 && amount >= 0 ==> 0 <= ReducedDamage(amount, armor) <= amount
  {
    var x := amount as real * (1.0 - armor);
    if armor == 0.0 {
      assert x == amount as real;
    }
    if 0.0 <= armor <= 1.0 && amount >= 0 {
      assert 0.0 <= x <= amount as real by {
        assert amount as real * armor >= 0.0;
      }
    }
  }

  /** The slow part of an enemy's state. */
  datatype SlowState = SlowState(slowAmount: real, speed: real)

  /** ApplySlow: the stronger of the active and the new slow applies to the unslowed speed. */
  function Slowed(s: SlowState, normalSpeed: real, amount: real): SlowState
  {
    var a := MaxReal(s.slowAmount, amount);
    SlowState(a, normalSpeed * (1.0 - a))
  }

  function MaxOf(base: real, amounts: seq<real>): real
    decreases |amounts|
  {
    if amounts == [] then base else MaxOf(MaxReal(base, amounts[0]), amounts[1..])
  }

  function SlowedAll(s: SlowState, normalSpeed: real, amounts: seq<real>): SlowState
    decreases |amounts|
  {
    if amounts == [] then s else SlowedAll(Slowed(s, normalSpeed, amounts[0]), normalSpeed, amounts[1..])
  }

  /** Slows never compound: after any non-empty run of slows the enemy carries the largest amount seen
      (including the one already active) and moves at the unslowed speed scaled by it once. */
  lemma {:induction false} SlowsTakeMaximum(s: SlowState, normalSpeed: real, amounts: seq<real>)
    requires amounts != []
    ensures SlowedAll(s, normalSpeed, amounts).slowAmount == MaxOf(s.slowAmount, amounts)
    ensures SlowedAll(s, normalSpeed, amounts).speed == normalSpeed * (1.0 - MaxOf(s.slowAmount, amounts))
    decreases |amounts|
  {
    var s' := Slowed(s, normalSpeed, amounts[0]);
    if |amounts| > 1 {
      SlowsTakeMaximum(s', normalSpeed, amounts[1..]);
    }
  }

  /** Two slows give the same state in either order. */
  lemma SlowOrderIrrelevant(s: SlowState, normalSpeed: real, a: real, b: real)
    ensures Slowed(Slowed(s, normalSpeed, a), normalSpeed, b) == Slowed(Slowed(s, normalSpeed, b), normalSpeed, a)
  {
  }

  /** One hit on the health counter: the new health and whether the death branch (reward, destroy) runs. */
  function Hit(health: int, reduced: int): (int, bool)
  {
    (health - reduced, health - reduced <= 0)
  }

  /** Health after a run of hits and how many of them ran the death branch. */
  function HitAll(health: int, reduced: seq<int>): (int, nat)
    decreases |reduced|
  {
    if reduced == [] then (health, 0)
    else
      var (h, died) := Hit(health, reduced[0]);
      var (h', n) := HitAll(h, reduced[1..]);
      (h', n + if died then 1 else 0)
  }

  /** There is no already-dead guard: once health is at or below 0, every further non-negative hit runs the
      death branch again, so the reward is credited once per hit. Health is not clamped. */
  lemma {:induction false} RewardPerHitAfterDeath(health: int, reduced: seq<int>)
    requires health <= 0
    requires forall i :: 0 <= i < |reduced| ==> reduced[i] >= 0
    ensures HitAll(health, reduced).1 == |reduced|
    ensures HitAll(health, reduced).0 <= health
    decreases |reduced|
  {
    if reduced != [] {
      RewardPerHitAfterDeath(health - reduced[0], reduced[1..]);
    }
  }

  class Enemy {
    var speed: real
    var health: int
    var damage: int
    var goldReward: int
    var armorDamageReduction: real
    var waypoints: Option<seq<Vec3>>
    var currentWaypointIndex: int
    var slowAmount: real
    var normalSpeed: real
    /** Wear-off coroutines started and not yet finished. */
    var pendingWearOffs: nat
    /** Destroy(gameObject) has been called (Unity removes the object at the end of the frame). */
    var destroyed: bool

    /** The waypoint index stays within the path, and passing its end always destroys the enemy. */
    ghost predicate Valid()
      reads this
    {
      match waypoints
      case None => currentWaypointIndex == 0
      case Some(wps) =>
        0 <= currentWaypointIndex <= |wps| && (currentWaypointIndex == |wps| ==> destroyed)
    }

    function Slow(): SlowState
      reads this
    {
      SlowState(slowAmount, speed)
    }

    /** A freshly instantiated enemy with the field initialisers of Enemy.cs. */
    constructor ()
      ensures Valid()
      ensures speed == 5.0 && health == 100 && damage == 10 && goldReward == 0
      ensures armorDamageReduction == 0.0 && waypoints == None && currentWaypointIndex == 0
      ensures slowAmount == 0.0 && normalSpeed == 0.0 && pendingWearOffs == 0 && !destroyed
    {
      speed, health, damage, goldReward := 5.0, 100, 10, 0;
      armorDamageReduction, waypoints, currentWaypointIndex := 0.0, None, 0;
      slowAmount, normalSpeed, pendingWearOffs, destroyed := 0.0, 0.0, 0, false;
    }

    /** Start: the unslowed speed is taken from the current speed. */
    method Start()
      modifies this
      ensures normalSpeed == old(speed)
      ensures speed == old(speed) && health == old(health) && slowAmount == old(slowAmount)
      ensures waypoints == old(waypoints) && currentWaypointIndex == old(currentWaypointIndex)
      ensures destroyed == old(destroyed) && pendingWearOffs == old(pendingWearOffs)
      ensures damage == old(damage) && goldReward == old(goldReward)
      ensures armorDamageReduction == old(armorDamageReduction)
    {
      normalSpeed := speed;
    }

    /** Takes the path (indexing its first point, so the path must not be empty) and the configured stats.
        The waypoint index is not reset. */
    method Initialize(path: seq<Vec3>, config: EnemyConfig)
      requires |path| >= 1
      requires currentWaypointIndex == 0
      modifies this
      ensures Valid()
      ensures waypoints == Some(path) && health == config.maxHealth
      ensures speed == ConfiguredSpeed(config) && normalSpeed == speed
      ensures damage == config.baseDamage && goldReward == config.goldReward
      ensures armorDamageReduction == ConfiguredArmor(config)
      ensures currentWaypointIndex == 0 && slowAmount == old(slowAmount)
      ensures destroyed == old(destroyed) && pendingWearOffs == old(pendingWearOffs)
    {
      waypoints := Some(path);
      health := config.maxHealth;
      speed := config.moveSpeed * (if config.isFast then config.speedMultiplier else 1.0);
      normalSpeed := speed;
      damage := config.baseDamage;
      goldReward := config.goldReward;
      armorDamageReduction := if config.isArmored then config.armorDamageReduction else 0.0;
    }

    /** The waypoint logic of one frame, after the move: `distanceToTarget` is the distance left to the
        current waypoint. Within 0.1 the index advances by one; passing the last waypoint deals `damage` to
        the base and destroys the enemy. Destroy takes effect at the end of the frame, so an enemy killed
        earlier in the frame still runs this and, reaching the base, still deals its damage. */
    method Update(distanceToTarget: real, gm: GameManager?)
      requires Valid() && (waypoints.Some? ==> currentWaypointIndex < |waypoints.value|)
      modifies this, gm
      ensures Valid()
      ensures health == old(health) && speed == old(speed) && slowAmount == old(slowAmount)
      ensures waypoints == old(waypoints) && goldReward == old(goldReward) && damage == old(damage)
      ensures normalSpeed == old(normalSpeed) && armorDamageReduction == old(armorDamageReduction)
      ensures pendingWearOffs == old(pendingWearOffs)
      ensures waypoints.None? || distanceToTarget >= ReachDistance ==>
        currentWaypointIndex == old(currentWaypointIndex) && destroyed == old(destroyed) &&
        (gm != null ==> gm.State() == old(gm.State()))
      ensures waypoints.Some? && distanceToTarget < ReachDistance ==>
        currentWaypointIndex == old(currentWaypointIndex) + 1 &&
        destroyed == (old(destroyed) || currentWaypointIndex >= |waypoints.value|)
      ensures waypoints.Some? && distanceToTarget < ReachDistance && currentWaypointIndex >= |waypoints.value| ==>
        gm != null ==> gm.State() == Damage(old(gm.State()), damage)
      ensures waypoints.Some? && distanceToTarget < ReachDistance && currentWaypointIndex < |waypoints.value| ==>
        gm != null ==> gm.State() == old(gm.State())
    {
      if waypoints.None? {
        return;
      }
      if distanceToTarget < ReachDistance {
        currentWaypointIndex := currentWaypointIndex + 1;
        if currentWaypointIndex >= |waypoints.value| {
          DealDamageToBase(gm);
          destroyed := true;
        }
      }
    }

    method DealDamageToBase(gm: GameManager?)
      modifies gm
      ensures gm != null ==> gm.State() == Damage(old(gm.State()), damage)
    {
      if gm != null {
        gm.TakeDamage(damage);
      }
    }

    /** Health drops by the armour-reduced, rounded amount (never clamped). At or below 0 the reward is
        credited and the enemy destroyed; there is no check that it already was. */
    method TakeDamage(damageAmount: int, gm: GameManager?)
      requires Valid()
      modifies this, gm
      ensures Valid()
      ensures (health, health <= 0) == Hit(old(health), ReducedDamage(damageAmount, armorDamageReduction))
      ensures destroyed == (old(destroyed) || health <= 0)
      ensures gm != null ==> gm.State() == if health <= 0 then Credit(old(gm.State()), goldReward) else old(gm.State())
      ensures Slow() == old(Slow()) && waypoints == old(waypoints)
      ensures currentWaypointIndex == old(currentWaypointIndex) && armorDamageReduction == old(armorDamageReduction)
      ensures goldReward == old(goldReward) && pendingWearOffs == old(pendingWearOffs)
      ensures normalSpeed == old(normalSpeed) && damage == old(damage)
    {
      health := health - ReducedDamage(damageAmount, armorDamageReduction);
      if health <= 0 {
        if gm != null {
          gm.AddGold(goldReward);
        }
        destroyed := true;
      }
    }

    /** The stronger slow applies to the unslowed speed, and a new wear-off timer starts. */
    method ApplySlow(amount: real)
      modifies this
      ensures Slow() == Slowed(old(Slow()), normalSpeed, amount)
      ensures pendingWearOffs == old(pendingWearOffs) + 1
      ensures normalSpeed == old(normalSpeed) && health == old(health) && destroyed == old(destroyed)
      ensures waypoints == old(waypoints) && currentWaypointIndex == old(currentWaypointIndex)
      ensures armorDamageReduction == old(armorDamageReduction) && goldReward == old(goldReward)
      ensures damage == old(damage)
    {
      slowAmount := MaxReal(slowAmount, amount);
      speed := normalSpeed * (1.0 - slowAmount);
      pendingWearOffs := pendingWearOffs + 1;
    }

    /** One wear-off timer expires: the slow is cleared and the unslowed speed restored, even if another
        slow was applied after this timer started. */
    method SlowWearOff()
      requires pendingWearOffs > 0
      modifies this
      ensures Slow() == SlowState(0.0, normalSpeed)
      ensures pendingWearOffs == old(pendingWearOffs) - 1
      ensures normalSpeed == old(normalSpeed) && health == old(health) && destroyed == old(destroyed)
      ensures waypoints == old(waypoints) && currentWaypointIndex == old(currentWaypointIndex)
      ensures armorDamageReduction == old(armorDamageReduction) && goldReward == old(goldReward)
      ensures damage == old(damage)
    {
      slowAmount := 0.0;
      speed := normalSpeed;
      pendingWearOffs := pendingWearOffs - 1;
    }
  }
}
