/** Projectile: lifetime expiry, the hit test, and single-target or area damage with an optional slow.
    The scene is given as `dist` (distance from the projectile to every live object), `enemyComponents`
    (the live objects carrying an Enemy component) and `overlap` (the OverlapSphere result used on an
    area hit). */
module Projectiles {
  import opened Common
  import opened Economy
  import opened Enemies
  import opened Towers

  /** One DamageEnemy call that found an Enemy: the damage dealt and the slow applied, if any. */
  datatype Impact = Impact(enemy: EnemyId, damage: int, slow: Option<real>)

  /** What DamageEnemy does to enemy `e` with payload `data`. */
  function ImpactOn(data: ProjectileData, e: EnemyId): Impact
  {
    Impact(e, data.Damage, if data.SlowsEnemies then Some(data.SlowAmount) else None)
  }

  /** The enemy one overlapping collider contributes: its Enemy, when it is tagged "Enemy" and has one. */
  function VictimOf(c: Collider): seq<EnemyId>
  {
    if c.tag == "Enemy" && c.enemy.Some? then [c.enemy.value] else []
  }

  /** The enemies an explosion damages, in overlap order. */
  function AoEVictims(colliders: seq<Collider>): seq<EnemyId>
    decreases |colliders|
  {
    if colliders == [] then []
    else AoEVictims(colliders[..|colliders| - 1]) + VictimOf(colliders[|colliders| - 1])
  }

  /** Exactly the Enemy-tagged colliders with an Enemy are hit, and one collider yields at most one hit. */
  lemma {:induction false} AoEVictimsExact(colliders: seq<Collider>, e: EnemyId)
    ensures e in AoEVictims(colliders) <==>
      exists k :: 0 <= k < |colliders| && colliders[k].tag == "Enemy" && colliders[k].enemy == Some(e)
    ensures |AoEVictims(colliders)| <= |colliders|
    decreases |colliders|
  {
    if colliders != [] {
      var n := |colliders| - 1;
      var front := colliders[..n];
      AoEVictimsExact(front, e);
      if e in AoEVictims(front) {
        var k :| 0 <= k < |front| && front[k].tag == "Enemy" && front[k].enemy == Some(e);
        assert colliders[k] == front[k];
      }
      if exists k :: 0 <= k < |colliders| && colliders[k].tag == "Enemy" && colliders[k].enemy == Some(e) {
        var k :| 0 <= k < |colliders| && colliders[k].tag == "Enemy" && colliders[k].enemy == Some(e);
        if k < n {
          assert front[k] == colliders[k];
        }
      }
    }
  }

  function Impacts(data: ProjectileData, victims: seq<EnemyId>): (r: seq<Impact>)
    ensures |r| == |victims|
    ensures forall k :: 0 <= k < |r| ==> r[k] == ImpactOn(data, victims[k])
  {
    seq(|victims|, k requires 0 <= k < |victims| => ImpactOn(data, victims[k]))
  }

  /** Explode's loop over the overlapping colliders. */
  method Explode(data: ProjectileData, overlap: seq<Collider>) returns (impacts: seq<Impact>)
    ensures impacts == Impacts(data, AoEVictims(overlap))
  {
    impacts := [];
    var i := 0;
    while i < |overlap|
      invariant 0 <= i <= |overlap|
      invariant impacts == Impacts(data, AoEVictims(overlap[..i]))
    {
      var c := overlap[i];
      assert overlap[..i + 1][..i] == overlap[..i];
      ghost var before := AoEVictims(overlap[..i]);
      assert AoEVictims(overlap[..i + 1]) == before + VictimOf(c);
      if c.tag == "Enemy" && c.enemy.Some? {
        impacts := impacts + [ImpactOn(data, c.enemy.value)];
      }
      assert impacts == Impacts(data, before + VictimOf(c));
      i := i + 1;
    }
    assert overlap[..i] == overlap;
  }

  /** DamageEnemy on an object that has an Enemy component: the damage goes through Enemy.TakeDamage, then
      the slow, if the payload carries one, through ApplySlow (even when the hit was lethal). */
  method DamageEnemy(e: Enemy, hit: Impact, gm: GameManager?)
    requires e.Valid()
    modifies e, gm
    ensures e.Valid()
    ensures (e.health, e.health <= 0) == Hit(old(e.health), ReducedDamage(hit.damage, e.armorDamageReduction))
    ensures e.destroyed == (old(e.destroyed) || e.health <= 0)
    ensures gm != null ==> gm.State() == if e.health <= 0 then Credit(old(gm.State()), e.goldReward) else old(gm.State())
    ensures hit.slow.None? ==> e.Slow() == old(e.Slow()) && e.pendingWearOffs == old(e.pendingWearOffs)
    ensures hit.slow.Some? ==>
      e.Slow() == Slowed(old(e.Slow()), e.normalSpeed, hit.slow.value) && e.pendingWearOffs == old(e.pendingWearOffs) + 1
    ensures e.waypoints == old(e.waypoints) && e.currentWaypointIndex == old(e.currentWaypointIndex)
    ensures e.armorDamageReduction == old(e.armorDamageReduction) && e.goldReward == old(e.goldReward)
    ensures e.damage == old(e.damage) && e.normalSpeed == old(e.normalSpeed)
  {
    e.TakeDamage(hit.damage, gm);
    if hit.slow.Some? {
      e.ApplySlow(hit.slow.value);
    }
  }

  class Projectile {
    /** The serialized lifetime limit and hit radius (defaults 5 and 0.5). */
    const maxLifetime: real
    const collisionRadius: real
    var data: ProjectileData
    var target: Option<EnemyId>
    var lifetime: real
    var destroyed: bool

    constructor (maxLifetime: real, collisionRadius: real)
      ensures this.maxLifetime == maxLifetime && this.collisionRadius == collisionRadius
      ensures target == None && lifetime == 0.0 && !destroyed
    {
      this.maxLifetime, this.collisionRadius := maxLifetime, collisionRadius;
      data := ProjectileData(0, false, 0.0, false, 0.0, 0.0);
      target, lifetime, destroyed := None, 0.0, false;
    }

    method Initialize(data: ProjectileData)
      modifies this
      ensures this.data == data && target == old(target) && lifetime == old(lifetime) && destroyed == old(destroyed)
    {
      this.data := data;
    }

    method Seek(target: EnemyId)
      modifies this
      ensures this.target == Some(target) && data == old(data) && lifetime == old(lifetime)
      ensures destroyed == old(destroyed)
    {
      this.target := Some(target);
    }

    /** One frame. The lifetime grows by `dt` first; a lost target or a lifetime over `maxLifetime`
        destroys the projectile with no damage, before any hit test. Within `collisionRadius` of the target
        it hits and is destroyed; otherwise it only moves. */
    method Update(dt: real, dist: map<EnemyId, real>, enemyComponents: set<EnemyId>, overlap: seq<Collider>)
        returns (impacts: seq<Impact>)
      requires !destroyed
      modifies this
      ensures lifetime == old(lifetime) + dt && data == old(data) && target == old(target)
      ensures target.None? || target.value !in dist || lifetime > maxLifetime ==> destroyed && impacts == []
      ensures target.Some? && target.value in dist && lifetime <= maxLifetime ==>
        (destroyed <==> dist[target.value] <= collisionRadius) &&
        impacts == (if dist[target.value] <= collisionRadius then HitImpacts(target.value, enemyComponents, overlap) else [])
      ensures impacts != [] ==> destroyed
    {
      impacts := [];
      lifetime := lifetime + dt;
      if target.None? || target.value !in dist || lifetime > maxLifetime {
        destroyed := true;
        return;
      }
      var distanceToTarget := dist[target.value];
      if distanceToTarget <= collisionRadius {
        impacts := HitTarget(target.value, enemyComponents, overlap);
        destroyed := true;
      }
    }

    /** HitTarget's damage: the overlap set on an area hit (the target is not added separately), the target
        alone otherwise, if it carries an Enemy. */
    function HitImpacts(t: EnemyId, enemyComponents: set<EnemyId>, overlap: seq<Collider>): seq<Impact>
      reads this
    {
      if data.IsAoE then Impacts(data, AoEVictims(overlap))
      else if t in enemyComponents then [ImpactOn(data, t)]
      else []
    }

    method HitTarget(t: EnemyId, enemyComponents: set<EnemyId>, overlap: seq<Collider>) returns (impacts: seq<Impact>)
      ensures impacts == HitImpacts(t, enemyComponents, overlap)
      ensures !data.IsAoE ==> forall k :: 0 <= k < |impacts| ==> impacts[k].enemy == t
      ensures forall k :: 0 <= k < |impacts| ==>
        impacts[k].damage == data.Damage && (impacts[k].slow.Some? <==> data.SlowsEnemies) &&
        (impacts[k].slow.Some? ==> impacts[k].slow.value == data.SlowAmount)
    {
      if data.IsAoE {
        impacts := Explode(data, overlap);
      } else if t in enemyComponents {
        impacts := [ImpactOn(data, t)];
      } else {
        impacts := [];
      }
    }
  }
}
